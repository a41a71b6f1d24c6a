/** Whose resume a finished Worker's is: its own exactly when its id stood for no
    other Worker's resume when it was dispatched. */
module BrokerResumes {
  import opened BrokerSpec
  import opened BrokerProofs

  /** A planned resume is for the named Worker itself if and only if its id stands for no resume. */
  lemma PlanForItselfIff(c: Setup, b: Broker, of: Rid, screened: bool, session: bool)
    requires ResumesKept(c, b) && Plan(c, b, of, screened, session).Some?
    ensures Plan(c, b, of, screened, session).value.0 == of <==> of !in b.spec.resumeOf
  {}

  /** Resume ids that run.json does not have yet are the running turn's; a running turn has no result yet. */
  ghost predicate StandingKept(c: Setup, b: Broker) {
    && (forall k | k in b.run.resumeOf :: k in b.spec.resumeOf)
    && (forall k | k in b.spec.resumeOf && k !in b.run.resumeOf ::
          !c.mcp && b.turn.Some? && b.turn.value.rid == k && b.turn.value.work.Resume?)
    && (b.turn.Some? ==>
          b.turn.value.rid !in b.results &&
          if c.mcp then b.turn.value.rid in b.issuedFiles else b.turn.value.rid in b.seen)
    && (c.mcp ==> b.results.Keys <= b.issuedFiles && b.spec.resumeOf.Keys <= b.issuedFiles)
  }

  lemma RequestKeepsStanding(c: Setup, b: Broker, e: Event)
    requires StandingKept(c, b) && (IsRequest(e) || e.IssueCut?)
    ensures StandingKept(c, Step(c, b, e))
  {
    hide Plan, ResumeId;
  }

  lemma TurnKeepsStanding(c: Setup, b: Broker, e: Event)
    requires StandingKept(c, b) && b.turn.Some?
    ensures StandingKept(c, TurnStep(c, b, e))
  {
    var t := b.turn.value;
    if t.phase.Ending? {
      WriteKeepsStanding(c, b, t.rid, t.phase.status);
    }
    hide WriteResult;
  }

  lemma WriteKeepsStanding(c: Setup, b: Broker, rid: Rid, status: Status)
    ensures var b' := WriteResult(c, b, rid, status);
            && b'.results.Keys <= b.results.Keys + {rid} && b'.run == b.run && b'.issuedFiles == b.issuedFiles
            && (b' == Restarted(b) || (b'.spec == b.spec && b'.turn == b.turn && b'.seen == b.seen))
  {}

  lemma StepKeepsStanding(c: Setup, b: Broker, e: Event)
    requires StandingKept(c, b)
    ensures StandingKept(c, Step(c, b, e))
  {
    if IsRequest(e) || e.IssueCut? {
      RequestKeepsStanding(c, b, e);
    } else if b.turn.Some? {
      TurnKeepsStanding(c, b, e);
      hide TurnStep;
    }
  }

  lemma {:induction false} RunKeepsStanding(c: Setup, events: seq<Event>)
    ensures StandingKept(c, Run(c, events))
    decreases |events|
  {
    hide Step, StandingKept;
    if events == [] {
      StandsAtFirst(c);
    } else {
      RunKeepsStanding(c, events[..|events| - 1]);
      StepKeepsStanding(c, Run(c, events[..|events| - 1]), events[|events| - 1]);
    }
  }

  lemma StandsAtFirst(c: Setup)
    ensures StandingKept(c, INIT)
  {}

  /** Once an id has a result, it stands for a resume or not for ever. */
  lemma StandingStays(c: Setup, b: Broker, e: Event, rid: Rid)
    requires StandingKept(c, b) && rid in b.results
    ensures rid in Step(c, b, e).spec.resumeOf <==> rid in b.spec.resumeOf
  {
    hide Plan, ResumeId;
  }

  lemma {:induction false} StandingStaysOver(c: Setup, events: seq<Event>, n: nat, m: nat, rid: Rid)
    requires n <= m <= |events| && rid in Run(c, events[..n]).results
    ensures rid in Run(c, events[..m]).results
    ensures rid in Run(c, events[..m]).spec.resumeOf <==> rid in Run(c, events[..n]).spec.resumeOf
    decreases m
  {
    hide Step, StandingKept;
    if n < m {
      assert events[..m][..m - 1] == events[..m - 1];
      StandingStaysOver(c, events, n, m - 1, rid);
      RunKeepsStanding(c, events[..m - 1]);
      StandingStays(c, Run(c, events[..m - 1]), events[m - 1], rid);
      StepKeepsResult(c, Run(c, events[..m - 1]), events[m - 1], rid);
    }
  }

  predicate Dispatching(b: Broker, rid: Rid) {
    b.turn.Some? && b.turn.value.rid == rid && b.turn.value.work.Dispatch?
  }

  /** While a Worker's first turn lasts, and as it leaves its result, its id stands as it did. */
  lemma StandsThroughTurn(c: Setup, b: Broker, e: Event, rid: Rid)
    requires StandingKept(c, b) && Dispatching(b, rid)
    requires Dispatching(Step(c, b, e), rid) || rid in Step(c, b, e).results
    ensures rid in Step(c, b, e).spec.resumeOf <==> rid in b.spec.resumeOf
  {
    hide Plan, ResumeId;
  }

  lemma {:induction false} StandsThroughTurns(c: Setup, events: seq<Event>, i: nat, k: nat, rid: Rid)
    requires i < k <= |events| && forall m | i < m <= k :: Dispatching(Run(c, events[..m]), rid)
    ensures rid in Run(c, events[..k]).spec.resumeOf <==> rid in Run(c, events[..i + 1]).spec.resumeOf
    decreases k
  {
    hide Step, StandingKept, Dispatching;
    if k > i + 1 {
      assert events[..k][..k - 1] == events[..k - 1];
      StandsThroughTurns(c, events, i, k - 1, rid);
      RunKeepsStanding(c, events[..k - 1]);
      StandsThroughTurn(c, Run(c, events[..k - 1]), events[k - 1], rid);
    }
  }

  /** A dispatch changes no resume id; over MCP its own id stands for none. */
  lemma DispatchStands(c: Setup, b: Broker, e: Event, rid: Rid)
    requires StandingKept(c, b) && b.turn.None? && Dispatching(Step(c, b, e), rid)
    ensures rid in Step(c, b, e).spec.resumeOf <==> rid in b.spec.resumeOf
    ensures c.mcp ==> rid !in b.spec.resumeOf
  {
    hide Plan, ResumeId;
  }

  /** In every run: let a Worker be dispatched under `rid` by event i, its turn last
      until event j leaves its result.  From then on a resume of it that is planned is
      planned for itself if and only if `rid` stood for no resume when it was
      dispatched; over MCP it always is. */
  lemma OwnResumeIff(c: Setup, events: seq<Event>, i: nat, j: nat, n: nat, rid: Rid, screened: bool, session: bool)
    requires i < j < n <= |events|
    requires Run(c, events[..i]).turn.None? && forall m | i < m <= j :: Dispatching(Run(c, events[..m]), rid)
    requires rid in Run(c, events[..j + 1]).results
    requires Plan(c, Run(c, events[..n]), rid, screened, session).Some?
    ensures Plan(c, Run(c, events[..n]), rid, screened, session).value.0 == rid <==>
              rid !in Run(c, events[..i]).spec.resumeOf
    ensures c.mcp ==> Plan(c, Run(c, events[..n]), rid, screened, session).value.0 == rid
  {
    hide Step, StandingKept, Dispatching, ResumesKept, Plan;
    assert events[..i + 1][..i] == events[..i] && events[..j + 1][..j] == events[..j];
    RunKeepsStanding(c, events[..i]);
    RunKeepsStanding(c, events[..j]);
    DispatchStands(c, Run(c, events[..i]), events[i], rid);
    StandsThroughTurns(c, events, i, j, rid);
    StandsThroughTurn(c, Run(c, events[..j]), events[j], rid);
    StandingStaysOver(c, events, j + 1, n, rid);
    ResumeBounds(c, events[..n]);
    PlanForItselfIff(c, Run(c, events[..n]), rid, screened, session);
  }
}
