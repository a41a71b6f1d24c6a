/** Where what a broker did came from: every launch from a valid request, every
    resume from a planned one, every result from a turn's end, an answer or a refusal. */
module BrokerSources {
  import opened Options
  import opened BrokerSpec

  // ---- One step

  /** The request is refused at once, or its Worker gets no directory. */
  predicate RefusedNow(c: Setup, b: Broker, e: Event, rid: Rid) {
    match e
    case DispatchRequest(r, valid) => r == rid && (!valid || (c.mcp && b.turn.Some?))
    case AnswerRequest(r, of, taken) => !c.mcp && r == rid && !(of in b.issued && taken)
    case Unreadable(r) => !c.mcp && r == rid
    case ResumeRequest(r, of, screened, session) =>
      !c.mcp && r == rid &&
      var plan := Plan(c, b, of, screened, session);
      plan.Some? ==> ResumeId(plan.value.0, plan.value.1) != rid
    case MakeWorkdir =>
      b.turn.Some? && b.turn.value.rid == rid && (c.width == 0 || b.spec.spawned >= c.total || rid in b.workdirs)
    case _ => false
  }

  /** The answer goes to a request this broker issued, and the exchange took it. */
  predicate AnsweredNow(c: Setup, b: Broker, e: Event, rid: Rid) {
    !c.mcp && e.AnswerRequest? && e.rid == rid && e.of in b.issued && e.taken
  }

  predicate EndsNow(b: Broker, e: Event, rid: Rid, status: Status) {
    e.WorkerEnds? && e.status == status && b.turn.Some? && b.turn.value.rid == rid
  }

  predicate AskedNow(c: Setup, b: Broker, e: Event, rid: Rid, root: Rid, n: nat) {
    && e.ResumeRequest? && e.screened && e.session && b.turn.None?
    && Plan(c, b, e.of, true, true) == Some((root, n)) && rid == ResumeId(root, n)
  }

  /** The result was there, is the running turn's, answers a question or refuses. */
  predicate ResultFrom(c: Setup, b: Broker, e: Event, rid: Rid, status: Status) {
    || (rid in b.results && b.results[rid] == status)
    || (b.turn.Some? && b.turn.value.rid == rid && b.turn.value.phase == Ending(status))
    || (status == Answered && AnsweredNow(c, b, e, rid))
    || (status == Refused && RefusedNow(c, b, e, rid))
  }

  /** The turn was running or comes from a valid request or a planned resume, and gets
      on only where there is a fan-out; it ends as its Worker did, or refused. */
  predicate TurnFrom(c: Setup, b: Broker, e: Event, t: Turn) {
    && (|| (b.turn.Some? && b.turn.value.rid == t.rid && b.turn.value.work == t.work)
        || (t.work.Dispatch? && e == DispatchRequest(t.rid, true) && t.phase.Started?)
        || (t.work.Resume? && t.phase.Started? && AskedNow(c, b, e, t.rid, t.work.root, t.work.number)))
    && (t.phase.DirMade? || t.phase.Reserved? || t.phase.Launched? ==>
          (b.turn.Some? && Running(b.turn.value.phase)) ||
          (e.MakeWorkdir? && c.width > 0 && b.spec.spawned < c.total && t.work.Dispatch?))
    && (t.phase.Ending? ==>
          || (b.turn.Some? && b.turn.value.phase == t.phase)
          || EndsNow(b, e, t.rid, t.phase.status)
          || (t.phase.status == Refused && RefusedNow(c, b, e, t.rid)))
  }

  predicate Running(p: Phase) {
    p.DirMade? || p.Reserved? || p.Launched?
  }

  predicate StartsResume(b: Broker, b': Broker) {
    && b.turn.None? && b'.turn.Some? && b'.turn.value.work.Resume? && b'.turn.value.phase.Started?
    && b'.resumed == b.resumed + [(b'.turn.value.work.root, b'.turn.value.work.number)]
  }

  lemma WriteFrom(c: Setup, b: Broker, rid: Rid, status: Status)
    ensures var b' := WriteResult(c, b, rid, status);
            && (forall r | r in b'.results :: (r in b.results && b'.results[r] == b.results[r]) ||
                                               (r == rid && b'.results[r] == status))
            && (b'.turn == b.turn || b'.turn.None?) && b'.launches == b.launches && b'.resumed == b.resumed
  {}

  /** Where the results, the turn, the launches and the resumes of the next state come from. */
  predicate StepSources(c: Setup, b: Broker, e: Event, b': Broker) {
    && (forall r | r in b'.results :: ResultFrom(c, b, e, r, b'.results[r]))
    && (b'.turn.Some? ==> b'.turn == b.turn || TurnFrom(c, b, e, b'.turn.value))
    && (b'.launches != b.launches ==>
          && b.turn.Some? && b.turn.value.work.Dispatch? && Running(b.turn.value.phase)
          && b'.launches == b.launches + [b.turn.value.rid])
    && (b'.resumed != b.resumed ==> StartsResume(b, b'))
  }

  lemma FileRequestFrom(c: Setup, b: Broker, e: Event)
    requires IsRequest(e) && !c.mcp
    ensures StepSources(c, b, e, FileRequest(c, b, e))
  {
    WriteFrom(c, b.(seen := b.seen + {e.rid}), e.rid, Refused);
    WriteFrom(c, b.(seen := b.seen + {e.rid}), e.rid, Answered);
    hide WriteResult, ResumeId, Plan, Known, RootOf, Turns;
  }

  lemma McpRequestFrom(c: Setup, b: Broker, e: Event)
    requires IsRequest(e) && c.mcp
    ensures StepSources(c, b, e, McpRequest(c, b, e))
  {
    WriteFrom(c, b.(issuedFiles := b.issuedFiles + {e.rid}, issued := b.issued + {e.rid}), e.rid, Refused);
    hide WriteResult, ResumeId, Plan, Known, RootOf, Turns;
  }

  lemma TurnStepFrom(c: Setup, b: Broker, e: Event)
    requires b.turn.Some? && !IsRequest(e) && !e.IssueCut? && !e.Save? && !e.Restart?
    ensures StepSources(c, b, e, Step(c, b, e))
  {
    var t := b.turn.value;
    if t.phase.Ending? { WriteFrom(c, b, t.rid, t.phase.status); }
    hide WriteResult, ResumeId, Plan;
  }

  // ---- Runs

  ghost predicate Requested(c: Setup, events: seq<Event>, rid: Rid) {
    exists i :: 0 <= i < |events| && events[i] == DispatchRequest(rid, true)
  }

  ghost predicate Asked(c: Setup, events: seq<Event>, rid: Rid, root: Rid, n: nat) {
    exists i :: 0 <= i < |events| && AskedNow(c, Run(c, events[..i]), events[i], rid, root, n)
  }

  ghost predicate Ended(c: Setup, events: seq<Event>, rid: Rid, status: Status) {
    exists i :: 0 <= i < |events| && EndsNow(Run(c, events[..i]), events[i], rid, status)
  }

  ghost predicate WasRefused(c: Setup, events: seq<Event>, rid: Rid) {
    exists i :: 0 <= i < |events| && RefusedNow(c, Run(c, events[..i]), events[i], rid)
  }

  ghost predicate WasAnswered(c: Setup, events: seq<Event>, rid: Rid) {
    exists i :: 0 <= i < |events| && AnsweredNow(c, Run(c, events[..i]), events[i], rid)
  }

  /** The status was earned by some event of the run. */
  ghost predicate Earned(c: Setup, events: seq<Event>, rid: Rid, status: Status) {
    || Ended(c, events, rid, status) || (status == Answered && WasAnswered(c, events, rid))
    || (status == Refused && WasRefused(c, events, rid))
  }

  ghost predicate TurnSourced(c: Setup, events: seq<Event>, t: Turn) {
    && (t.work.Dispatch? ==> Requested(c, events, t.rid))
    && (t.work.Resume? ==> Asked(c, events, t.rid, t.work.root, t.work.number) && !Running(t.phase))
    && (Running(t.phase) ==> c.width > 0 && c.total > 0)
    && (t.phase.Ending? ==> Earned(c, events, t.rid, t.phase.status))
  }

  ghost predicate AllSourced(c: Setup, events: seq<Event>) {
    var b := Run(c, events);
    && (forall rid | rid in b.results :: Earned(c, events, rid, b.results[rid]))
    && (b.turn.Some? ==> TurnSourced(c, events, b.turn.value))
    && (forall rid | rid in b.launches :: Requested(c, events, rid) && c.width > 0 && c.total > 0)
    && (forall root, n | (root, n) in b.resumed :: Asked(c, events, ResumeId(root, n), root, n))
  }

  /** What happened once has happened. */
  lemma StillSourced(c: Setup, events: seq<Event>, e: Event, rid: Rid)
    ensures Requested(c, events, rid) ==> Requested(c, events + [e], rid)
    ensures forall root, n | Asked(c, events, rid, root, n) :: Asked(c, events + [e], rid, root, n)
    ensures forall status | Earned(c, events, rid, status) :: Earned(c, events + [e], rid, status)
  {
    var more := events + [e];
    forall i | 0 <= i < |events| ensures more[..i] == events[..i] && more[i] == events[i] {}
    hide Run, AskedNow, EndsNow, RefusedNow, AnsweredNow;
    forall root, n | Asked(c, events, rid, root, n) ensures Asked(c, more, rid, root, n) {
      var i :| 0 <= i < |events| && AskedNow(c, Run(c, events[..i]), events[i], rid, root, n);
      assert AskedNow(c, Run(c, more[..i]), more[i], rid, root, n);
    }
    forall status | Earned(c, events, rid, status) ensures Earned(c, more, rid, status) {
      if Ended(c, events, rid, status) {
        var i :| 0 <= i < |events| && EndsNow(Run(c, events[..i]), events[i], rid, status);
        assert EndsNow(Run(c, more[..i]), more[i], rid, status);
      } else if status == Answered {
        var i :| 0 <= i < |events| && AnsweredNow(c, Run(c, events[..i]), events[i], rid);
        assert AnsweredNow(c, Run(c, more[..i]), more[i], rid);
      } else {
        var i :| 0 <= i < |events| && RefusedNow(c, Run(c, events[..i]), events[i], rid);
        assert RefusedNow(c, Run(c, more[..i]), more[i], rid);
      }
    }
    if Requested(c, events, rid) {
      var i :| 0 <= i < |events| && events[i] == DispatchRequest(rid, true);
      assert more[i] == DispatchRequest(rid, true);
    }
  }

  /** The last event counts too. */
  lemma NowSourced(c: Setup, events: seq<Event>, e: Event, rid: Rid)
    ensures var b := Run(c, events);
            && (e == DispatchRequest(rid, true) ==> Requested(c, events + [e], rid))
            && (forall root, n | AskedNow(c, b, e, rid, root, n) :: Asked(c, events + [e], rid, root, n))
            && (forall status | EndsNow(b, e, rid, status) :: Earned(c, events + [e], rid, status))
            && (RefusedNow(c, b, e, rid) ==> Earned(c, events + [e], rid, Refused))
            && (AnsweredNow(c, b, e, rid) ==> Earned(c, events + [e], rid, Answered))
  {
    var more, n := events + [e], |events|;
    assert more[..n] == events && more[n] == e;
    hide Run, AskedNow, EndsNow, RefusedNow, AnsweredNow;
    forall root, k | AskedNow(c, Run(c, events), e, rid, root, k) ensures Asked(c, more, rid, root, k) {
      assert AskedNow(c, Run(c, more[..n]), more[n], rid, root, k);
    }
    forall status | EndsNow(Run(c, events), e, rid, status) ensures Earned(c, more, rid, status) {
      assert EndsNow(Run(c, more[..n]), more[n], rid, status);
    }
    if RefusedNow(c, Run(c, events), e, rid) { assert RefusedNow(c, Run(c, more[..n]), more[n], rid); }
    if AnsweredNow(c, Run(c, events), e, rid) { assert AnsweredNow(c, Run(c, more[..n]), more[n], rid); }
  }

  lemma StepFrom(c: Setup, b: Broker, e: Event)
    ensures StepSources(c, b, e, Step(c, b, e))
  {
    if IsRequest(e) {
      if c.mcp { McpRequestFrom(c, b, e); } else { FileRequestFrom(c, b, e); }
    } else if b.turn.Some? && !e.IssueCut? && !e.Save? && !e.Restart? {
      TurnStepFrom(c, b, e);
    }
    hide FileRequest, McpRequest, TurnStep, Plan;
  }

  lemma TurnStaysSourced(c: Setup, events: seq<Event>, e: Event, t: Turn)
    requires AllSourced(c, events) && (Run(c, events).turn == Some(t) || TurnFrom(c, Run(c, events), e, t))
    ensures TurnSourced(c, events + [e], t)
  {
    StillSourced(c, events, e, t.rid);
    NowSourced(c, events, e, t.rid);
    hide Run, Requested, Asked, Earned, AskedNow, EndsNow, RefusedNow, AnsweredNow;
  }

  lemma StepKeepsSources(c: Setup, events: seq<Event>, e: Event)
    requires AllSourced(c, events)
    ensures AllSourced(c, events + [e])
  {
    var b, more := Run(c, events), events + [e];
    assert more[..|events|] == events;
    var b' := Step(c, b, e);
    assert Run(c, more) == b';
    StepFrom(c, b, e);
    hide Run, Step, TurnFrom, Requested, Asked, Earned;
    if b'.turn.Some? {
      TurnStaysSourced(c, events, e, b'.turn.value);
    }
    forall rid | rid in b'.results ensures Earned(c, more, rid, b'.results[rid]) {
      StillSourced(c, events, e, rid);
      NowSourced(c, events, e, rid);
      assert ResultFrom(c, b, e, rid, b'.results[rid]);
    }
    forall rid | rid in b'.launches ensures Requested(c, more, rid) && c.width > 0 && c.total > 0 {
      StillSourced(c, events, e, rid);
    }
    forall root, n | (root, n) in b'.resumed ensures Asked(c, more, ResumeId(root, n), root, n) {
      StillSourced(c, events, e, ResumeId(root, n));
      if (root, n) !in b.resumed {
        assert b'.turn.value.work == Resume(root, n);
        AskedUnderItsId(c, more, b'.turn.value.rid, root, n);
      }
    }
  }

  lemma AskedUnderItsId(c: Setup, events: seq<Event>, rid: Rid, root: Rid, n: nat)
    requires Asked(c, events, rid, root, n)
    ensures rid == ResumeId(root, n)
  {
    hide Run, Plan, ResumeId;
  }

  lemma {:induction false} EveryRunSourced(c: Setup, events: seq<Event>)
    ensures AllSourced(c, events)
    decreases |events|
  {
    if events != [] {
      var front := events[..|events| - 1];
      EveryRunSourced(c, front);
      StepKeepsSources(c, front, events[|events| - 1]);
      assert events == front + [events[|events| - 1]];
    }
  }

  // ---- What it means

  /** A Worker is launched only for a valid request, and only where there is a fan-out. */
  lemma LaunchWasRequested(c: Setup, events: seq<Event>, rid: Rid)
    requires rid in Run(c, events).launches
    ensures c.width > 0 && c.total > 0
    ensures exists i :: 0 <= i < |events| && events[i] == DispatchRequest(rid, true)
  {
    EveryRunSourced(c, events);
    hide Run;
  }

  /** Every resume was asked for while no turn ran, passed the screens with its
      session known, and was planned as that turn of that Worker. */
  lemma ResumeWasAsked(c: Setup, events: seq<Event>, root: Rid, n: nat) returns (i: nat)
    requires (root, n) in Run(c, events).resumed
    ensures i < |events| && events[i].ResumeRequest? && events[i].screened && events[i].session
    ensures Run(c, events[..i]).turn.None?
    ensures Plan(c, Run(c, events[..i]), events[i].of, true, true) == Some((root, n))
  {
    EveryRunSourced(c, events);
    hide Run, Plan, ResumeId;
    i :| 0 <= i < |events| && AskedNow(c, Run(c, events[..i]), events[i], ResumeId(root, n), root, n);
  }

  /** A result says green, red or unverified only if the Worker of that very turn ended
      so; it says answered only for an answer to a request that was issued, and that the
      exchange took; and it says refused, if not as the Worker ended, for one of the refusals. */
  lemma ResultWasEarned(c: Setup, events: seq<Event>, rid: Rid)
    requires rid in Run(c, events).results
    ensures var status := Run(c, events).results[rid];
            || Ended(c, events, rid, status)
            || (status == Answered && !c.mcp && WasAnswered(c, events, rid))
            || (status == Refused && WasRefused(c, events, rid))
  {
    EveryRunSourced(c, events);
    hide Run;
  }

  /** An answer request is settled at once: answered if what it answers was issued and
      the exchange took it, and refused if not, unless its id was used. */
  lemma AnswerIsSettled(c: Setup, b: Broker, rid: Rid, of: Rid, taken: bool)
    requires !c.mcp && rid !in b.seen && rid !in b.results && rid !in b.reports
    ensures var b' := Step(c, b, AnswerRequest(rid, of, taken));
            && b'.results == b.results[rid := if of in b.issued && taken then Answered else Refused]
            && b'.turn == b.turn && b'.spec == b.spec && b'.issued == b.issued
  {}

  /** A turn's end leaves its report and its result and, when both were new, the run's
      counters on disk; a broker that dies in it leaves the report and, if it came so far, the result. */
  lemma TurnEndLeaves(c: Setup, b: Broker, status: Status, resultWritten: bool)
    requires b.turn.Some? && b.turn.value.phase == Ending(status)
    requires b.turn.value.rid !in b.reports && b.turn.value.rid !in b.results
    ensures var rid, b' := b.turn.value.rid, Step(c, b, EndTurn);
            && b'.reports == b.reports + {rid} && b'.results == b.results[rid := status]
            && b'.run == b.spec == b'.spec && b'.turn.None?
    ensures var rid, b' := b.turn.value.rid, Step(c, b, EndTurnCut(resultWritten));
            && b'.reports == b.reports + {rid}
            && b'.results == (if resultWritten then b.results[rid := status] else b.results)
            && b'.run == b.run == b'.spec && b'.turn.None?
  {}

  /** A file that cannot be read is refused at once, and an invalid dispatch as soon as no turn runs. */
  lemma BadRequestIsRefused(c: Setup, b: Broker, rid: Rid)
    requires !c.mcp && rid !in b.seen && rid !in b.results && rid !in b.reports
    ensures var b' := Step(c, b, Unreadable(rid));
            b'.results == b.results[rid := Refused] && b'.turn == b.turn && b'.spec == b.spec && b'.issued == b.issued
    ensures var b' := Step(c, b, DispatchRequest(rid, false));
            if b.turn.Some? then b' == b
            else b'.results == b.results[rid := Refused] && b'.turn.None? && b'.spec == b.spec && b'.issued == b.issued
  {}

  /** A turn whose report or result is there already replaces neither, saves nothing, and is over. */
  lemma TurnEndsOnce(c: Setup, b: Broker)
    requires b.turn.Some? && b.turn.value.phase.Ending?
    requires b.turn.value.rid in b.reports || b.turn.value.rid in b.results
    ensures var b' := Step(c, b, EndTurn);
            b'.reports == b.reports && b'.results == b.results && b'.run == b.run && b'.turn.None?
  {}

  /** A broker that dies between issuing a resume's id and saving run.json leaves just the
      id, and only one that was idle, over MCP, and had planned a resume under a new id. */
  lemma IssueCutLeaves(c: Setup, b: Broker, of: Rid, screened: bool, session: bool)
    ensures var plan, b' := Plan(c, b, of, screened, session), Step(c, b, IssueCut(of, screened, session));
            if c.mcp && b.turn.None? && plan.Some? && ResumeId(plan.value.0, plan.value.1) !in b.issuedFiles
            then b' == Restarted(b).(issuedFiles := b.issuedFiles + {ResumeId(plan.value.0, plan.value.1)})
            else b' == b
  {
    hide Plan, ResumeId;
  }
}
