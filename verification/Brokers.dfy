/** The dispatch broker's code: the two transports' request handlers, the steps of
    a Worker turn and the serve loop, each tied to the state machine. */
module Brokers {
  import opened Options
  import opened BrokerSpec
  import opened BrokerProofs

  datatype Handled = Done | Busy | TurnToStart(turn: Turn) | Clash

  /** What one pass of the serve loop meets: the steps the turn thread made
      meanwhile, the request files listed, and the two reasons to stop. */
  datatype Poll = Poll(progress: seq<Event>, listing: seq<Event>, leadDone: bool, idle: bool)

  datatype Stop = LeadDone | IdleTimeout | Fatal | StillServing

  predicate IsTurnStep(e: Event) {
    e.MakeWorkdir? || e.ReserveSlot? || e.Launch? || e.WorkerEnds? || e.EndTurn?
  }

  predicate WellFormed(poll: Poll) {
    && (forall e | e in poll.progress :: IsTurnStep(e))
    && (forall e | e in poll.listing :: IsRequest(e))
  }

  class BrokerProcess {
    const setup: Setup
    var run: Spec
    var reports: set<Rid>
    var results: map<Rid, Status>
    var workdirs: set<Rid>
    var issuedFiles: set<Rid>
    var resumes: map<Rid, nat>
    var spec: Spec
    var seen: set<Rid>
    var issued: set<Rid>
    var turn: Option<Turn>
    ghost var launches: seq<Rid>
    ghost var resumed: seq<(Rid, nat)>

    ghost function View(): Broker
      reads this
    {
      Broker(run, reports, results, workdirs, issuedFiles, resumes, spec, seen, issued, turn, launches, resumed)
    }

    /** A result is only written after its report. */
    ghost predicate Valid()
      reads this
    {
      results.Keys <= reports
    }

    constructor (setup: Setup)
      ensures this.setup == setup && Valid() && View() == INIT
    {
      this.setup := setup;
      run, spec := Spec(0, map[]), Spec(0, map[]);
      reports, results, workdirs, issuedFiles, resumes := {}, map[], {}, {}, map[];
      seen, issued, turn := {}, {}, None;
      launches, resumed := [], [];
    }

    // ---- Files

    /** Both files are created exclusively: a name already taken writes nothing. */
    method WriteRequestResult(rid: Rid, status: Status) returns (ok: bool)
      requires Valid()
      modifies this`reports, this`results
      ensures Valid()
      ensures ok == (rid !in old(reports) && rid !in old(results))
      ensures !ok ==> View() == old(View())
      ensures ok ==> View() == WriteResult(setup, old(View()), rid, status)
    {
      if rid in reports {
        return false;
      }
      reports := reports + {rid};
      results := results[rid := status];
      ok := true;
    }

    method Save()
      modifies this`run
      ensures View() == Step(setup, old(View()), Event.Save)
    {
      run := spec;
    }

    method PlanResume(of: Rid, screened: bool, session: bool) returns (plan: Option<(Rid, nat)>)
      ensures plan == Plan(setup, View(), of, screened, session)
      ensures plan.Some? ==> plan.value.1 == 1 || (plan.value.1 == 2 && plan.value.0 !in setup.grunts)
    {
      if !screened || !(of in issued || (setup.mcp && of in issuedFiles)) || of !in results {
        return None;
      }
      var status := results[of];
      if status != Green && status != Red && status != Unverified {
        return None;
      }
      var root := of;
      if of in spec.resumeOf {
        root := spec.resumeOf[of];
      }
      var number := 1;
      if root in resumes {
        number := resumes[root] + 1;
      }
      if !session || number > ResumeCap(setup, root) {
        return None;
      }
      plan := Some((root, number));
    }

    // ---- The file inbox

    /** One inbox file.  A turn is handed back for the loop to start; nothing is written twice. */
    method HandleOne(e: Event, busy: bool) returns (got: Handled)
      requires Valid() && !setup.mcp && IsRequest(e) && busy == turn.Some?
      modifies this
      ensures Valid()
      ensures got.Done? ==> View() == Step(setup, old(View()), e)
      ensures got.Busy? ==> !e.AnswerRequest? && !e.Unreadable?
      ensures got.Busy? ==> old(turn).Some? && View() == old(View()) == Step(setup, old(View()), e)
      ensures got.Clash? ==> Restarted(View()) == Step(setup, old(View()), e)
      ensures got.TurnToStart? ==>
                turn.None? && Start(View(), got.turn.rid, got.turn.work) == Step(setup, old(View()), e)
      ensures got.TurnToStart? ==> got.turn.rid !in old(seen) && got.turn.rid !in results && got.turn.phase.Started?
    {
      hide Plan, ResumeId;
      var rid := e.rid;
      if rid in seen || rid in results {
        return Done;
      }
      if e.AnswerRequest? {
        seen := seen + {rid};
        var ok := WriteRequestResult(rid, if e.of in issued && e.taken then Answered else Refused);
        return if ok then Done else Clash;
      }
      if e.Unreadable? {
        seen := seen + {rid};
        var ok := WriteRequestResult(rid, Refused);
        return if ok then Done else Clash;
      }
      if busy {
        return Busy;
      }
      if e.ResumeRequest? {
        got := HandleResume(e);
        return;
      }
      seen := seen + {rid};
      if e.valid {
        issued := issued + {rid};
        return TurnToStart(Turn(rid, Dispatch, Started));
      }
      var ok := WriteRequestResult(rid, Refused);
      got := if ok then Done else Clash;
    }

    /** A resume file met while no turn runs: it must bear the id its plan makes. */
    method HandleResume(e: Event) returns (got: Handled)
      requires Valid() && !setup.mcp && e.ResumeRequest? && turn.None? && e.rid !in seen && e.rid !in results
      modifies this
      ensures Valid() && !got.Busy?
      ensures got.Done? ==> View() == Step(setup, old(View()), e)
      ensures got.Clash? ==> Restarted(View()) == Step(setup, old(View()), e)
      ensures got.TurnToStart? ==>
                turn.None? && Start(View(), got.turn.rid, got.turn.work) == Step(setup, old(View()), e)
      ensures got.TurnToStart? ==> got.turn.rid == e.rid && e.rid !in results && got.turn.phase.Started?
    {
      hide Plan, ResumeId;
      var plan := PlanResume(e.of, e.screened, e.session);
      seen := seen + {e.rid};
      if plan.Some? && ResumeId(plan.value.0, plan.value.1) == e.rid {
        issued := issued + {e.rid};
        spec := spec.(resumeOf := spec.resumeOf[e.rid := plan.value.0]);
        return TurnToStart(Turn(e.rid, Resume(plan.value.0, plan.value.1), Started));
      }
      var ok := WriteRequestResult(e.rid, Refused);
      got := if ok then Done else Clash;
    }

    method BeginTurn(next: Turn)
      requires turn.None? && next.phase.Started?
      modifies this`turn, this`resumed
      ensures View() == Start(old(View()), next.rid, next.work)
    {
      turn := Some(next);
      if next.work.Resume? {
        resumed := resumed + [(next.work.root, next.work.number)];
      }
    }

    // ---- The MCP tools

    /** Record an id as issued, in a file created exclusively. */
    method Issue(rid: Rid) returns (ok: bool)
      modifies this`issuedFiles, this`issued
      ensures ok == (rid !in old(issuedFiles))
      ensures View() == if ok then old(View()).(issuedFiles := old(issuedFiles) + {rid}, issued := old(issued) + {rid})
                        else old(View())
    {
      if rid in issuedFiles {
        return false;
      }
      issuedFiles := issuedFiles + {rid};
      issued := issued + {rid};
      ok := true;
    }

    method ToolDispatch(rid: Rid, valid: bool)
      requires Valid() && setup.mcp
      modifies this
      ensures Valid() && View() == Step(setup, old(View()), DispatchRequest(rid, valid))
      ensures issued == old(issued) + if rid in old(issuedFiles) then {} else {rid}
    {
      var ok := Issue(rid);
      if !ok {
        return;
      }
      if !valid || turn.Some? {
        var _ := WriteRequestResult(rid, Refused);
      } else {
        BeginTurn(Turn(rid, Dispatch, Started));
      }
    }

    /** The id is issued first, then run.json saved, then the turn started; `dies`
        cuts the broker off after the first of these. */
    method ToolResume(rid: Rid, of: Rid, screened: bool, session: bool, dies: bool)
      requires Valid() && setup.mcp
      modifies this
      ensures Valid()
      ensures !dies ==> View() == Step(setup, old(View()), ResumeRequest(rid, of, screened, session))
      ensures !dies && turn != old(turn) ==>
                && turn.Some? && turn.value.work.Resume? && turn.value.rid !in old(issuedFiles)
                && issued == old(issued) + {turn.value.rid}
                && spec.resumeOf == run.resumeOf == old(spec).resumeOf[turn.value.rid := turn.value.work.root]
      ensures dies ==> Restarted(View()) == Restarted(Step(setup, old(View()), IssueCut(of, screened, session)))
    {
      hide ResumeId, Plan, TurnStep, FileRequest, WriteResult;
      if turn.Some? {
        return;
      }
      var plan := PlanResume(of, screened, session);
      if plan.None? {
        return;
      }
      var (root, number) := plan.value;
      var ok := Issue(ResumeId(root, number));
      if !ok || dies {
        return;
      }
      spec := spec.(resumeOf := spec.resumeOf[ResumeId(root, number) := root]);
      Save();
      BeginTurn(Turn(ResumeId(root, number), Resume(root, number), Started));
    }

    // ---- The turn thread

    /** One step of the running turn; false when its result could not be written. */
    method Advance(e: Event) returns (ok: bool)
      requires Valid() && turn.Some? && IsTurnStep(e)
      modifies this
      ensures Valid()
      ensures ok ==> View() == Step(setup, old(View()), e)
      ensures !ok && !setup.mcp ==> Restarted(View()) == Step(setup, old(View()), e)
      ensures !ok && setup.mcp ==> View() == Step(setup, old(View()), e)
    {
      ok := true;
      if e.EndTurn? {
        ok := EndTurn();
      } else if turn.value.work.Dispatch? {
        AdvanceDispatch(e);
      } else if e.WorkerEnds? && turn.value.phase.Started? {
        if e.recorded {
          var root := turn.value.work.root;
          resumes := resumes[root := (if root in resumes then resumes[root] else 0) + 1];
        }
        turn := Some(turn.value.(phase := Ending(e.status)));
      }
    }

    /** A step of a Worker's first turn: its directory, its slot, its launch, its end. */
    method AdvanceDispatch(e: Event)
      requires Valid() && turn.Some? && turn.value.work.Dispatch? && IsTurnStep(e) && !e.EndTurn?
      modifies this
      ensures Valid() && View() == Step(setup, old(View()), e)
      ensures old(turn).value.phase.Reserved? && e.WorkerEnds? && old(spec).spawned > 0 ==>
                spec.spawned == old(spec).spawned - 1
    {
      hide WriteResult, FileRequest, McpRequest, IssuedOnly;
      var t := turn.value;
      match (e, t.phase) {
        case (MakeWorkdir, Started) =>
          if setup.total == 0 || setup.width == 0 || spec.spawned >= setup.total || t.rid in workdirs {
            turn := Some(t.(phase := Ending(Refused)));
          } else {
            workdirs := workdirs + {t.rid};
            turn := Some(t.(phase := DirMade));
          }
        case (ReserveSlot, DirMade) =>
          spec := spec.(spawned := spec.spawned + 1);
          Save();
          turn := Some(t.(phase := Reserved));
        case (Launch, Reserved) =>
          launches := launches + [t.rid];
          turn := Some(t.(phase := Launched));
        case (WorkerEnds(status, _), Reserved) =>
          if spec.spawned > 0 {
            spec := spec.(spawned := spec.spawned - 1);
          }
          turn := Some(t.(phase := Ending(status)));
        case (WorkerEnds(status, _), Launched) =>
          turn := Some(t.(phase := Ending(status)));
        case _ =>
      }
    }

    /** The turn's report and result, then run.json. */
    method EndTurn() returns (ok: bool)
      requires Valid() && turn.Some?
      modifies this
      ensures Valid()
      ensures ok || setup.mcp ==> View() == Step(setup, old(View()), Event.EndTurn)
      ensures !ok && !setup.mcp ==> Restarted(View()) == Step(setup, old(View()), Event.EndTurn)
      ensures old(turn).value.phase.Ending? ==> turn.None? && run == if ok then spec else old(run)
    {
      hide FileRequest, McpRequest, IssuedOnly;
      ok := true;
      if turn.value.phase.Ending? {
        ok := WriteRequestResult(turn.value.rid, turn.value.phase.status);
        if ok {
          Save();
        }
        turn := None;
      }
    }

    // ---- The serve loop

    /** The turn thread's steps between two polls. */
    method FollowTurn(progress: seq<Event>) returns (ok: bool, ghost trace: seq<Event>)
      requires Valid() && !setup.mcp && forall e | e in progress :: IsTurnStep(e)
      modifies this
      ensures Valid()
      ensures (if ok then View() else Restarted(View())) == Steps(setup, old(View()), trace)
    {
      hide Step;
      trace := [];
      for i := 0 to |progress|
        invariant Valid() && View() == Steps(setup, old(View()), trace)
      {
        if turn.Some? {
          ghost var before := View();
          ok := Advance(progress[i]);
          StepsAppend(setup, old(View()), trace, progress[i]);
          trace := trace + [progress[i]];
          if !ok {
            return;
          }
        }
      }
      ok := true;
    }

    /** Handle every listed file once.  With no turn running, a listing that made
        no progress was empty. */
    method HandleListing(listing: seq<Event>) returns (ok: bool, progressed: bool, ghost trace: seq<Event>)
      requires Valid() && !setup.mcp && forall e | e in listing :: IsRequest(e)
      modifies this
      ensures Valid()
      ensures (if ok then View() else Restarted(View())) == Steps(setup, old(View()), trace)
      ensures ok && !progressed && turn.None? ==> listing == []
      ensures ok && !progressed ==> View() == old(View())
    {
      hide Step;
      trace, progressed := [], false;
      for i := 0 to |listing|
        invariant Valid() && View() == Steps(setup, old(View()), trace)
        invariant !progressed ==> View() == old(View()) && (turn.None? ==> i == 0)
      {
        var got := HandleOne(listing[i], turn.Some?);
        StepsAppend(setup, old(View()), trace, listing[i]);
        trace := trace + [listing[i]];
        if got.Clash? {
          return false, progressed, trace;
        }
        if !got.Busy? {
          progressed := true;
          if got.TurnToStart? {
            BeginTurn(got.turn);
          }
          Save();
          StepsAppend(setup, old(View()), trace, Event.Save);
          trace := trace + [Event.Save];
        }
      }
      ok := true;
    }

    /** The file broker over any schedule of polls.  Its whole life is a run of the
        state machine, and it stops by itself only with no turn and an empty last listing. */
    method ServeLocked(polls: seq<Poll>) returns (stop: Stop, last: nat, ghost trace: seq<Event>)
      requires Valid() && !setup.mcp && turn.None? && forall poll | poll in polls :: WellFormed(poll)
      modifies this
      ensures Valid()
      ensures (if stop.Fatal? then Restarted(View()) else View()) == Steps(setup, old(View()), trace)
      ensures stop.LeadDone? || stop.IdleTimeout? ==> last < |polls| && turn.None? && polls[last].listing == []
      ensures stop.LeadDone? ==> polls[last].leadDone
      ensures stop.IdleTimeout? ==> polls[last].idle && !polls[last].leadDone
      ensures stop.StillServing? ==> last == |polls|
    {
      hide Step;
      Save();
      trace := [Event.Save];
      StepsAppend(setup, old(View()), [], Event.Save);
      assert [] + [Event.Save] == [Event.Save];
      last := 0;
      while last < |polls|
        invariant last <= |polls| && Valid() && View() == Steps(setup, old(View()), trace)
      {
        var poll := polls[last];
        assert WellFormed(poll);
        var ok, followed := FollowTurn(poll.progress);
        StepsOn(setup, old(View()), trace, followed);
        trace := trace + followed;
        if !ok {
          return Fatal, last, trace;
        }
        var handled, progressed, events := HandleListing(poll.listing);
        StepsOn(setup, old(View()), trace, events);
        trace := trace + events;
        if !handled {
          return Fatal, last, trace;
        }
        if !progressed && turn.None? {
          if poll.leadDone {
            return LeadDone, last, trace;
          }
          if poll.idle {
            return IdleTimeout, last, trace;
          }
        }
        last := last + 1;
      }
      stop := StillServing;
    }

    /** The broker dies and is started again: only what is on disk is left. */
    method Restart()
      requires Valid()
      modifies this`spec, this`seen, this`issued, this`turn
      ensures Valid() && View() == Restarted(old(View())) == Step(setup, old(View()), Event.Restart)
    {
      spec, seen, issued, turn := run, {}, {}, None;
    }

    /** Any number of broker lives over one run directory, each ended by a stop,
        a fatal error or a kill: the bounds of the run hold at the end. */
    method ServeLives(lives: seq<seq<Poll>>) returns (ghost trace: seq<Event>)
      requires Valid() && !setup.mcp && View() == INIT
      requires forall life, poll | life in lives && poll in life :: WellFormed(poll)
      modifies this
      ensures Valid() && View() == Run(setup, trace)
      ensures NoRepeats(launches) && |launches| <= run.spawned <= setup.total
      ensures NoRepeats(resumed)
      ensures forall root, n | (root, n) in resumed :: n == 1 || (n == 2 && root !in setup.grunts)
    {
      hide Step;
      trace := [];
      for i := 0 to |lives|
        invariant Valid() && View() == Steps(setup, INIT, trace) && turn.None?
      {
        assert forall poll | poll in lives[i] :: WellFormed(poll);
        var stop, _, served := ServeLocked(lives[i]);
        StepsOn(setup, INIT, trace, served);
        trace := trace + served;
        Restart();
        if !stop.Fatal? {
          StepsAppend(setup, INIT, trace, Event.Restart);
          trace := trace + [Event.Restart];
        }
      }
      RunOn(setup, [], trace);
      assert [] + trace == trace;
      FanOutBound(setup, trace);
      ResumeBounds(setup, trace);
    }
  }
}
