/** What every run of the broker keeps, restarts and repeated requests included. */
module BrokerProofs {
  import opened Options
  import opened BrokerSpec

  // ---- Fan-out

  predicate NoRepeats<T(==)>(s: seq<T>) {
    forall i, j | 0 <= i < j < |s| :: s[i] != s[j]
  }

  predicate Holds(b: Broker, phase: Phase) {
    b.turn.Some? && b.turn.value.phase == phase
  }

  /** A reservation is in run.json before its Worker is launched, and a
      Worker's directory is made before it. */
  predicate FanOutKept(c: Setup, b: Broker) {
    var held := |b.launches| + if Holds(b, Reserved) then 1 else 0;
    && held <= b.spec.spawned <= c.total
    && held <= b.run.spawned <= c.total
    && (Holds(b, DirMade) ==> b.spec.spawned < c.total)
    && (Holds(b, DirMade) || Holds(b, Reserved) ==> b.turn.value.rid in b.workdirs && b.turn.value.rid !in b.launches)
    && (forall rid | rid in b.launches :: rid in b.workdirs)
    && NoRepeats(b.launches)
  }

  lemma StepKeepsFanOut(c: Setup, b: Broker, e: Event)
    requires FanOutKept(c, b)
    ensures FanOutKept(c, Step(c, b, e))
  {
    match e {
      case Save =>
      case Restart =>
      case DispatchRequest(_, _) => RequestKeepsFanOut(c, b, e);
      case ResumeRequest(_, _, _, _) => RequestKeepsFanOut(c, b, e);
      case AnswerRequest(_, _, _) => RequestKeepsFanOut(c, b, e);
      case Unreadable(_) => RequestKeepsFanOut(c, b, e);
      case IssueCut(_, _, _) => hide NoRepeats, Plan, ResumeId;
      case Launch =>
        if Holds(b, Reserved) {
          LaunchIsFresh(b.launches, b.turn.value.rid);
        }
        hide NoRepeats;
      case _ =>
        hide NoRepeats;
    }
  }

  lemma LaunchIsFresh(launches: seq<Rid>, rid: Rid)
    requires NoRepeats(launches) && rid !in launches
    ensures NoRepeats(launches + [rid])
  {}

  /** A request reserves nothing and launches nothing. */
  lemma RequestKeepsFanOut(c: Setup, b: Broker, e: Event)
    requires FanOutKept(c, b) && IsRequest(e)
    ensures FanOutKept(c, Step(c, b, e))
  {
    hide NoRepeats, Plan;
  }

  /** Over every run the launches are distinct, and never more than run.json
      says, which is never more than the declared total; the counter in memory obeys the same bounds. */
  lemma {:induction false} FanOutBound(c: Setup, events: seq<Event>)
    ensures FanOutKept(c, Run(c, events))
    ensures |Run(c, events).launches| <= Run(c, events).run.spawned <= c.total
    decreases |events|
  {
    if events != [] {
      FanOutBound(c, events[..|events| - 1]);
      StepKeepsFanOut(c, Run(c, events[..|events| - 1]), events[|events| - 1]);
    }
  }

  /** No event here ends the broker's life. */
  predicate NoDeath(events: seq<Event>) {
    forall e | e in events :: !e.Restart? && !e.IssueCut? && !e.EndTurnCut?
  }

  /** What a broker that never died keeps: each slot taken is a launch or the running
      reservation, and between turns run.json says the same. */
  predicate Tidy(c: Setup, b: Broker) {
    && b.reports == b.results.Keys
    && (c.mcp ==> b.results.Keys <= b.issuedFiles)
    && (b.turn.Some? ==> b.turn.value.rid !in b.results && b.turn.value.rid in if c.mcp then b.issuedFiles else b.seen)
    && b.spec.spawned == |b.launches| + (if Holds(b, Reserved) then 1 else 0)
    && (b.turn.None? ==> b.run == b.spec)
  }

  lemma StepKeepsTidy(c: Setup, b: Broker, e: Event)
    requires Tidy(c, b) && !e.Restart? && !e.IssueCut? && !e.EndTurnCut?
    ensures Tidy(c, Step(c, b, e))
  {
    hide Plan, ResumeId;
  }

  /** While the broker lives no slot is lost: a Worker that never came up gives its slot
      back, and between turns run.json counts exactly the launches. */
  lemma {:induction false} SlotsAreLaunches(c: Setup, events: seq<Event>)
    requires NoDeath(events)
    ensures Tidy(c, Run(c, events))
    ensures Run(c, events).turn.None? ==> Run(c, events).run.spawned == |Run(c, events).launches|
    decreases |events|
  {
    if events != [] {
      SlotsAreLaunches(c, events[..|events| - 1]);
      StepKeepsTidy(c, Run(c, events[..|events| - 1]), events[|events| - 1]);
    }
  }

  /** A resume, from its request to its end, brings up no new count: either
      counter keeps its value or takes over the other's. */
  lemma ResumesAreFree(c: Setup, b: Broker, e: Event)
    requires e.ResumeRequest? || (b.turn.Some? && b.turn.value.work.Resume?)
    ensures Step(c, b, e).spec.spawned in {b.spec.spawned, b.run.spawned}
    ensures Step(c, b, e).run.spawned in {b.spec.spawned, b.run.spawned}
    ensures Step(c, b, e).launches == b.launches
  {}

  // ---- Results

  lemma StepKeepsResult(c: Setup, b: Broker, e: Event, rid: Rid)
    requires rid in b.results
    ensures rid in Step(c, b, e).results && Step(c, b, e).results[rid] == b.results[rid]
  {}

  /** A result, once written, is never replaced or removed. */
  lemma {:induction false} ResultsStay(c: Setup, events: seq<Event>, more: seq<Event>, rid: Rid)
    requires rid in Run(c, events).results
    ensures rid in Run(c, events + more).results && Run(c, events + more).results[rid] == Run(c, events).results[rid]
    decreases |more|
  {
    hide Step;
    if more == [] {
      assert events + more == events;
    } else {
      var n := |more| - 1;
      ResultsStay(c, events, more[..n], rid);
      assert (events + more)[..|events + more| - 1] == events + more[..n];
      StepKeepsResult(c, Run(c, events + more[..n]), more[n], rid);
    }
  }

  // ---- Resumes

  /** Ids that no new resume may take. */
  function Taken(c: Setup, b: Broker): set<Rid> {
    if c.mcp then b.issuedFiles else b.results.Keys
  }

  /** Every entry maps a resume id to the root it was planned for, and no root is itself an entry. */
  ghost predicate MapsToRoots(b: Broker, spec: Spec) {
    forall k | k in spec.resumeOf :: spec.resumeOf[k] !in spec.resumeOf && PlannedFor(b.resumed, k, spec.resumeOf[k])
  }

  /** The id was made for a resume of the root that has started. */
  ghost predicate PlannedFor(resumed: seq<(Rid, nat)>, k: Rid, root: Rid) {
    exists n :: (root, n) in resumed && k == ResumeId(root, n)
  }

  /** The turn that is about to be recorded is the next one of its Worker. */
  ghost predicate TurnFits(c: Setup, b: Broker) {
    b.turn.Some? ==>
      var t := b.turn.value;
      && (if c.mcp then t.rid in b.issuedFiles else t.rid in b.seen)
      && (t.work.Resume? ==>
            && t.rid == ResumeId(t.work.root, t.work.number)
            && (t.phase.Started? ==> Turns(b, t.work.root) + 1 == t.work.number <= ResumeCap(c, t.work.root)))
  }

  predicate Settled(b: Broker, root: Rid, n: nat) {
    ResumeId(root, n) in b.results || (b.turn.Some? && b.turn.value.rid == ResumeId(root, n))
  }

  /** A file broker knows an id only from this lifetime; every resume of its root is settled by then. */
  ghost predicate KnownAreSettled(b: Broker) {
    && b.issued <= b.seen
    && (forall rid, n | rid in b.issued && (RootOf(b.spec, rid), n) in b.resumed :: Settled(b, RootOf(b.spec, rid), n))
    && (forall root, m, n | (root, m) in b.resumed && (root, n) in b.resumed ::
          m == n || ResumeId(root, m) in b.results || ResumeId(root, n) in b.results)
  }

  ghost predicate FilesIssued(b: Broker) {
    && b.issued <= b.issuedFiles && b.results.Keys <= b.issuedFiles
    && (forall root, n | (root, n) in b.resumed :: ResumeId(root, n) in b.issuedFiles)
  }

  ghost predicate ResumesKept(c: Setup, b: Broker) {
    && MapsToRoots(b, b.spec) && MapsToRoots(b, b.run)
    && (forall root, n | (root, n) in b.resumed :: root in b.results && 1 <= n <= ResumeCap(c, root))
    && NoRepeats(b.resumed)
    && (forall root | root in b.resumes :: b.resumes[root] <= ResumeCap(c, root))
    && TurnFits(c, b)
    && (if c.mcp then FilesIssued(b) else KnownAreSettled(b))
  }

  lemma RestartKeepsResumes(c: Setup, b: Broker)
    requires ResumesKept(c, b)
    ensures ResumesKept(c, Restarted(b))
  {}

  /** Writing a result settles at most more resumes; a clash restarts the file broker. */
  lemma WriteKeepsResumes(c: Setup, b: Broker, rid: Rid, status: Status)
    requires ResumesKept(c, b) && (c.mcp ==> rid in b.issuedFiles)
    ensures ResumesKept(c, WriteResult(c, b, rid, status))
  {
    if rid in b.reports || rid in b.results {
      RestartKeepsResumes(c, b);
    }
  }

  /** Starting a dispatch under a fresh id. */
  lemma DispatchKeepsResumes(c: Setup, b: Broker, rid: Rid)
    requires ResumesKept(c, b) && b.turn.None? && rid !in b.results && (!c.mcp ==> rid !in b.issued)
    ensures c.mcp ==>
              ResumesKept(c, Start(b.(issuedFiles := b.issuedFiles + {rid}, issued := b.issued + {rid}), rid, Dispatch))
    ensures !c.mcp ==> ResumesKept(c, Start(b.(seen := b.seen + {rid}, issued := b.issued + {rid}), rid, Dispatch))
  {
    if !c.mcp {
      var root := RootOf(b.spec, rid);
      forall n | (root, n) in b.resumed
        ensures ResumeId(root, n) == rid || ResumeId(root, n) in b.results
      {
        if rid in b.spec.resumeOf {
          var m :| (root, m) in b.resumed && rid == ResumeId(root, m);
        }
      }
    }
  }

  /** The state in which the planned resume n of `root` has just started. */
  function ResumeStarted(c: Setup, b: Broker, root: Rid, n: nat): Broker {
    var rid := ResumeId(root, n);
    var spec := b.spec.(resumeOf := b.spec.resumeOf[rid := root]);
    Start(if c.mcp then b.(issuedFiles := b.issuedFiles + {rid}, issued := b.issued + {rid}, spec := spec, run := spec)
          else b.(seen := b.seen + {rid}, issued := b.issued + {rid}, spec := spec), rid, Resume(root, n))
  }

  /** The plan names a root with a result that is no resume itself, and all its earlier resumes are settled. */
  lemma PlanNamesRoot(c: Setup, b: Broker, of: Rid, screened: bool, session: bool)
    requires ResumesKept(c, b) && b.turn.None? && Plan(c, b, of, screened, session).Some?
    ensures var (root, n) := Plan(c, b, of, screened, session).value;
            && root in b.results && root !in b.spec.resumeOf
            && 1 <= n == Turns(b, root) + 1 <= ResumeCap(c, root)
            && (!c.mcp ==> forall m | (root, m) in b.resumed :: ResumeId(root, m) in b.results)
  {
    var (root, n) := Plan(c, b, of, screened, session).value;
    if of in b.spec.resumeOf { var m :| (root, m) in b.resumed && of == ResumeId(root, m); }
    if !c.mcp {
      forall m | (root, m) in b.resumed ensures ResumeId(root, m) in b.results { assert Settled(b, root, m); }
    }
  }

  lemma StartKeepsMaps(c: Setup, b: Broker, root: Rid, n: nat, spec: Spec)
    requires ResumesKept(c, b) && ResumeId(root, n) !in Taken(c, b)
    requires root in b.results && root !in b.spec.resumeOf && MapsToRoots(b, spec)
    ensures MapsToRoots(ResumeStarted(c, b, root, n), spec)
    ensures spec == b.spec ==>
              MapsToRoots(ResumeStarted(c, b, root, n), spec.(resumeOf := spec.resumeOf[ResumeId(root, n) := root]))
  {
    var now := b.resumed + [(root, n)];
    assert ResumeStarted(c, b, root, n).resumed == now;
    forall k | k in spec.resumeOf
      ensures PlannedFor(now, k, spec.resumeOf[k])
      ensures spec == b.spec ==> spec.resumeOf[k] != ResumeId(root, n)
    {
      var m :| (spec.resumeOf[k], m) in b.resumed && k == ResumeId(spec.resumeOf[k], m);
      assert (spec.resumeOf[k], m) in now;
    }
    assert PlannedFor(now, ResumeId(root, n), root) by { assert (root, n) in now; }
    hide ResumesKept, PlannedFor, ResumeId;
  }

  lemma StartKeepsSettled(c: Setup, b: Broker, root: Rid, n: nat)
    requires !c.mcp && KnownAreSettled(b) && b.turn.None? && ResumeId(root, n) !in b.results
    requires forall m | (root, m) in b.resumed :: ResumeId(root, m) in b.results
    ensures KnownAreSettled(ResumeStarted(c, b, root, n))
  {
    var b' := ResumeStarted(c, b, root, n);
    assert forall x :: x in b'.resumed <==> x in b.resumed || x == (root, n);
    forall rid, m | rid in b'.issued && (RootOf(b'.spec, rid), m) in b'.resumed
      ensures Settled(b', RootOf(b'.spec, rid), m)
    {
      if rid != ResumeId(root, n) {
        assert RootOf(b'.spec, rid) == RootOf(b.spec, rid);
        if (RootOf(b.spec, rid), m) in b.resumed { assert Settled(b, RootOf(b.spec, rid), m); }
      }
    }
  }

  /** Starting a planned resume under an id nobody holds. */
  lemma ResumeKeepsResumes(c: Setup, b: Broker, of: Rid, screened: bool, session: bool)
    requires ResumesKept(c, b) && b.turn.None? && Plan(c, b, of, screened, session).Some?
    requires var (root, n) := Plan(c, b, of, screened, session).value; ResumeId(root, n) !in Taken(c, b)
    ensures var (root, n) := Plan(c, b, of, screened, session).value; ResumesKept(c, ResumeStarted(c, b, root, n))
  {
    PlanNamesRoot(c, b, of, screened, session);
    var (root, n) := Plan(c, b, of, screened, session).value;
    hide Plan, MapsToRoots, KnownAreSettled;
    StartKeepsMaps(c, b, root, n, b.spec);
    StartKeepsMaps(c, b, root, n, b.run);
    if !c.mcp {
      StartKeepsSettled(c, b, root, n);
    }
    var b' := ResumeStarted(c, b, root, n);
    assert b'.resumed == b.resumed + [(root, n)];
    assert (root, n) !in b.resumed;
  }

  /** A step inside a turn leaves the ids, the results and the resume maps as they are. */
  lemma QuietKeepsResumes(c: Setup, b: Broker, b': Broker)
    requires ResumesKept(c, b)
    requires b.turn.Some? && Quiet(c, b, b')
    ensures ResumesKept(c, b')
  {
    assert forall rid :: RootOf(b'.spec, rid) == RootOf(b.spec, rid);
  }

  lemma TurnEndKeepsResumes(c: Setup, b: Broker, e: Event)
    requires ResumesKept(c, b) && b.turn.Some? && b.turn.value.phase.Ending? && (e.EndTurn? || e.EndTurnCut?)
    ensures ResumesKept(c, TurnStep(c, b, e))
  {
    var t := b.turn.value;
    WriteKeepsResumes(c, b, t.rid, t.phase.status);
    var b' := WriteResult(c, b, t.rid, t.phase.status);
    hide WriteResult;
    RestartKeepsResumes(c, b);
    RestartKeepsResumes(c, b');
    WriteSettles(c, b, t.rid, t.phase.status);
  }

  lemma WriteSettles(c: Setup, b: Broker, rid: Rid, status: Status)
    ensures var b' := WriteResult(c, b, rid, status);
            && (rid in b'.results || b' == b || b' == Restarted(b))
            && (!c.mcp ==> rid in b'.results || b' == Restarted(b))
            && (b'.turn == b.turn || b'.turn.None?)
  {}

  /** What a step inside a turn may change. */
  ghost predicate Quiet(c: Setup, b: Broker, b': Broker) {
    && b'.resumed == b.resumed && b'.results == b.results && b'.issuedFiles == b.issuedFiles
    && b'.seen == b.seen && b'.issued == b.issued && b'.spec.resumeOf == b.spec.resumeOf
    && (b'.run.resumeOf == b.run.resumeOf || b'.run.resumeOf == b.spec.resumeOf)
    && (forall root | root in b'.resumes :: b'.resumes[root] <= ResumeCap(c, root))
    && TurnFits(c, b') && b.turn.Some? && b'.turn.Some? && b'.turn.value.rid == b.turn.value.rid
  }

  lemma QuietDispatch(c: Setup, b: Broker, e: Event)
    requires b.turn.Some? && !(b.turn.value.phase.Ending? && (e.EndTurn? || e.EndTurnCut?))
             && b.turn.value.work.Dispatch?
    requires TurnFits(c, b) && forall root | root in b.resumes :: b.resumes[root] <= ResumeCap(c, root)
    ensures Quiet(c, b, TurnStep(c, b, e))
  {
    hide ResumeId, WriteResult, ResumeCap;
  }

  lemma QuietResume(c: Setup, b: Broker, e: Event)
    requires b.turn.Some? && !(b.turn.value.phase.Ending? && (e.EndTurn? || e.EndTurnCut?)) && b.turn.value.work.Resume?
    requires TurnFits(c, b) && forall root | root in b.resumes :: b.resumes[root] <= ResumeCap(c, root)
    ensures Quiet(c, b, TurnStep(c, b, e))
  {
    hide ResumeId, WriteResult, ResumeCap;
  }

  lemma TurnStepKeepsResumes(c: Setup, b: Broker, e: Event)
    requires ResumesKept(c, b) && b.turn.Some?
    ensures ResumesKept(c, TurnStep(c, b, e))
  {
    if b.turn.value.phase.Ending? && (e.EndTurn? || e.EndTurnCut?) {
      TurnEndKeepsResumes(c, b, e);
    } else {
      if b.turn.value.work.Dispatch? { QuietDispatch(c, b, e); } else { QuietResume(c, b, e); }
      hide TurnStep;
      QuietKeepsResumes(c, b, TurnStep(c, b, e));
    }
  }

  lemma SeenKeepsResumes(c: Setup, b: Broker, rid: Rid)
    requires ResumesKept(c, b)
    ensures ResumesKept(c, b.(seen := b.seen + {rid}))
    ensures ResumesKept(c, b.(issuedFiles := b.issuedFiles + {rid}, issued := b.issued + {rid})) || !c.mcp
  {}

  lemma RequestKeepsResumes(c: Setup, b: Broker, e: Event)
    requires ResumesKept(c, b) && IsRequest(e)
    ensures ResumesKept(c, Step(c, b, e))
  {
    SeenKeepsResumes(c, b, e.rid);
    hide ResumesKept;
    if c.mcp {
      var issued := b.(issuedFiles := b.issuedFiles + {e.rid}, issued := b.issued + {e.rid});
      WriteKeepsResumes(c, issued, e.rid, Refused);
    } else {
      var seen := b.(seen := b.seen + {e.rid});
      WriteKeepsResumes(c, seen, e.rid, Refused);
      WriteKeepsResumes(c, seen, e.rid, Answered);
    }
    if e.ResumeRequest? && b.turn.None? && Plan(c, b, e.of, e.screened, e.session).Some? {
      var (root, n) := Plan(c, b, e.of, e.screened, e.session).value;
      if ResumeId(root, n) !in Taken(c, b) {
        ResumeKeepsResumes(c, b, e.of, e.screened, e.session);
      }
    }
    if e.DispatchRequest? && b.turn.None? && e.rid !in Taken(c, b) && (!c.mcp ==> e.rid !in b.seen) {
      assert e.rid !in b.results && (!c.mcp ==> e.rid !in b.issued) by { KnownAreRecorded(c, b); }
      DispatchKeepsResumes(c, b, e.rid);
    }
  }

  lemma IssueCutKeepsResumes(c: Setup, b: Broker, e: Event)
    requires ResumesKept(c, b) && e.IssueCut?
    ensures ResumesKept(c, Step(c, b, e))
  {
    if c.mcp && b.turn.None? && Plan(c, b, e.of, e.screened, e.session).Some? {
      var (root, n) := Plan(c, b, e.of, e.screened, e.session).value;
      var rid := ResumeId(root, n);
      SeenKeepsResumes(c, b, rid);
      RestartKeepsResumes(c, b.(issuedFiles := b.issuedFiles + {rid}, issued := b.issued + {rid}));
    }
    hide ResumesKept;
  }

  lemma KnownAreRecorded(c: Setup, b: Broker)
    requires ResumesKept(c, b)
    ensures if c.mcp then b.results.Keys <= b.issuedFiles else b.issued <= b.seen
  {}

  lemma StepKeepsResumes(c: Setup, b: Broker, e: Event)
    requires ResumesKept(c, b)
    ensures ResumesKept(c, Step(c, b, e))
  {
    match e {
      case Save =>
      case Restart => RestartKeepsResumes(c, b);
      case DispatchRequest(_, _) => RequestKeepsResumes(c, b, e);
      case ResumeRequest(_, _, _, _) => RequestKeepsResumes(c, b, e);
      case AnswerRequest(_, _, _) => RequestKeepsResumes(c, b, e);
      case Unreadable(_) => RequestKeepsResumes(c, b, e);
      case IssueCut(_, _, _) => IssueCutKeepsResumes(c, b, e);
      case _ => if b.turn.Some? { TurnStepKeepsResumes(c, b, e); }
    }
  }

  /** A request is planned for exactly if it passed the screens, its id was issued, it
      ended green, red or unverified, its session is known, and its root has had no
      resume, or one and is no grunt. */
  lemma PlanIff(c: Setup, b: Broker, of: Rid, screened: bool, session: bool)
    ensures var root := if of in b.spec.resumeOf then b.spec.resumeOf[of] else of;
            var turns := if root in b.resumes then b.resumes[root] else 0;
            && (Plan(c, b, of, screened, session).Some? <==>
                && screened && session && (of in b.issued || (c.mcp && of in b.issuedFiles))
                && of in b.results && b.results[of] in {Green, Red, Unverified}
                && (turns == 0 || (turns == 1 && root !in c.grunts)))
            && (Plan(c, b, of, screened, session).Some? ==>
                  Plan(c, b, of, screened, session).value == (root, turns + 1))
  {}

  /** The ids of the resumes there can be. */
  lemma ResumeIds(root: Rid)
    ensures ResumeId(root, 1) == root + "-r1" && ResumeId(root, 2) == root + "-r2"
  {
    assert root + "-r" + ['1'] == root + "-r1" && root + "-r" + ['2'] == root + "-r2";
  }

  /** Over every run and on both transports: a Worker's n-th resume starts at most
      once, n is 1, or 2 for a Worker that is no grunt, no more turns than that are
      recorded, and every resume id leads to a root that is no resume id itself. */
  lemma {:induction false} ResumeBounds(c: Setup, events: seq<Event>)
    ensures ResumesKept(c, Run(c, events))
    ensures NoRepeats(Run(c, events).resumed)
    ensures forall root, n | (root, n) in Run(c, events).resumed :: 1 <= n <= ResumeCap(c, root)
    ensures forall root, n | (root, n) in Run(c, events).resumed :: n == 1 || (n == 2 && root !in c.grunts)
    ensures forall root | root in Run(c, events).resumes ::
              Run(c, events).resumes[root] <= if root in c.grunts then 1 else 2
    ensures forall k | k in Run(c, events).spec.resumeOf ::
              RootOf(Run(c, events).spec, k) !in Run(c, events).spec.resumeOf
    decreases |events|
  {
    if events != [] {
      ResumeBounds(c, events[..|events| - 1]);
      StepKeepsResumes(c, Run(c, events[..|events| - 1]), events[|events| - 1]);
    }
  }

  // ---- One turn at a time

  /** While a turn runs no other is started: the turn after a step is the same
      one, or there is none. */
  lemma TurnIsNotReplaced(c: Setup, b: Broker, e: Event)
    requires b.turn.Some?
    ensures Step(c, b, e).turn.None? ||
            (Step(c, b, e).turn.value.rid == b.turn.value.rid && Step(c, b, e).turn.value.work == b.turn.value.work)
    ensures Step(c, b, e).resumed == b.resumed
  {}

  // ---- A resume id dispatched anew

  function Steps(c: Setup, b: Broker, events: seq<Event>): Broker
    decreases |events|
  {
    if events == [] then b else Steps(c, Step(c, b, events[0]), events[1..])
  }

  lemma {:induction false} RunOn(c: Setup, events: seq<Event>, more: seq<Event>)
    ensures Run(c, events + more) == Steps(c, Run(c, events), more)
    decreases |more|
  {
    hide Step;
    if more == [] {
      assert events + more == events;
    } else {
      assert (events + [more[0]])[..|events|] == events;
      assert events + more == (events + [more[0]]) + more[1..];
      RunOn(c, events + [more[0]], more[1..]);
    }
  }

  lemma {:induction false} StepsOn(c: Setup, b: Broker, events: seq<Event>, more: seq<Event>)
    ensures Steps(c, b, events + more) == Steps(c, Steps(c, b, events), more)
    decreases |events|
  {
    hide Step;
    if events == [] {
      assert events + more == more;
    } else {
      assert (events + more)[1..] == events[1..] + more;
      StepsOn(c, Step(c, b, events[0]), events[1..], more);
    }
  }

  lemma StepsAppend(c: Setup, b: Broker, events: seq<Event>, e: Event)
    ensures Steps(c, b, events + [e]) == Step(c, Steps(c, b, events), e)
  {
    StepsOn(c, b, events, [e]);
    assert Steps(c, Steps(c, b, events), [e]) == Steps(c, Step(c, Steps(c, b, events), e), []);
  }

  /** `states` lists what `events` lead through. */
  lemma {:induction false} OneByOne(c: Setup, b: Broker, events: seq<Event>, states: seq<Broker>)
    requires |states| == |events| + 1 && states[0] == b
    requires forall i | 0 <= i < |events| :: states[i + 1] == Step(c, states[i], events[i])
    ensures Steps(c, b, events) == states[|events|]
    decreases |events|
  {
    hide Step;
    if events != [] {
      OneByOne(c, states[1], events[1..], states[1..]);
    }
  }

  const WORKER := [MakeWorkdir, ReserveSlot, Launch, WorkerEnds(Green, false), EndTurn]

  /** The file broker after a valid dispatch under a fresh id ran to its green result. */
  function Dispatched(b: Broker, rid: Rid): Broker {
    var spec := b.spec.(spawned := b.spec.spawned + 1);
    b.(seen := b.seen + {rid}, issued := b.issued + {rid}, workdirs := b.workdirs + {rid},
       launches := b.launches + [rid], reports := b.reports + {rid}, results := b.results[rid := Green],
       spec := spec, run := spec)
  }

  /** The file broker after the first k steps of such a dispatch. */
  function DispatchAt(b: Broker, rid: Rid, k: nat): Broker {
    var b1 := b.(seen := b.seen + {rid}, issued := b.issued + {rid}, turn := Some(Turn(rid, Dispatch, Started)));
    var b2 := b1.(workdirs := b.workdirs + {rid}, turn := Some(Turn(rid, Dispatch, DirMade)));
    var spec := b.spec.(spawned := b.spec.spawned + 1);
    var b3 := b2.(spec := spec, run := spec, turn := Some(Turn(rid, Dispatch, Reserved)));
    var b4 := b3.(launches := b.launches + [rid], turn := Some(Turn(rid, Dispatch, Launched)));
    if k == 0 then b else if k == 1 then b1 else if k == 2 then b2 else if k == 3 then b3 else if k == 4 then b4
    else if k == 5 then b4.(turn := Some(Turn(rid, Dispatch, Ending(Green)))) else Dispatched(b, rid)
  }

  lemma DispatchRequested(c: Setup, b: Broker, rid: Rid)
    requires !c.mcp && b.turn.None? && rid !in b.seen && rid !in b.results
    ensures Step(c, b, DispatchRequest(rid, true)) == DispatchAt(b, rid, 1)
  {}

  lemma DispatchLaunched(c: Setup, b: Broker, rid: Rid)
    requires c.width > 0 && b.spec.spawned < c.total && rid !in b.workdirs
    ensures Step(c, DispatchAt(b, rid, 1), MakeWorkdir) == DispatchAt(b, rid, 2)
    ensures Step(c, DispatchAt(b, rid, 2), ReserveSlot) == DispatchAt(b, rid, 3)
    ensures Step(c, DispatchAt(b, rid, 3), Launch) == DispatchAt(b, rid, 4)
  {
    hide WriteResult;
  }

  lemma DispatchEnded(c: Setup, b: Broker, rid: Rid)
    requires b.turn.None? && rid !in b.results && rid !in b.reports
    ensures Step(c, DispatchAt(b, rid, 4), WorkerEnds(Green, false)) == DispatchAt(b, rid, 5)
    ensures Step(c, DispatchAt(b, rid, 5), EndTurn) == DispatchAt(b, rid, 6)
  {}

  lemma DispatchCompletes(c: Setup, b: Broker, rid: Rid)
    requires !c.mcp && c.width > 0 && b.turn.None? && b.spec.spawned < c.total
    requires rid !in b.seen && rid !in b.results && rid !in b.reports && rid !in b.workdirs
    ensures Steps(c, b, [DispatchRequest(rid, true)] + WORKER) == Dispatched(b, rid)
  {
    hide Step, Steps;
    DispatchRequested(c, b, rid);
    DispatchLaunched(c, b, rid);
    DispatchEnded(c, b, rid);
    var states := seq(7, k requires 0 <= k < 7 => DispatchAt(b, rid, k));
    assert DispatchAt(b, rid, 0) == b && DispatchAt(b, rid, 6) == Dispatched(b, rid);
    hide DispatchAt;
    OneByOne(c, b, [DispatchRequest(rid, true)] + WORKER, states);
  }

  const LOST := [ResumeRequest("w-r1", "w", true, true), Save, WorkerEnds(Green, true), Restart]

  function AfterLost(b: Broker): Broker {
    var spec := b.spec.(resumeOf := b.spec.resumeOf["w-r1" := "w"]);
    b.(spec := spec, run := spec, resumes := map["w" := 1], resumed := b.resumed + [("w", 1)],
       seen := {}, issued := {}, turn := None)
  }

  /** The first resume of a Worker "w", recorded in its run but cut off before its result. */
  lemma ResumeIsLost(c: Setup, b: Broker)
    requires !c.mcp && b.turn.None? && "w-r1" !in b.seen && "w-r1" !in b.results
    requires "w" in b.issued && "w" in b.results && b.results["w"] == Green && "w" !in b.spec.resumeOf
    requires b.resumes == map[] && ResumeCap(c, "w") == 2
    ensures Steps(c, b, LOST) == AfterLost(b)
  {
    hide *;
    var b1, b2, b3 := LostAt(b, 1), LostAt(b, 2), LostAt(b, 3);
    LostSteps(c, b);
    FirstResume(c, b);
    OneByOne(c, b, LOST, [b, b1, b2, b3, AfterLost(b)]);
  }

  /** The broker after the first k steps of it. */
  function LostAt(b: Broker, k: nat): Broker {
    var spec := b.spec.(resumeOf := b.spec.resumeOf["w-r1" := "w"]);
    var b1 := b.(seen := b.seen + {"w-r1"}, issued := b.issued + {"w-r1"}, spec := spec,
                 turn := Some(Turn("w-r1", Resume("w", 1), Started)), resumed := b.resumed + [("w", 1)]);
    var b2 := b1.(run := spec);
    if k == 1 then b1 else if k == 2 then b2
    else b2.(resumes := map["w" := 1], turn := Some(Turn("w-r1", Resume("w", 1), Ending(Green))))
  }

  lemma LostSteps(c: Setup, b: Broker)
    requires b.resumes == map[]
    ensures |LOST| == 4
    ensures Step(c, LostAt(b, 1), LOST[1]) == LostAt(b, 2)
    ensures Step(c, LostAt(b, 2), LOST[2]) == LostAt(b, 3)
    ensures Step(c, LostAt(b, 3), LOST[3]) == AfterLost(b)
  {
    hide FileRequest, McpRequest, IssuedOnly, WriteResult;
    ResumeEnds(c, LostAt(b, 2));
    hide TurnStep;
  }

  lemma ResumeEnds(c: Setup, b: Broker)
    requires b.turn == Some(Turn("w-r1", Resume("w", 1), Started)) && b.resumes == map[]
    ensures TurnStep(c, b, LOST[2])
            == b.(resumes := map["w" := 1], turn := Some(Turn("w-r1", Resume("w", 1), Ending(Green))))
  {
    hide WriteResult;
  }

  lemma FirstResume(c: Setup, b: Broker)
    requires !c.mcp && b.turn.None? && "w-r1" !in b.seen && "w-r1" !in b.results
    requires "w" in b.issued && "w" in b.results && b.results["w"] == Green && "w" !in b.spec.resumeOf
    requires b.resumes == map[] && ResumeCap(c, "w") == 2
    ensures Step(c, b, LOST[0]) == LostAt(b, 1)
  {
    assert ResumeId("w", 1) == "w-r1";
    assert Plan(c, b, "w", true, true) == Some(("w", 1));
    hide Plan, ResumeId, WriteResult, TurnStep, McpRequest, IssuedOnly;
  }

  /** A Worker launched under `rid` ended green, yet its resume is planned for another Worker. */
  predicate GoesAstray(c: Setup, b: Broker, rid: Rid) {
    && rid in b.launches && rid in b.results && b.results[rid] == Green
    && var plan := Plan(c, b, rid, true, true); plan.Some? && plan.value.0 != rid
  }

  /** The file broker forgets the ids it issued when it restarts, but not which
      Worker a resume id stood for.  A lost resume's id may then be dispatched as
      a Worker of its own, and a resume of that Worker is planned for the old root. */
  lemma RedispatchedResumeIdGoesAstray()
    ensures exists c: Setup, events: seq<Event>, rid: Rid :: !c.mcp && GoesAstray(c, Run(c, events), rid)
  {
    hide *;
    var c := Setup(1, 2, false, {});
    var first := [DispatchRequest("w", true)] + WORKER;
    var again := [DispatchRequest("w-r1", true)] + WORKER;
    var b1, b2 := Dispatched(INIT, "w"), AfterLost(Dispatched(INIT, "w"));
    AstrayStates(c);
    DispatchCompletes(c, INIT, "w");
    RunOn(c, [], first);
    assert [] + first == first;
    ResumeIsLost(c, b1);
    RunOn(c, first, LOST);
    DispatchCompletes(c, b2, "w-r1");
    RunOn(c, first + LOST, again);
    assert GoesAstray(c, Run(c, first + LOST + again), "w-r1");
  }

  /** The states the counterexample passes through. */
  lemma AstrayStates(c: Setup)
    requires c == Setup(1, 2, false, {})
    ensures Run(c, []) == INIT && INIT.turn.None? && INIT.spec.spawned == 0
    ensures "w" !in INIT.seen && "w" !in INIT.results && "w" !in INIT.reports && "w" !in INIT.workdirs
    ensures var b := Dispatched(INIT, "w");
            && b.turn.None? && "w-r1" !in b.seen && "w-r1" !in b.results
            && "w" in b.issued && "w" in b.results && b.results["w"] == Green && "w" !in b.spec.resumeOf
            && b.resumes == map[] && ResumeCap(c, "w") == 2
    ensures var b := AfterLost(Dispatched(INIT, "w"));
            && b.turn.None? && b.spec.spawned == 1
            && "w-r1" !in b.seen && "w-r1" !in b.results && "w-r1" !in b.reports && "w-r1" !in b.workdirs
            && GoesAstray(c, Dispatched(b, "w-r1"), "w-r1")
  {
    assert "w" != "w-r1";
  }
}
