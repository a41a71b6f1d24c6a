/** What lets a dispatch through: the outcome of one that nobody interrupts, and
    in any interleaving the gates that every invoked worker has passed. */
module ControlVetting {
  import opened Options
  import opened ControlSpec
  import opened ControlBudget

  // ---- One dispatch alone

  /** What is used of the run's limits, or nothing if that cannot be measured, is below them. */
  predicate HasRoom(req: Request, db: Db, luck: Luck) {
    var limits := if req.run in db.budgets then db.budgets[req.run] else req.budget;
    && (limits.calls.Some? ==>
          (if Measuring in luck.faults then 0 else UsedCalls(db.rows, req.run)) < limits.calls.value)
    && (limits.seconds.Some? ==>
          (if Measuring in luck.faults then 0.0 else UsedSeconds(db.rows, req.run)) < limits.seconds.value)
  }

  /** The lease is free, one more call is within the envelope's own limits, and the node has no reservation. */
  predicate CanReserve(req: Request, db: Db) {
    && db.lease.None?
    && (req.budget.calls.Some? ==> UsedCalls(db.rows, req.run) + 1 <= req.budget.calls.value)
    && (req.budget.seconds.Some? ==> UsedSeconds(db.rows, req.run) <= req.budget.seconds.value)
    && forall k | 0 <= k < |db.rows| :: db.rows[k].run != req.run || db.rows[k].node != req.node
  }

  lemma GrantedIff(req: Request, db: Db)
    ensures Reserve(db, req.run, req.node, 1, 0.0, req.budget).1.Granted? <==> CanReserve(req, db)
  {
    hide UsedCalls, UsedSeconds;
  }

  /** The outcomes in the order in which they are decided. */
  function Outcome(req: Request, db: Db, luck: Luck): Status {
    if Claiming in luck.faults then Blocked
    else if req.message in db.replay then
      if db.replay[req.message].hash == req.hash then Duplicate
      else if Recording in luck.faults then Blocked else Conflict
    else if Budgeting in luck.faults || Recording in luck.faults then Blocked
    else if !luck.policy || !HasRoom(req, db, luck) || !luck.route then Denied
    else if Checking in luck.faults || req.run in db.cancelled then Cancelled
    else if Reserving in luck.faults || !CanReserve(req, db) then Blocked
    else if Rechecking in luck.faults then Cancelled
    else if !luck.deadline.Ahead? then Denied
    else Allowed
  }

  /** The dispatch gets as far as its reservation. */
  predicate Reserves(req: Request, db: Db, luck: Luck) {
    && luck.faults !! {Claiming, Budgeting, Recording, Checking, Reserving}
    && req.message !in db.replay && luck.policy && HasRoom(req, db, luck) && luck.route
    && req.run !in db.cancelled && CanReserve(req, db)
  }

  /** Only a failed second look and an expired deadline give a reservation back. */
  predicate GivesBack(luck: Luck) {
    (Rechecking in luck.faults || luck.deadline.Expired?) && Releasing !in luck.faults
  }

  /** The one row a dispatch adds: a call, with the observed seconds if its worker was invoked. */
  function Reservation(req: Request, luck: Luck): Row {
    var invoked := Rechecking !in luck.faults && luck.deadline.Ahead? && Committing !in luck.faults;
    Row(req.run, req.node, 1, if invoked && luck.elapsed > 0.0 then luck.elapsed else 0.0, GivesBack(luck))
  }

  predicate NoRowOf(rows: seq<Row>, run: RunId, node: NodeId) {
    forall k | 0 <= k < |rows| :: rows[k].run != run || rows[k].node != node
  }

  /** Where a node has just one row, the last, releasing and timing it touch no other. */
  lemma OthersStay(rows: seq<Row>, run: RunId, node: NodeId, seconds: real)
    requires NoRowOf(rows, run, node)
    ensures MarkReleased(rows, run, node) == rows && SetSeconds(rows, run, node, seconds) == rows
  {
    MarkReleasedRows(rows, run, node);
    SetSecondsRows(rows, run, node, seconds);
  }

  lemma LastChanges(rows: seq<Row>, row: Row, seconds: real)
    requires NoRowOf(rows, row.run, row.node) && !row.released
    ensures MarkReleased(rows + [row], row.run, row.node) == rows + [row.(released := true)]
    ensures SetSeconds(rows + [row], row.run, row.node, seconds) == rows + [row.(seconds := seconds)]
  {
    assert (rows + [row])[..|rows|] == rows;
    OthersStay(rows, row.run, row.node, seconds);
  }

  lemma AloneNext(req: Request, db: Db, p: Phase, luck: Luck)
    requires !p.Done? && !p.Gone?
    ensures Alone(req, db, p, luck) == Alone(req, Advance(req, db, p, luck).0, Advance(req, db, p, luck).1, luck)
  {}

  lemma AloneDone(req: Request, db: Db, status: Status, luck: Luck)
    ensures Alone(req, db, Done(status), luck) == (db, Done(status))
  {}

  /** From the reservation on. */
  lemma ReservedOutcome(req: Request, db: Db, luck: Luck)
    ensures Alone(req, db, Reserved, luck).1 ==
            Done(if Rechecking in luck.faults || req.run in db.cancelled then Cancelled
                 else if !luck.deadline.Ahead? then Denied else Allowed)
  {
    AloneNext(req, db, Reserved, luck);
    AloneNext(req, db, Cancelling, luck);
    AloneNext(req, db, Expiring, luck);
    AloneNext(req, db, BadDeadline, luck);
    if Rechecking !in luck.faults && req.run !in db.cancelled && luck.deadline.Ahead? {
      ArmedOutcome(req, db, luck);
    }
    hide MarkReleased;
  }

  lemma ArmedOutcome(req: Request, db: Db, luck: Luck)
    ensures Alone(req, db, Armed, luck).1 == Done(Allowed)
  {
    hide SetSeconds, UsedCalls, UsedSeconds;
    AloneNext(req, db, Armed, luck);
    AloneNext(req, db, Running, luck);
    var output := if luck.launched then luck.output else None;
    AloneNext(req, db, Ended(output), luck);
    var db' := Advance(req, db, Ended(output), luck).0;
    AloneNext(req, db', Counted(output), luck);
    AloneNext(req, Advance(req, db', Counted(output), luck).0, Finishing, luck);
  }

  /** From the recorded decision on. */
  lemma RecordedOutcome(req: Request, db: Db, luck: Luck)
    ensures Alone(req, db, Recorded, luck).1 ==
            Done(if Checking in luck.faults || req.run in db.cancelled then Cancelled
                 else if Reserving in luck.faults || !CanReserve(req, db) then Blocked
                 else if Rechecking in luck.faults then Cancelled
                 else if !luck.deadline.Ahead? then Denied else Allowed)
  {
    hide Alone, UsedCalls, UsedSeconds;
    AloneNext(req, db, Recorded, luck);
    AloneNext(req, db, Ready, luck);
    var db' := Advance(req, db, Ready, luck).0;
    ReservedOutcome(req, db', luck);
    AloneDone(req, db, Cancelled, luck);
    AloneDone(req, db', Blocked, luck);
  }

  /** A dispatch that nobody interrupts ends as the table says.  It is allowed only
      if the policy, the route checks and the deadline let it through and its run is not cancelled. */
  lemma OutcomeIs(req: Request, db: Db, luck: Luck)
    ensures Alone(req, db, Begin, luck).1 == Done(Outcome(req, db, luck))
  {
    hide Alone, UsedCalls, UsedSeconds;
    AloneNext(req, db, Begin, luck);
    var db1 := Advance(req, db, Begin, luck).0;
    if Advance(req, db, Begin, luck).1.Claimed? {
      AloneNext(req, db1, Claimed, luck);
      var m := Advance(req, db1, Claimed, luck).1;
      AloneNext(req, db1, m, luck);
      var db2 := Advance(req, db1, m, luck).0;
      if Advance(req, db1, m, luck).1.Judged? {
        JudgedOutcome(req, db2, Advance(req, db1, m, luck).1.allowed, luck);
        RoomIsSame(req, db, db1, db2);
        hide CanReserve;
      } else {
        AloneDone(req, db2, Blocked, luck);
      }
    } else {
      AloneDone(req, db1, Advance(req, db, Begin, luck).1.status, luck);
    }
  }

  lemma RoomStays(req: Request, db: Db, db': Db, luck: Luck)
    requires db'.rows == db.rows && db'.budgets == db.budgets
    ensures HasRoom(req, db', luck) == HasRoom(req, db, luck)
  {}

  lemma RoomIsSame(req: Request, db: Db, db1: Db, db2: Db)
    requires db2.rows == db1.rows == db.rows && db2.lease == db1.lease == db.lease
    ensures CanReserve(req, db2) == CanReserve(req, db)
  {}

  lemma JudgedOutcome(req: Request, db: Db, allowed: bool, luck: Luck)
    ensures Alone(req, db, Judged(allowed), luck).1 ==
            Done(if Recording in luck.faults then Blocked
                 else if !allowed || !luck.route then Denied
                 else if Checking in luck.faults || req.run in db.cancelled then Cancelled
                 else if Reserving in luck.faults || !CanReserve(req, db) then Blocked
                 else if Rechecking in luck.faults then Cancelled
                 else if !luck.deadline.Ahead? then Denied else Allowed)
  {
    hide Alone, UsedCalls, UsedSeconds;
    AloneNext(req, db, Judged(allowed), luck);
    var db' := Advance(req, db, Judged(allowed), luck).0;
    AloneDone(req, db', Denied, luck);
    AloneDone(req, db', Blocked, luck);
    RecordedOutcome(req, db', luck);
    RoomIsSame(req, db, db', db');
    hide CanReserve;
  }

  // ---- Any number of dispatches

  /** What a worker must get past: the policy on the run's limits, the route checks
      with the allowing decision on record, both looks for a cancellation, the
      second with the deadline, and the start of its process. */
  datatype Gate = ByPolicy | ByRoute | FirstLook | SecondLook | Launch

  /** The transaction from phase `p` gets the dispatch past the gate. */
  predicate PassesNow(req: Request, db: Db, p: Phase, luck: Luck, g: Gate) {
    match g
    case ByPolicy =>
      p.Measured? && luck.policy &&
      var limits := if req.run in db.budgets then db.budgets[req.run] else req.budget;
      && (limits.calls.Some? ==> p.calls < limits.calls.value)
      && (limits.seconds.Some? ==> p.seconds < limits.seconds.value)
    case ByRoute => p == Judged(true) && luck.route && Recording !in luck.faults
    case FirstLook => p.Recorded? && req.run !in db.cancelled
    case SecondLook => p.Reserved? && req.run !in db.cancelled && luck.deadline.Ahead?
    case Launch => p.Armed? && luck.launched
  }

  /** The gates behind a dispatch in phase `p`. */
  function GatesBehind(p: Phase): set<Gate> {
    match p
    case Judged(allowed) => if allowed then {ByPolicy} else {}
    case Recorded => {ByPolicy, ByRoute}
    case Ready => {ByPolicy, ByRoute, FirstLook}
    case Reserved => {ByPolicy, ByRoute, FirstLook}
    case Armed => {ByPolicy, ByRoute, FirstLook, SecondLook}
    case Running => {ByPolicy, ByRoute, FirstLook, SecondLook, Launch}
    case _ => {}
  }

  lemma AdvanceGates(req: Request, db: Db, p: Phase, luck: Luck, g: Gate)
    requires g in GatesBehind(Advance(req, db, p, luck).1)
    ensures g in GatesBehind(p) || PassesNow(req, db, p, luck, g)
  {
    hide UsedCalls, UsedSeconds, Reserve, SetSeconds;
  }

  /** Event n of the run gets dispatch i past the gate. */
  ghost predicate Passes(reqs: seq<Request>, events: seq<Event>, i: nat, n: nat, g: Gate) {
    && i < |reqs| && n < |events| && events[n].Go? && events[n].i == i
    && var s := Run(reqs, events[..n]); PassesNow(reqs[i], s.db, s.phases[i], events[n].luck, g)
  }

  ghost predicate HasPassed(reqs: seq<Request>, events: seq<Event>, i: nat, g: Gate) {
    exists n: nat :: Passes(reqs, events, i, n, g)
  }

  ghost predicate AllVetted(reqs: seq<Request>, events: seq<Event>) {
    var s := Run(reqs, events);
    && (forall i, g | 0 <= i < |reqs| && g in GatesBehind(s.phases[i]) :: HasPassed(reqs, events, i, g))
    && (forall i, g | i in s.invoked :: HasPassed(reqs, events, i, g))
  }

  lemma StillPassed(reqs: seq<Request>, events: seq<Event>, e: Event, i: nat, g: Gate)
    requires HasPassed(reqs, events, i, g)
    ensures HasPassed(reqs, events + [e], i, g)
  {
    var n: nat :| Passes(reqs, events, i, n, g);
    assert (events + [e])[..n] == events[..n];
    assert Passes(reqs, events + [e], i, n, g);
  }

  lemma StepVets(reqs: seq<Request>, events: seq<Event>, e: Event)
    requires AllVetted(reqs, events)
    ensures AllVetted(reqs, events + [e])
  {
    var s, more := Run(reqs, events), events + [e];
    assert more[..|events|] == events;
    var s' := Run(reqs, more);
    assert s' == Step(reqs, s, e);
    forall i, g | 0 <= i < |reqs| && g in GatesBehind(s'.phases[i]) ensures HasPassed(reqs, more, i, g) {
      PhaseVetted(reqs, events, e, i, g);
    }
    hide Run, HasPassed, GatesBehind, Advance;
    forall i, g | i in s'.invoked ensures HasPassed(reqs, more, i, g) {
      if i in s.invoked {
        StillPassed(reqs, events, e, i, g);
      } else {
        LaunchedIsRunning(reqs, s, e, i, g);
      }
    }
  }

  lemma LaunchedIsRunning(reqs: seq<Request>, s: Sys, e: Event, i: nat, g: Gate)
    requires |s.phases| == |reqs| && i in Step(reqs, s, e).invoked && i !in s.invoked
    ensures i < |reqs| && g in GatesBehind(Step(reqs, s, e).phases[i])
  {
    hide Advance;
  }

  lemma PhaseVetted(reqs: seq<Request>, events: seq<Event>, e: Event, i: nat, g: Gate)
    requires AllVetted(reqs, events) && i < |reqs| && g in GatesBehind(Step(reqs, Run(reqs, events), e).phases[i])
    ensures HasPassed(reqs, events + [e], i, g)
  {
    var s, more := Run(reqs, events), events + [e];
    if g in GatesBehind(s.phases[i]) {
      StillPassed(reqs, events, e, i, g);
    } else {
      hide Run, PassesNow;
      MovedByGo(reqs, s, e, i, g);
      AdvanceGates(reqs[i], s.db, s.phases[i], e.luck, g);
      assert more[..|events|] == events;
      assert Passes(reqs, more, i, |events|, g);
    }
  }

  lemma MovedByGo(reqs: seq<Request>, s: Sys, e: Event, i: nat, g: Gate)
    requires |s.phases| == |reqs| && i < |reqs|
    requires g in GatesBehind(Step(reqs, s, e).phases[i]) && g !in GatesBehind(s.phases[i])
    ensures e.Go? && e.i == i && Step(reqs, s, e).phases[i] == Advance(reqs[i], s.db, s.phases[i], e.luck).1
  {
    hide Advance;
  }

  lemma NoneVetted(reqs: seq<Request>)
    ensures AllVetted(reqs, [])
  {
    var s := Run(reqs, []);
    assert s.invoked == [] && forall i | 0 <= i < |reqs| :: s.phases[i] == Begin;
    hide Run, HasPassed;
  }

  lemma {:induction false} EveryRunVets(reqs: seq<Request>, events: seq<Event>)
    ensures AllVetted(reqs, events)
    decreases |events|
  {
    if events != [] {
      var front := events[..|events| - 1];
      EveryRunVets(reqs, front);
      StepVets(reqs, front, events[|events| - 1]);
      assert events == front + [events[|events| - 1]];
      hide *;
    } else {
      NoneVetted(reqs);
    }
  }

  /** The decisions on record that allow were judged so. */
  ghost predicate DecisionsVetted(reqs: seq<Request>, events: seq<Event>) {
    forall d | d in Run(reqs, events).db.decisions && d.1 ::
      exists i :: 0 <= i < |reqs| && reqs[i].node == d.0 && HasPassed(reqs, events, i, ByPolicy)
  }

  lemma AdvanceDecides(req: Request, db: Db, p: Phase, luck: Luck)
    ensures var db' := Advance(req, db, p, luck).0;
            db'.decisions == db.decisions || db'.decisions == db.decisions + [(req.node, false)] ||
            (p == Judged(true) && db'.decisions == db.decisions + [(req.node, true)])
  {
    hide UsedCalls, UsedSeconds, SetSeconds, MarkReleased, HasRow, Fits;
  }

  /** Every allowing decision on record is that of a dispatch which the policy let through. */
  lemma {:induction false} AllowingIsVetted(reqs: seq<Request>, events: seq<Event>)
    ensures DecisionsVetted(reqs, events)
    decreases |events|
  {
    if events != [] {
      var n := |events| - 1;
      var front, e := events[..n], events[n];
      AllowingIsVetted(reqs, front);
      EveryRunVets(reqs, front);
      assert events == front + [e];
      var s := Run(reqs, front);
      hide Run, HasPassed, Advance;
      if e.Go? && e.i < |reqs| {
        AdvanceDecides(reqs[e.i], s.db, s.phases[e.i], e.luck);
      }
      DecisionsStep(reqs, s, e);
      forall d | d in Run(reqs, events).db.decisions && d.1
        ensures exists i :: 0 <= i < |reqs| && reqs[i].node == d.0 && HasPassed(reqs, events, i, ByPolicy)
      {
        if d in s.db.decisions {
          var i :| 0 <= i < |reqs| && reqs[i].node == d.0 && HasPassed(reqs, front, i, ByPolicy);
          StillPassed(reqs, front, e, i, ByPolicy);
        } else {
          assert e.Go? && e.i < |reqs| && s.phases[e.i] == Judged(true) && d.0 == reqs[e.i].node;
          assert ByPolicy in GatesBehind(s.phases[e.i]);
          StillPassed(reqs, front, e, e.i, ByPolicy);
        }
      }
    }
  }

  lemma DecisionsStep(reqs: seq<Request>, s: Sys, e: Event)
    requires |s.phases| == |reqs|
    ensures Step(reqs, s, e).db.decisions ==
            if e.Go? && e.i < |reqs| then Advance(reqs[e.i], s.db, s.phases[e.i], e.luck).0.decisions
            else s.db.decisions
  {
    hide Advance;
  }

  /** A run is cancelled exactly by its Cancel events. */
  lemma {:induction false} CancelledIff(reqs: seq<Request>, events: seq<Event>, run: RunId)
    ensures run in Run(reqs, events).db.cancelled <==> exists m :: 0 <= m < |events| && events[m] == Cancel(run)
    decreases |events|
  {
    if events != [] {
      var n := |events| - 1;
      CancelledIff(reqs, events[..n], run);
      CancelledStep(reqs, Run(reqs, events[..n]), events[n], run);
      assert forall m | 0 <= m < n :: events[..n][m] == events[m];
      hide Step;
    }
  }

  lemma CancelledStep(reqs: seq<Request>, s: Sys, e: Event, run: RunId)
    requires |s.phases| == |reqs|
    ensures run in Step(reqs, s, e).db.cancelled <==> run in s.db.cancelled || e == Cancel(run)
  {
    hide UsedCalls, UsedSeconds, SetSeconds, MarkReleased, HasRow, Fits;
  }

  /** No Cancel of the run is among the first n events. */
  predicate NotCancelled(events: seq<Event>, run: RunId, n: nat)
    requires n <= |events|
  {
    forall m | 0 <= m < n :: events[m] != Cancel(run)
  }

  /** In every interleaving each invoked worker was let through by the policy with
      room under the run's durable limits, by the route checks, and by two looks
      before any cancellation of its run, the second with its deadline ahead. */
  lemma InvokedWasVetted(reqs: seq<Request>, events: seq<Event>, i: nat)
    returns (judged: nat, routed: nat, first: nat, second: nat, launched: nat)
    requires i in Run(reqs, events).invoked
    ensures i < |reqs| && judged < |events| && routed < |events| && first < |events|
    ensures second < |events| && launched < |events|
    ensures forall n | n in {judged, routed, first, second, launched} :: events[n].Go? && events[n].i == i
    ensures events[judged].luck.policy && Passes(reqs, events, i, judged, ByPolicy)
    ensures events[routed].luck.route && Run(reqs, events[..routed]).phases[i] == Judged(true)
    ensures Run(reqs, events[..first]).phases[i].Recorded? && NotCancelled(events, reqs[i].run, first)
    ensures Run(reqs, events[..second]).phases[i].Reserved? && NotCancelled(events, reqs[i].run, second)
    ensures events[second].luck.deadline.Ahead?
    ensures Run(reqs, events[..launched]).phases[i].Armed? && events[launched].luck.launched
  {
    EveryRunVets(reqs, events);
    hide Run;
    judged := GateOf(reqs, events, i, ByPolicy);
    routed := GateOf(reqs, events, i, ByRoute);
    first := GateOf(reqs, events, i, FirstLook);
    second := GateOf(reqs, events, i, SecondLook);
    launched := GateOf(reqs, events, i, Launch);
    CancelledIff(reqs, events[..first], reqs[i].run);
    CancelledIff(reqs, events[..second], reqs[i].run);
    forall m | 0 <= m < first ensures events[m] != Cancel(reqs[i].run) { assert events[..first][m] == events[m]; }
    forall m | 0 <= m < second ensures events[m] != Cancel(reqs[i].run) { assert events[..second][m] == events[m]; }
  }

  lemma GateOf(reqs: seq<Request>, events: seq<Event>, i: nat, g: Gate) returns (n: nat)
    requires AllVetted(reqs, events) && i in Run(reqs, events).invoked
    ensures Passes(reqs, events, i, n, g)
  {
    hide Run, Passes;
    assert HasPassed(reqs, events, i, g);
    n :| Passes(reqs, events, i, n, g);
  }

  /** The workers invoked are exactly those whose process was started by a step of an armed dispatch. */
  lemma {:induction false} InvokedIff(reqs: seq<Request>, events: seq<Event>, i: nat)
    ensures i in Run(reqs, events).invoked <==> HasPassed(reqs, events, i, Launch)
    decreases |events|
  {
    EveryRunVets(reqs, events);
    if HasPassed(reqs, events, i, Launch) {
      var m: nat :| Passes(reqs, events, i, m, Launch);
      var n := |events| - 1;
      var front, e := events[..n], events[n];
      LaunchCounts(reqs, Run(reqs, front), e, i);
      if m < n {
        assert front[..m] == events[..m];
        assert Passes(reqs, front, i, m, Launch);
        InvokedIff(reqs, front, i);
      }
      hide Step, PassesNow;
    }
  }

  lemma LaunchCounts(reqs: seq<Request>, s: Sys, e: Event, i: nat)
    requires |s.phases| == |reqs|
    ensures i in s.invoked ==> i in Step(reqs, s, e).invoked
    ensures i < |reqs| && e.Go? && e.i == i && PassesNow(reqs[i], s.db, s.phases[i], e.luck, Launch) ==>
              i in Step(reqs, s, e).invoked
  {
    hide UsedCalls, UsedSeconds, SetSeconds, MarkReleased, Reserve;
  }
}
