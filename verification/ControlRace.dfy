/** A dispatch that nobody interrupts, as a stretch of the interleaved run. */
module ControlRace {
  import opened Options
  import opened ControlSpec
  import opened ControlBudget
  import opened ControlVetting

  const SMOOTH := Luck({}, true, true, Ahead, true, None, 0.0)

  /** A dispatch that nobody interrupts is a stretch of the interleaved run. */
  lemma {:induction false} AloneRuns(reqs: seq<Request>, events: seq<Event>, i: nat, luck: Luck)
    returns (more: seq<Event>)
    requires i < |reqs|
    ensures forall e | e in more :: e == Go(i, luck)
    ensures var s := Run(reqs, events);
            var (db, p) := Alone(reqs[i], s.db, s.phases[i], luck);
            Run(reqs, events + more).db == db && Run(reqs, events + more).phases == s.phases[i := p]
    decreases Left(Run(reqs, events).phases[i])
  {
    var s := Run(reqs, events);
    var p := s.phases[i];
    if p.Done? || p.Gone? {
      more := [];
      assert events + more == events && s.phases[i := p] == s.phases;
    } else {
      assert (events + [Go(i, luck)])[..|events|] == events;
      LeftFalls(reqs[i], s.db, p, luck);
      AloneNext(reqs[i], s.db, p, luck);
      hide Advance, Alone;
      var rest := AloneRuns(reqs, events + [Go(i, luck)], i, luck);
      more := [Go(i, luck)] + rest;
      assert events + [Go(i, luck)] + rest == events + more;
      assert s.phases[i := Advance(reqs[i], s.db, p, luck).1][i := Alone(reqs[i], s.db, p, luck).1] ==
             s.phases[i := Alone(reqs[i], s.db, p, luck).1];
    }
  }

  lemma LeftFalls(req: Request, db: Db, p: Phase, luck: Luck)
    requires !p.Done? && !p.Gone?
    ensures Left(Advance(req, db, p, luck).1) < Left(p)
  {}

  lemma SmoothPolicy(req: Request, db: Db, calls: int)
    requires req.run !in db.cancelled
    requires WithinDurable(RecordBudget(db, req.run, req.budget).budgets[req.run], calls, 0.0)
    ensures var db' := RecordBudget(db, req.run, req.budget);
            Alone(req, db, Measured(calls, 0.0), SMOOTH) ==
            Alone(req, db'.(decisions := db.decisions + [(req.node, true)]), Ready, SMOOTH)
  {
    hide Alone;
    var db1 := RecordBudget(db, req.run, req.budget);
    var db2 := db1.(decisions := db1.decisions + [(req.node, true)]);
    AloneNext(req, db, Measured(calls, 0.0), SMOOTH);
    AloneNext(req, db1, Judged(true), SMOOTH);
    AloneNext(req, db2, Recorded, SMOOTH);
  }

  lemma SmoothReserve(req: Request, db: Db)
    requires db.lease.None? && req.run !in db.cancelled && !HasRow(db.rows, req.run, req.node)
    requires Fits(db.rows, req.run, 1, 0.0, req.budget)
    ensures var rows := db.rows + [Row(req.run, req.node, 1, 0.0, false)];
            Alone(req, db, Ready, SMOOTH) == Alone(req, db.(lease := Some(req.run), rows := rows), Armed, SMOOTH)
  {
    hide Alone, Fits, HasRow;
    var db' := db.(lease := Some(req.run), rows := db.rows + [Row(req.run, req.node, 1, 0.0, false)]);
    AloneNext(req, db, Ready, SMOOTH);
    AloneNext(req, db', Reserved, SMOOTH);
  }

  lemma SmoothInvoke(req: Request, db: Db)
    requires db.lease == Some(req.run)
    ensures Alone(req, db, Armed, SMOOTH) ==
            (db.(lease := None, rows := SetSeconds(db.rows, req.run, req.node, 0.0)), Done(Allowed))
  {
    hide Alone, SetSeconds;
    var db' := db.(rows := SetSeconds(db.rows, req.run, req.node, 0.0));
    AloneNext(req, db, Armed, SMOOTH);
    AloneNext(req, db, Running, SMOOTH);
    AloneNext(req, db, Ended(None), SMOOTH);
    AloneNext(req, db', Counted(None), SMOOTH);
    AloneNext(req, db', Finishing, SMOOTH);
    AloneDone(req, db'.(lease := None), Allowed, SMOOTH);
  }

  /** A smooth dispatch that measured a use below the durable budget, and whose
      own envelope has room, invokes its worker and leaves one call more. */
  lemma SmoothDispatch(req: Request, db: Db, calls: int)
    requires db.lease.None? && req.run !in db.cancelled && !HasRow(db.rows, req.run, req.node)
    requires WithinDurable(RecordBudget(db, req.run, req.budget).budgets[req.run], calls, 0.0)
    requires Fits(db.rows, req.run, 1, 0.0, req.budget)
    ensures var (db', p') := Alone(req, db, Measured(calls, 0.0), SMOOTH);
            && p' == Done(Allowed) && db'.lease.None? && db'.cancelled == db.cancelled
            && db'.budgets == RecordBudget(db, req.run, req.budget).budgets
            && UsedCalls(db'.rows, req.run) == UsedCalls(db.rows, req.run) + 1
            && db'.rows == SetSeconds(db.rows + [Row(req.run, req.node, 1, 0.0, false)], req.run, req.node, 0.0)
  {
    hide Alone, Fits, HasRow, WithinDurable, UsedCalls, SetSeconds;
    var db' := RecordBudget(db, req.run, req.budget).(decisions := db.decisions + [(req.node, true)]);
    var rows := db.rows + [Row(req.run, req.node, 1, 0.0, false)];
    SmoothPolicy(req, db, calls);
    SmoothReserve(req, db');
    SmoothInvoke(req, db'.(lease := Some(req.run), rows := rows));
    UsedAfterInsert(db.rows, Row(req.run, req.node, 1, 0.0, false), req.run);
    SecondsLeaveCalls(rows, req.run, req.node, 0.0, req.run);
  }
}
