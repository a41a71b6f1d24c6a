/** The policy judges a run by its first declared budget, the reservation by the
    envelope's own: exactly which envelopes, interleaved, get past both. */
module ControlOverspend {
  import opened Options
  import opened ControlSpec
  import opened ControlBudget
  import opened ControlRace
  import opened ControlVetting

  // ---- What may overspend a run's durable budget

  predicate Positive(b: Budget) {
    (b.calls.Some? ==> b.calls.value > 0) && (b.seconds.Some? ==> b.seconds.value > 0.0)
  }

  /** The envelope has room for its dispatch as the m-th call of the run. */
  predicate Admits(b: Budget, m: int) {
    (b.calls.Some? ==> m <= b.calls.value) && (b.seconds.Some? ==> 0.0 <= b.seconds.value)
  }

  /** Different dispatches of the run, each with room at its place. */
  ghost predicate Queue(reqs: seq<Request>, run: RunId, queue: seq<nat>) {
    && (forall q | 0 <= q < |queue| ::
          queue[q] < |reqs| && reqs[queue[q]].run == run && Admits(reqs[queue[q]].budget, q + 1))
    && (forall p, q | 0 <= p < q < |queue| :: queue[p] != queue[q])
  }

  /** Some envelope declares the limit, and one call more than it finds room. */
  ghost predicate CanOverspend(reqs: seq<Request>, run: RunId, limit: nat) {
    exists first, queue :: StartsQueue(reqs, run, limit, first, queue)
  }

  ghost predicate StartsQueue(reqs: seq<Request>, run: RunId, limit: nat, first: nat, queue: seq<nat>) {
    && first < |reqs| && reqs[first].run == run && reqs[first].budget.calls == Some(limit)
    && Positive(reqs[first].budget)
    && |queue| == limit + 1 && Queue(reqs, run, queue)
  }

  /** The run's durable call budget is the limit, and more calls are reserved. */
  predicate Overspent(s: Sys, run: RunId, limit: nat) {
    run in s.db.budgets && s.db.budgets[run].calls == Some(limit) && UsedCalls(s.db.rows, run) > limit
  }

  /** Message and node ids are made fresh for each dispatch. */
  predicate OwnIds(reqs: seq<Request>) {
    forall i, j | 0 <= i < j < |reqs| :: reqs[i].message != reqs[j].message && reqs[i].node != reqs[j].node
  }

  // ---- An overspent run had such a queue

  predicate NoNegative(rows: seq<Row>) {
    forall i | 0 <= i < |rows| :: rows[i].seconds >= 0.0
  }

  predicate Passed(p: Phase) {
    p == Judged(true) || p.Recorded? || p.Ready?
  }

  /** Row k was reserved by a dispatch of the run with room at that place. */
  ghost predicate ReservedBy(reqs: seq<Request>, rows: seq<Row>, run: RunId, k: nat, i: nat)
    requires k < |rows|
  {
    i < |reqs| && reqs[i].run == run && reqs[i].node == rows[k].node
      && Admits(reqs[i].budget, UsedCalls(rows[..k + 1], run))
  }

  ghost predicate RowsAdmitted(reqs: seq<Request>, rows: seq<Row>, run: RunId) {
    forall k | 0 <= k < |rows| && rows[k].run == run && !rows[k].released ::
      exists i :: ReservedBy(reqs, rows, run, k, i)
  }

  ghost predicate DurableKept(reqs: seq<Request>, s: Sys, run: RunId) {
    && |s.phases| == |reqs|
    && (run in s.db.budgets ==>
          exists f :: 0 <= f < |reqs| && reqs[f].run == run && reqs[f].budget == s.db.budgets[run])
    && (forall i | 0 <= i < |reqs| && s.phases[i].Measured? :: s.phases[i].calls >= 0 && s.phases[i].seconds >= 0.0)
    && (forall i | 0 <= i < |reqs| && reqs[i].run == run && Passed(s.phases[i]) ::
          run in s.db.budgets && Positive(s.db.budgets[run]))
    && (forall k | 0 <= k < |s.db.rows| && s.db.rows[k].run == run ::
          run in s.db.budgets && Positive(s.db.budgets[run]))
  }

  lemma {:induction false} UsedAreNotNegative(rows: seq<Row>, run: RunId)
    requires OneCallRows(rows) && NoNegative(rows)
    ensures UsedCalls(rows, run) >= 0 && UsedSeconds(rows, run) >= 0.0
  {
    if rows != [] {
      UsedAreNotNegative(rows[..|rows| - 1], run);
    }
  }

  lemma {:induction false} ReleasedPrefix(rows: seq<Row>, run: RunId, node: NodeId, n: nat)
    requires n <= |rows|
    ensures |MarkReleased(rows, run, node)| == |rows|
    ensures MarkReleased(rows, run, node)[..n] == MarkReleased(rows[..n], run, node)
    decreases |rows|
  {
    MarkReleasedRows(rows, run, node);
    MarkReleasedRows(rows[..n], run, node);
  }

  lemma {:induction false} SecondsPrefix(rows: seq<Row>, run: RunId, node: NodeId, seconds: real, n: nat)
    requires n <= |rows|
    ensures |SetSeconds(rows, run, node, seconds)| == |rows|
    ensures SetSeconds(rows, run, node, seconds)[..n] == SetSeconds(rows[..n], run, node, seconds)
  {
    SetSecondsRows(rows, run, node, seconds);
    SetSecondsRows(rows[..n], run, node, seconds);
  }

  /** A reservation keeps its room when it is kept and no more calls count before it. */
  lemma StaysReserved(reqs: seq<Request>, rows: seq<Row>, rows': seq<Row>, run: RunId, k: nat)
    requires RowsAdmitted(reqs, rows, run) && k < |rows| && k < |rows'|
    requires rows[k].run == run && !rows[k].released && rows'[k].node == rows[k].node
    requires UsedCalls(rows'[..k + 1], run) <= UsedCalls(rows[..k + 1], run)
    ensures exists i :: ReservedBy(reqs, rows', run, k, i)
  {
    hide UsedCalls;
    var i :| ReservedBy(reqs, rows, run, k, i);
    assert ReservedBy(reqs, rows', run, k, i);
  }

  lemma {:induction false} PrefixOneCall(rows: seq<Row>, n: nat)
    requires OneCallRows(rows) && n <= |rows|
    ensures OneCallRows(rows[..n])
  {}

  lemma ReleaseKeepsAdmitted(reqs: seq<Request>, rows: seq<Row>, run: RunId, of: RunId, node: NodeId)
    requires RowsAdmitted(reqs, rows, run) && OneCallRows(rows) && NoNegative(rows)
    ensures RowsAdmitted(reqs, MarkReleased(rows, of, node), run) && NoNegative(MarkReleased(rows, of, node))
  {
    var rows' := MarkReleased(rows, of, node);
    MarkReleasedRows(rows, of, node);
    hide UsedCalls, MarkReleased, OneCallRows, ReservedBy;
    forall k | 0 <= k < |rows'| && rows'[k].run == run && !rows'[k].released
      ensures exists i :: ReservedBy(reqs, rows', run, k, i)
    {
      ReleasedPrefix(rows, of, node, k + 1);
      PrefixOneCall(rows, k + 1);
      ReleaseReturnsOne(rows[..k + 1], of, node, run);
      StaysReserved(reqs, rows, rows', run, k);
    }
  }

  lemma SecondsKeepAdmitted(reqs: seq<Request>, rows: seq<Row>, run: RunId, of: RunId, node: NodeId, seconds: real)
    requires RowsAdmitted(reqs, rows, run) && NoNegative(rows) && seconds >= 0.0
    ensures RowsAdmitted(reqs, SetSeconds(rows, of, node, seconds), run)
            && NoNegative(SetSeconds(rows, of, node, seconds))
  {
    var rows' := SetSeconds(rows, of, node, seconds);
    SetSecondsRows(rows, of, node, seconds);
    hide UsedCalls, SetSeconds, ReservedBy;
    forall k | 0 <= k < |rows'| && rows'[k].run == run && !rows'[k].released
      ensures exists i :: ReservedBy(reqs, rows', run, k, i)
    {
      SecondsPrefix(rows, of, node, seconds, k + 1);
      SecondsLeaveCalls(rows[..k + 1], of, node, seconds, run);
      StaysReserved(reqs, rows, rows', run, k);
    }
  }

  lemma InsertKeepsAdmitted(reqs: seq<Request>, rows: seq<Row>, run: RunId, i: nat)
    requires RowsAdmitted(reqs, rows, run) && OneCallRows(rows) && NoNegative(rows)
    requires i < |reqs| && Fits(rows, reqs[i].run, 1, 0.0, reqs[i].budget)
    ensures var rows' := rows + [Row(reqs[i].run, reqs[i].node, 1, 0.0, false)];
            RowsAdmitted(reqs, rows', run) && NoNegative(rows')
  {
    var row := Row(reqs[i].run, reqs[i].node, 1, 0.0, false);
    var rows' := rows + [row];
    UsedAreNotNegative(rows, reqs[i].run);
    UsedAfterInsert(rows, row, run);
    hide UsedCalls, UsedSeconds, OneCallRows;
    assert rows'[..|rows| + 1] == rows';
    forall k | 0 <= k < |rows'| && rows'[k].run == run && !rows'[k].released
      ensures exists j :: ReservedBy(reqs, rows', run, k, j)
    {
      if k < |rows| {
        assert rows'[..k + 1] == rows[..k + 1];
        StaysReserved(reqs, rows, rows', run, k);
      } else {
        assert ReservedBy(reqs, rows', run, k, i);
      }
    }
  }

  /** How one transaction changes the reservations: not at all, by the granted one, a
      release, or the seconds of one. */
  lemma AdvanceRowsForm(req: Request, db: Db, p: Phase, luck: Luck)
    ensures var rows, rows' := db.rows, Advance(req, db, p, luck).0.rows;
            || rows' == rows
            || (p.Ready? && Fits(rows, req.run, 1, 0.0, req.budget)
                && rows' == rows + [Row(req.run, req.node, 1, 0.0, false)])
            || rows' == MarkReleased(rows, req.run, req.node)
            || rows' == SetSeconds(rows, req.run, req.node, if luck.elapsed < 0.0 then 0.0 else luck.elapsed)
  {
    hide UsedCalls, UsedSeconds, MarkReleased, SetSeconds, HasRow, Fits, WithinDurable;
  }

  /** Every transaction keeps each reservation's room. */
  lemma StepKeepsAdmitted(reqs: seq<Request>, s: Sys, e: Event, run: RunId)
    requires |s.phases| == |reqs| && RowsAdmitted(reqs, s.db.rows, run) && OneCallRows(s.db.rows)
             && NoNegative(s.db.rows)
    ensures var rows := Step(reqs, s, e).db.rows; RowsAdmitted(reqs, rows, run) && OneCallRows(rows) && NoNegative(rows)
  {
    hide UsedCalls, UsedSeconds, MarkReleased, SetSeconds, HasRow, Fits, OneCallRows, RowsAdmitted, NoNegative, Advance;
    if e.Go? && e.i < |reqs| {
      var req, rows, p := reqs[e.i], s.db.rows, s.phases[e.i];
      var seconds := if e.luck.elapsed < 0.0 then 0.0 else e.luck.elapsed;
      AdvanceRows(req, s.db, p, e.luck, run);
      AdvanceRowsForm(req, s.db, p, e.luck);
      ReleaseKeepsAdmitted(reqs, rows, run, req.run, req.node);
      SecondsKeepAdmitted(reqs, rows, run, req.run, req.node, seconds);
      if Fits(rows, req.run, 1, 0.0, req.budget) {
        InsertKeepsAdmitted(reqs, rows, run, e.i);
      }
    }
  }

  /** What one transaction does to a dispatch's standing with the durable budget. */
  lemma AdvanceDurable(req: Request, db: Db, p: Phase, luck: Luck)
    requires UsedCalls(db.rows, req.run) >= 0 && UsedSeconds(db.rows, req.run) >= 0.0
    ensures var (db', p') := Advance(req, db, p, luck);
            && (forall run | run in db.budgets :: run in db'.budgets && db'.budgets[run] == db.budgets[run])
            && (forall run | run in db'.budgets && run !in db.budgets ::
                  run == req.run && db'.budgets[run] == req.budget)
            && (p'.Measured? && p' != p ==> p'.calls >= 0 && p'.seconds >= 0.0)
            && (Passed(p') ==> Passed(p) || (p.Measured? && req.run in db'.budgets &&
                                             WithinDurable(db'.budgets[req.run], p.calls, p.seconds)))
  {
    hide UsedCalls, UsedSeconds, MarkReleased, SetSeconds, HasRow, Fits, WithinDurable;
  }

  lemma AdvanceRuns(req: Request, db: Db, p: Phase, luck: Luck)
    ensures var rows, rows' := db.rows, Advance(req, db, p, luck).0.rows;
            && |rows'| >= |rows| && (|rows'| > |rows| ==> p.Ready?)
            && forall k | 0 <= k < |rows'| :: rows'[k].run == if k < |rows| then rows[k].run else req.run
  {
    AdvanceRowsForm(req, db, p, luck);
    MarkReleasedRows(db.rows, req.run, req.node);
    SetSecondsRows(db.rows, req.run, req.node, if luck.elapsed < 0.0 then 0.0 else luck.elapsed);
    hide Advance, MarkReleased, SetSeconds, Fits;
  }

  lemma StepKeepsDurable(reqs: seq<Request>, s: Sys, e: Event, run: RunId)
    requires DurableKept(reqs, s, run) && OneCallRows(s.db.rows) && NoNegative(s.db.rows)
    ensures DurableKept(reqs, Step(reqs, s, e), run)
  {
    if e.Go? && e.i < |reqs| {
      UsedAreNotNegative(s.db.rows, reqs[e.i].run);
      AdvanceDurable(reqs[e.i], s.db, s.phases[e.i], e.luck);
      AdvanceRuns(reqs[e.i], s.db, s.phases[e.i], e.luck);
      hide Advance, OneCallRows, NoNegative;
    }
  }

  lemma {:induction false} RunKeepsDurable(reqs: seq<Request>, events: seq<Event>, run: RunId)
    ensures var s := Run(reqs, events);
            DurableKept(reqs, s, run) && RowsAdmitted(reqs, s.db.rows, run) && OneCallRows(s.db.rows)
              && NoNegative(s.db.rows)
    decreases |events|
  {
    if events != [] {
      var before := Run(reqs, events[..|events| - 1]);
      RunKeepsDurable(reqs, events[..|events| - 1], run);
      StepKeepsDurable(reqs, before, events[|events| - 1], run);
      StepKeepsAdmitted(reqs, before, events[|events| - 1], run);
      hide Step, DurableKept, RowsAdmitted, OneCallRows, NoNegative;
    }
  }

  /** The unreleased reservations of a run, in order, are a queue. */
  lemma {:induction false} ReservationsQueue(reqs: seq<Request>, rows: seq<Row>, run: RunId) returns (queue: seq<nat>)
    requires RowsAdmitted(reqs, rows, run) && OneCallRows(rows)
    ensures Queue(reqs, run, queue) && |queue| == UsedCalls(rows, run)
    ensures forall q | 0 <= q < |queue| ::
              exists k :: 0 <= k < |rows| && rows[k].run == run && rows[k].node == reqs[queue[q]].node
  {
    queue := [];
    if rows != [] {
      var n := |rows| - 1;
      var front := rows[..n];
      forall k | 0 <= k < n && front[k].run == run && !front[k].released
        ensures exists i :: ReservedBy(reqs, front, run, k, i)
      {
        var i :| ReservedBy(reqs, rows, run, k, i);
        assert front[..k + 1] == rows[..k + 1];
        assert ReservedBy(reqs, front, run, k, i);
      }
      queue := ReservationsQueue(reqs, front, run);
      if rows[n].run == run && !rows[n].released {
        var i :| ReservedBy(reqs, rows, run, n, i);
        assert rows[..n + 1] == rows;
        forall q | 0 <= q < |queue| ensures queue[q] != i {
          var k :| 0 <= k < |front| && front[k].run == run && front[k].node == reqs[queue[q]].node;
          assert rows[k].node != rows[n].node;
        }
        queue := queue + [i];
      }
      hide OneCallRows, RowsAdmitted;
    }
  }

  /** A run that ever overspends its durable budget had the envelopes for it. */
  lemma OverspentHadQueue(reqs: seq<Request>, events: seq<Event>, run: RunId, limit: nat)
    requires Overspent(Run(reqs, events), run, limit)
    ensures CanOverspend(reqs, run, limit)
  {
    RunKeepsDurable(reqs, events, run);
    var s := Run(reqs, events);
    var queue := ReservationsQueue(reqs, s.db.rows, run);
    var first :| 0 <= first < |reqs| && reqs[first].run == run && reqs[first].budget == s.db.budgets[run];
    var k :| 0 <= k < |s.db.rows| && s.db.rows[k].run == run && s.db.rows[k].node == reqs[queue[0]].node;
    assert StartsQueue(reqs, run, limit, first, queue[..limit + 1]);
  }

  // ---- Such a queue overspends the run

  /** The first of the run has measured and recorded its budget; every other dispatch
      of the list was judged by it, and nothing is reserved. */
  ghost predicate AllJudged(reqs: seq<Request>, s: Sys, run: RunId, first: nat, judged: set<nat>) {
    && |s.phases| == |reqs| && first < |reqs|
    && (forall i | i in judged :: i < |reqs| && s.phases[i] == Judged(true))
    && (forall i | 0 <= i < |reqs| && i !in judged :: s.phases[i].Begin? && reqs[i].message !in s.db.replay)
    && s.db.rows == [] && s.db.lease.None? && s.db.cancelled == {}
    && s.db.budgets == if judged == {} then map[] else map[run := reqs[first].budget]
  }

  lemma RunThree(reqs: seq<Request>, events: seq<Event>, e: Event)
    ensures Run(reqs, events + [e, e, e]) == Step(reqs, Step(reqs, Step(reqs, Run(reqs, events), e), e), e)
  {
    hide Step;
    var one, two, all := events + [e], events + [e, e], events + [e, e, e];
    assert one[..|one| - 1] == events && two[..|two| - 1] == one && all[..|all| - 1] == two;
    assert Run(reqs, one) == Step(reqs, Run(reqs, events), e);
    assert Run(reqs, two) == Step(reqs, Run(reqs, one), e);
  }

  /** Claim, measure and be judged, one after the other. */
  lemma ThreeSteps(reqs: seq<Request>, s: Sys, run: RunId, first: nat, judged: set<nat>, i: nat)
    requires OwnIds(reqs) && AllJudged(reqs, s, run, first, judged) && i < |reqs| && i !in judged && reqs[i].run == run
    requires reqs[first].run == run && Positive(reqs[first].budget) && (judged == {} ==> i == first)
    ensures var e := Go(i, SMOOTH);
            AllJudged(reqs, Step(reqs, Step(reqs, Step(reqs, s, e), e), e), run, first, judged + {i})
  {
    var e := Go(i, SMOOTH);
    var req := reqs[i];
    var db1 := s.db.(replay := s.db.replay[req.message := Claim(req.hash, None)]);
    var db3 := RecordBudget(db1, run, req.budget);
    assert UsedCalls([], run) == 0 && UsedSeconds([], run) == 0.0;
    assert Advance(req, s.db, Begin, SMOOTH) == (db1, Claimed);
    assert Advance(req, db1, Claimed, SMOOTH) == (db1, Measured(0, 0.0));
    assert db3.budgets == map[run := reqs[first].budget];
    assert Advance(req, db1, Measured(0, 0.0), SMOOTH) == (db3, Judged(true));
    var s1 := Step(reqs, s, e);
    var s2 := Step(reqs, s1, e);
    var s3 := Step(reqs, s2, e);
    hide Advance, UsedCalls, UsedSeconds, RecordBudget;
    assert s3.db == db3 && s3.phases == s.phases[i := Claimed][i := Measured(0, 0.0)][i := Judged(true)];
    forall j | 0 <= j < |reqs| && j != i ensures reqs[j].message != req.message {}
  }

  lemma {:induction false} JudgeAll(reqs: seq<Request>, run: RunId, first: nat, queue: seq<nat>)
    returns (events: seq<Event>, judged: set<nat>)
    requires OwnIds(reqs) && first < |reqs| && reqs[first].run == run && Positive(reqs[first].budget)
    requires forall q | 0 <= q < |queue| :: queue[q] < |reqs| && reqs[queue[q]].run == run
    ensures first in judged && (forall q | 0 <= q < |queue| :: queue[q] in judged)
    ensures AllJudged(reqs, Run(reqs, events), run, first, judged)
  {
    hide Step;
    var i := if queue == [] then first else queue[|queue| - 1];
    if queue == [] {
      events, judged := [], {};
      assert AllJudged(reqs, Run(reqs, []), run, first, {});
    } else {
      events, judged := JudgeAll(reqs, run, first, queue[..|queue| - 1]);
    }
    if i !in judged {
      hide Run, AllJudged;
      RunThree(reqs, events, Go(i, SMOOTH));
      ThreeSteps(reqs, Run(reqs, events), run, first, judged, i);
      events, judged := events + [Go(i, SMOOTH), Go(i, SMOOTH), Go(i, SMOOTH)], judged + {i};
    }
  }

  /** The reservations of the first q dispatches of the queue. */
  function Served(reqs: seq<Request>, run: RunId, queue: seq<nat>): seq<Row>
    requires forall q | 0 <= q < |queue| :: queue[q] < |reqs|
  {
    seq(|queue|, q requires 0 <= q < |queue| => Row(run, reqs[queue[q]].node, 1, 0.0, false))
  }

  lemma {:induction false} ServedUse(reqs: seq<Request>, run: RunId, queue: seq<nat>)
    requires forall q | 0 <= q < |queue| :: queue[q] < |reqs|
    ensures UsedCalls(Served(reqs, run, queue), run) == |queue| && UsedSeconds(Served(reqs, run, queue), run) == 0.0
  {
    if queue != [] {
      var front := queue[..|queue| - 1];
      ServedUse(reqs, run, front);
      assert Served(reqs, run, queue)[..|queue| - 1] == Served(reqs, run, front);
    }
  }

  /** A judged dispatch that nobody interrupts, with room in its own envelope, invokes
      its worker and leaves one call more. */
  lemma SmoothFromJudged(req: Request, db: Db)
    requires db.lease.None? && req.run !in db.cancelled && !HasRow(db.rows, req.run, req.node)
    requires Fits(db.rows, req.run, 1, 0.0, req.budget)
    ensures var (db', p') := Alone(req, db, Judged(true), SMOOTH);
            && p' == Done(Allowed) && db'.lease.None? && db'.cancelled == db.cancelled && db'.budgets == db.budgets
            && db'.rows == db.rows + [Row(req.run, req.node, 1, 0.0, false)]
  {
    hide Alone, Fits, UsedCalls, UsedSeconds;
    var db' := db.(decisions := db.decisions + [(req.node, true)]);
    var rows := db.rows + [Row(req.run, req.node, 1, 0.0, false)];
    AloneNext(req, db, Judged(true), SMOOTH);
    AloneNext(req, db', Recorded, SMOOTH);
    SmoothReserve(req, db');
    SmoothInvoke(req, db'.(lease := Some(req.run), rows := rows));
    SetSecondsRows(rows, req.run, req.node, 0.0);
    hide SetSeconds;
    assert forall k | 0 <= k < |db.rows| :: db.rows[k].run != req.run || db.rows[k].node != req.node;
    assert SetSeconds(rows, req.run, req.node, 0.0) == rows;
  }

  /** After the first q of the queue were served, the others still judged. */
  ghost predicate ServedSo(reqs: seq<Request>, s: Sys, run: RunId, budget: Budget, queue: seq<nat>, q: nat)
    requires q <= |queue| && forall k | 0 <= k < |queue| :: queue[k] < |reqs|
  {
    && |s.phases| == |reqs| && s.db.lease.None? && s.db.cancelled == {} && s.db.budgets == map[run := budget]
    && s.db.rows == Served(reqs, run, queue[..q]) && (forall k | q <= k < |queue| :: s.phases[queue[k]] == Judged(true))
  }

  lemma ServeNext(reqs: seq<Request>, events: seq<Event>, run: RunId, budget: Budget, queue: seq<nat>, q: nat)
    returns (more: seq<Event>)
    requires OwnIds(reqs) && Queue(reqs, run, queue) && q < |queue|
    requires ServedSo(reqs, Run(reqs, events), run, budget, queue, q)
    ensures ServedSo(reqs, Run(reqs, events + more), run, budget, queue, q + 1)
  {
    hide Run;
    var s, i := Run(reqs, events), queue[q];
    ServedUse(reqs, run, queue[..q]);
    assert !HasRow(s.db.rows, run, reqs[i].node) by {
      forall k | 0 <= k < |s.db.rows| ensures s.db.rows[k].node != reqs[i].node {
        assert queue[k] != queue[q];
      }
    }
    SmoothFromJudged(reqs[i], s.db);
    more := AloneRuns(reqs, events, i, SMOOTH);
    hide Alone, UsedCalls, UsedSeconds, HasRow, Fits;
    assert Served(reqs, run, queue[..q]) + [Row(run, reqs[i].node, 1, 0.0, false)] == Served(reqs, run, queue[..q + 1]);
    forall k | q + 1 <= k < |queue| ensures queue[k] != i {}
  }

  lemma {:induction false} ServeAll(reqs: seq<Request>, events: seq<Event>, run: RunId, budget: Budget, queue: seq<nat>,
                                    q: nat)
    returns (all: seq<Event>)
    requires OwnIds(reqs) && Queue(reqs, run, queue) && q <= |queue|
    requires ServedSo(reqs, Run(reqs, events), run, budget, queue, q)
    ensures ServedSo(reqs, Run(reqs, all), run, budget, queue, |queue|)
    decreases |queue| - q
  {
    hide Run, ServedSo, Queue;
    if q == |queue| {
      all := events;
    } else {
      var more := ServeNext(reqs, events, run, budget, queue, q);
      all := ServeAll(reqs, events + more, run, budget, queue, q + 1);
    }
  }

  lemma QueueOverspends(reqs: seq<Request>, run: RunId, limit: nat, first: nat, queue: seq<nat>)
    returns (events: seq<Event>)
    requires OwnIds(reqs) && StartsQueue(reqs, run, limit, first, queue)
    ensures Overspent(Run(reqs, events), run, limit)
  {
    hide Run;
    var before, judged := JudgeAll(reqs, run, first, queue);
    assert queue[..0] == [];
    assert ServedSo(reqs, Run(reqs, before), run, reqs[first].budget, queue, 0);
    events := ServeAll(reqs, before, run, reqs[first].budget, queue, 0);
    assert queue[..|queue|] == queue;
    ServedUse(reqs, run, queue);
  }

  /** Some interleaving overspends a run's durable call budget if and only if some
      envelope of the run declares that budget, and one call more than it allows
      finds room, each in its own envelope, one after the other. */
  lemma OverspendIff(reqs: seq<Request>, run: RunId, limit: nat)
    requires OwnIds(reqs)
    ensures (exists events :: Overspent(Run(reqs, events), run, limit)) <==> CanOverspend(reqs, run, limit)
  {
    hide Run, Overspent, StartsQueue;
    if events :| Overspent(Run(reqs, events), run, limit) {
      OverspentHadQueue(reqs, events, run, limit);
    }
    if CanOverspend(reqs, run, limit) {
      var first, queue :| StartsQueue(reqs, run, limit, first, queue);
      var events := QueueOverspends(reqs, run, limit, first, queue);
    }
  }

  /** More than `limit` dispatches with room for all, one of which declares `limit`, is enough. */
  lemma DifferentLimitsOverspend(reqs: seq<Request>, run: RunId, limit: nat, first: nat)
    requires OwnIds(reqs) && |reqs| > limit && first < |reqs|
    requires reqs[first].budget.calls == Some(limit) && Positive(reqs[first].budget)
    requires forall i | 0 <= i < |reqs| && i != first :: reqs[i].run == run && Admits(reqs[i].budget, limit + 1)
    requires reqs[first].run == run
    ensures exists events :: Overspent(Run(reqs, events), run, limit)
  {
    hide Run, Overspent, OwnIds;
    var queue: seq<nat> := seq(limit + 1, q requires 0 <= q < limit + 1 =>
                                            if q == 0 then first else if q <= first then q - 1 else q);
    assert StartsQueue(reqs, run, limit, first, queue);
    hide StartsQueue;
    OverspendIff(reqs, run, limit);
  }

  /** Once a run's durable call budget is known, no continuation overspends it when
      every envelope of the run declares at most as much. */
  lemma DurableCallBudget(reqs: seq<Request>, events: seq<Event>, more: seq<Event>, run: RunId)
    requires run in Run(reqs, events).db.budgets && Run(reqs, events).db.budgets[run].calls.Some?
    requires Declares(reqs, run, Run(reqs, events).db.budgets[run].calls.value)
    ensures var limit := Run(reqs, events).db.budgets[run].calls.value;
            var s := Run(reqs, events + more);
            && run in s.db.budgets && s.db.budgets[run].calls == Some(limit)
            && InvokedIn(reqs, s.invoked, run) <= UsedCalls(s.db.rows, run) <= (if limit < 0 then 0 else limit)
  {
    var limit := Run(reqs, events).db.budgets[run].calls.value;
    DurableBudgetStays(reqs, events, more, run);
    CallBudget(reqs, events + more, run, if limit < 0 then 0 else limit);
  }
}
