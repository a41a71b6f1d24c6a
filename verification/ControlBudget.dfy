/** Call budgets: what reservations bound, and what they do not. */
module ControlBudget {
  import opened Options
  import opened ControlSpec
  import opened ControlProofs

  // ---- The reservations table

  predicate OneCallRows(rows: seq<Row>) {
    && (forall i | 0 <= i < |rows| :: rows[i].calls == 1)
    && (forall i, j | 0 <= i < j < |rows| :: rows[i].run != rows[j].run || rows[i].node != rows[j].node)
  }

  lemma {:induction false} MarkReleasedRows(rows: seq<Row>, run: RunId, node: NodeId)
    ensures var r := MarkReleased(rows, run, node);
            |r| == |rows| && forall i | 0 <= i < |rows| ::
              r[i] == if rows[i].run == run && rows[i].node == node then rows[i].(released := true) else rows[i]
  {
    if rows != [] {
      MarkReleasedRows(rows[..|rows| - 1], run, node);
    }
  }

  lemma {:induction false} SetSecondsRows(rows: seq<Row>, run: RunId, node: NodeId, seconds: real)
    ensures var r := SetSeconds(rows, run, node, seconds);
            |r| == |rows| && forall i | 0 <= i < |rows| ::
              r[i] == if rows[i].run == run && rows[i].node == node && !rows[i].released
                      then rows[i].(seconds := seconds) else rows[i]
  {
    if rows != [] {
      SetSecondsRows(rows[..|rows| - 1], run, node, seconds);
    }
  }

  /** The run's rows that are not released, in order. */
  function Unreleased(rows: seq<Row>, run: RunId): seq<Row> {
    if rows == [] then []
    else
      var n := |rows| - 1;
      if rows[n].run != run || rows[n].released then Unreleased(rows[..n], run)
      else Unreleased(rows[..n], run) + [rows[n]]
  }

  function Total(rows: seq<Row>): (int, real) {
    if rows == [] then (0, 0.0)
    else
      var (calls, seconds) := Total(rows[1..]);
      (rows[0].calls + calls, rows[0].seconds + seconds)
  }

  lemma {:induction false} TotalMore(rows: seq<Row>, row: Row)
    ensures Total(rows + [row]) == (Total(rows).0 + row.calls, Total(rows).1 + row.seconds)
  {
    if rows == [] {
      assert [row][1..] == [] && rows + [row] == [row];
    } else {
      assert (rows + [row])[1..] == rows[1..] + [row];
      TotalMore(rows[1..], row);
    }
  }

  lemma {:induction false} TotalOfUnreleased(rows: seq<Row>, run: RunId)
    ensures Total(Unreleased(rows, run)) == (UsedCalls(rows, run), UsedSeconds(rows, run))
  {
    if rows != [] {
      var n := |rows| - 1;
      TotalOfUnreleased(rows[..n], run);
      TotalMore(Unreleased(rows[..n], run), rows[n]);
      hide Total;
    }
  }

  lemma {:induction false} TimesUnreleased(rows: seq<Row>, run: RunId, row: Row)
    ensures multiset(Unreleased(rows, run))[row] ==
            if row.run == run && !row.released then multiset(rows)[row] else 0
  {
    if rows != [] {
      var n := |rows| - 1;
      TimesUnreleased(rows[..n], run, row);
      assert rows == rows[..n] + [rows[n]];
    }
  }

  /** What is used of a run is the total over exactly its unreleased rows. */
  lemma UsedIsTotal(rows: seq<Row>, run: RunId)
    ensures Total(Unreleased(rows, run)) == (UsedCalls(rows, run), UsedSeconds(rows, run))
    ensures forall row :: multiset(Unreleased(rows, run))[row] ==
                          if row.run == run && !row.released then multiset(rows)[row] else 0
  {
    TotalOfUnreleased(rows, run);
    hide *;
    forall row
      ensures multiset(Unreleased(rows, run))[row] ==
              if row.run == run && !row.released then multiset(rows)[row] else 0
    {
      TimesUnreleased(rows, run, row);
    }
  }

  /** Observed seconds leave every run's call count as it was. */
  lemma {:induction false} SecondsLeaveCalls(rows: seq<Row>, run: RunId, node: NodeId, seconds: real, r: RunId)
    ensures UsedCalls(SetSeconds(rows, run, node, seconds), r) == UsedCalls(rows, r)
  {
    if rows != [] {
      SecondsLeaveCalls(rows[..|rows| - 1], run, node, seconds, r);
      assert SetSeconds(rows, run, node, seconds)[..|rows| - 1]
             == SetSeconds(rows[..|rows| - 1], run, node, seconds) by {
        SetSecondsRows(rows[..|rows| - 1], run, node, seconds);
      }
    }
  }

  lemma {:induction false} ReleaseOther(rows: seq<Row>, run: RunId, node: NodeId, r: RunId)
    requires r != run || !HasRow(rows, run, node)
    ensures UsedCalls(MarkReleased(rows, run, node), r) == UsedCalls(rows, r)
  {
    if rows != [] {
      ReleaseOther(rows[..|rows| - 1], run, node, r);
      MarkReleasedRows(rows[..|rows| - 1], run, node);
      assert MarkReleased(rows, run, node)[..|rows| - 1] == MarkReleased(rows[..|rows| - 1], run, node);
    }
  }

  /** A release takes back at most the one call it reserved. */
  lemma {:induction false} ReleaseReturnsOne(rows: seq<Row>, run: RunId, node: NodeId, r: RunId)
    requires OneCallRows(rows)
    ensures var after := UsedCalls(MarkReleased(rows, run, node), r);
            UsedCalls(rows, r) - (if r == run then 1 else 0) <= after <= UsedCalls(rows, r)
  {
    if rows != [] {
      var front, last := rows[..|rows| - 1], rows[|rows| - 1];
      MarkReleasedRows(front, run, node);
      assert MarkReleased(rows, run, node)[..|rows| - 1] == MarkReleased(front, run, node);
      if last.run == run && last.node == node {
        ReleaseOther(front, run, node, r);
      } else {
        ReleaseReturnsOne(front, run, node, r);
      }
    }
  }

  lemma UsedAfterInsert(rows: seq<Row>, row: Row, r: RunId)
    ensures UsedCalls(rows + [row], r) == UsedCalls(rows, r) + if row.run == r && !row.released then row.calls else 0
  {
    assert (rows + [row])[..|rows|] == rows;
  }

  // ---- One step

  /** Every envelope of the run declares a call limit of at most `limit`. */
  predicate Declares(reqs: seq<Request>, run: RunId, limit: int) {
    forall i | 0 <= i < |reqs| && reqs[i].run == run ::
        reqs[i].budget.calls.Some? && reqs[i].budget.calls.value <= limit
  }

  /** What one transaction does to the reservations. */
  lemma AdvanceRows(req: Request, db: Db, p: Phase, luck: Luck, r: RunId)
    requires OneCallRows(db.rows)
    ensures var (db', p') := Advance(req, db, p, luck);
            && OneCallRows(db'.rows)
            && (p.Ready? && p'.Reserved? ==>
                  && UsedCalls(db'.rows, r) == UsedCalls(db.rows, r) + (if r == req.run then 1 else 0)
                  && Fits(db.rows, req.run, 1, 0.0, req.budget))
            && (p.Cancelling? || p.Expiring? ==>
                  UsedCalls(db.rows, r) - (if r == req.run then 1 else 0)
                  <= UsedCalls(db'.rows, r) <= UsedCalls(db.rows, r))
            && (!(p.Ready? && p'.Reserved?) && !p.Cancelling? && !p.Expiring? ==>
                UsedCalls(db'.rows, r) == UsedCalls(db.rows, r))
  {
    hide UsedCalls, MarkReleased, SetSeconds, UsedSeconds;
    var rows := db.rows;
    var seconds := if luck.elapsed < 0.0 then 0.0 else luck.elapsed;
    OneCallAfterInsert(rows, req.run, req.node);
    UsedAfterInsert(rows, Row(req.run, req.node, 1, 0.0, false), r);
    OneCallAfterUpdates(rows, req.run, req.node, seconds);
    ReleaseReturnsOne(rows, req.run, req.node, r);
    SecondsLeaveCalls(rows, req.run, req.node, seconds, r);
    hide OneCallRows, HasRow;
  }

  lemma OneCallAfterInsert(rows: seq<Row>, run: RunId, node: NodeId)
    requires OneCallRows(rows)
    ensures HasRow(rows, run, node) || OneCallRows(rows + [Row(run, node, 1, 0.0, false)])
  {}

  lemma OneCallAfterUpdates(rows: seq<Row>, run: RunId, node: NodeId, seconds: real)
    requires OneCallRows(rows)
    ensures OneCallRows(MarkReleased(rows, run, node)) && OneCallRows(SetSeconds(rows, run, node, seconds))
  {
    MarkReleasedRows(rows, run, node);
    SetSecondsRows(rows, run, node, seconds);
  }

  // ---- Every interleaving

  function InvokedIn(reqs: seq<Request>, invoked: seq<nat>, run: RunId): nat {
    if invoked == [] then 0 else
      var last := invoked[|invoked| - 1];
      InvokedIn(reqs, invoked[..|invoked| - 1], run) + if last < |reqs| && reqs[last].run == run then 1 else 0
  }

  /** A call is reserved and its worker not yet invoked. */
  predicate Charged(p: Phase) {
    p.Reserved? || p.Cancelling? || p.Expiring? || p.Armed?
  }

  function Charge(req: Request, p: Phase, run: RunId): nat {
    if Charged(p) && req.run == run then 1 else 0
  }

  /** The call that the lease's holder has reserved and not yet used. */
  function Pending(reqs: seq<Request>, s: Sys, run: RunId): nat
    requires |s.phases| == |reqs|
  {
    if s.owner.Some? && s.owner.value < |reqs| then Charge(reqs[s.owner.value], s.phases[s.owner.value], run) else 0
  }

  ghost predicate CallsKept(reqs: seq<Request>, s: Sys, run: RunId) {
    && LeaseKept(reqs, s)
    && OneCallRows(s.db.rows)
    && InvokedIn(reqs, s.invoked, run) + Pending(reqs, s, run) <= UsedCalls(s.db.rows, run)
  }

  lemma InvokedAfter(reqs: seq<Request>, invoked: seq<nat>, i: nat, run: RunId)
    ensures InvokedIn(reqs, invoked + [i], run) ==
            InvokedIn(reqs, invoked, run) + if i < |reqs| && reqs[i].run == run then 1 else 0
  {
    assert (invoked + [i])[..|invoked|] == invoked;
  }

  /** No transaction charges or invokes more than it reserves. */
  lemma CallsMove(req: Request, db: Db, p: Phase, luck: Luck, run: RunId)
    requires OneCallRows(db.rows)
    ensures var (db', p') := Advance(req, db, p, luck);
            var invokes := if p.Armed? && p'.Running? && req.run == run then 1 else 0;
            && OneCallRows(db'.rows)
            && invokes + Charge(req, p', run) + UsedCalls(db.rows, run)
               <= Charge(req, p, run) + UsedCalls(db'.rows, run)
            && (Charged(p) ==> Holds(p)) && (Charged(p') ==> Holds(p'))
  {
    AdvanceRows(req, db, p, luck, run);
    hide OneCallRows, UsedCalls, UsedSeconds, MarkReleased, SetSeconds, HasRow, Fits;
  }

  /** How the lease's owner changes in a step of dispatch i. */
  lemma OwnerMoves(reqs: seq<Request>, s: Sys, e: Event)
    requires LeaseKept(reqs, s) && e.Go? && e.i < |reqs|
    ensures var i, s' := e.i, Step(reqs, s, e);
            && |s'.phases| == |reqs| && (forall j | 0 <= j < |reqs| && j != i :: s'.phases[j] == s.phases[j])
            && (Holds(s.phases[i]) ==>
                  s.owner == Some(i) && (s'.owner == Some(i) || (s'.owner.None? && !Holds(s'.phases[i]))))
            && (!Holds(s.phases[i]) && Holds(s'.phases[i]) ==> s.owner.None? && s'.owner == Some(i))
            && (!Holds(s.phases[i]) && !Holds(s'.phases[i]) ==> s'.owner == s.owner)
  {
    AdvanceLease(reqs[e.i], s.db, s.phases[e.i], e.luck);
    hide Advance;
  }

  lemma PendingMoves(reqs: seq<Request>, s: Sys, e: Event, run: RunId)
    requires LeaseKept(reqs, s) && OneCallRows(s.db.rows) && e.Go? && e.i < |reqs|
    ensures var s' := Step(reqs, s, e);
            |s'.phases| == |reqs| &&
            Pending(reqs, s', run) + Charge(reqs[e.i], s.phases[e.i], run) ==
            Pending(reqs, s, run) + Charge(reqs[e.i], s'.phases[e.i], run)
  {
    OwnerMoves(reqs, s, e);
    CallsMove(reqs[e.i], s.db, s.phases[e.i], e.luck, run);
    hide Advance, LeaseKept, OneCallRows, UsedCalls, Charged, Holds;
  }

  lemma StepKeepsCalls(reqs: seq<Request>, s: Sys, e: Event, run: RunId)
    requires CallsKept(reqs, s, run)
    ensures CallsKept(reqs, Step(reqs, s, e), run)
  {
    StepKeepsLease(reqs, s, e);
    hide LeaseKept, OneCallRows, UsedCalls, InvokedIn, Advance, Holds;
    if e.Stop? {
      hide Pending, Charge;
    }
    if e.Go? && e.i < |reqs| {
      PendingMoves(reqs, s, e, run);
      CallsMove(reqs[e.i], s.db, s.phases[e.i], e.luck, run);
      InvokedAfter(reqs, s.invoked, e.i, run);
      hide Pending, Charge;
    }
  }

  lemma StepKeepsLimit(reqs: seq<Request>, s: Sys, e: Event, run: RunId, limit: nat)
    requires |s.phases| == |reqs| && OneCallRows(s.db.rows) && Declares(reqs, run, limit)
    requires UsedCalls(s.db.rows, run) <= limit
    ensures UsedCalls(Step(reqs, s, e).db.rows, run) <= limit
  {
    if e.Go? && e.i < |reqs| {
      AdvanceRows(reqs[e.i], s.db, s.phases[e.i], e.luck, run);
    }
  }

  /** Every worker invoked in a run has its reservation, and no interleaving
      reserves, and so none invokes, more than the limit every envelope stays within. */
  lemma {:induction false} CallBudget(reqs: seq<Request>, events: seq<Event>, run: RunId, limit: nat)
    ensures CallsKept(reqs, Run(reqs, events), run)
    ensures InvokedIn(reqs, Run(reqs, events).invoked, run) <= UsedCalls(Run(reqs, events).db.rows, run)
    ensures Declares(reqs, run, limit) ==> UsedCalls(Run(reqs, events).db.rows, run) <= limit
    decreases |events|
  {
    if events != [] {
      CallBudget(reqs, events[..|events| - 1], run, limit);
      var s := Run(reqs, events[..|events| - 1]);
      StepKeepsCalls(reqs, s, events[|events| - 1], run);
      if Declares(reqs, run, limit) {
        StepKeepsLimit(reqs, s, events[|events| - 1], run, limit);
      }
    }
  }

  // ---- The durable budget

  lemma StepKeepsBudget(reqs: seq<Request>, s: Sys, e: Event, run: RunId)
    requires |s.phases| == |reqs| && run in s.db.budgets
    ensures run in Step(reqs, s, e).db.budgets && Step(reqs, s, e).db.budgets[run] == s.db.budgets[run]
  {
    hide UsedCalls, UsedSeconds, HasRow, MarkReleased, SetSeconds;
  }

  /** The first declared budget of a run stays its durable one. */
  lemma {:induction false} DurableBudgetStays(reqs: seq<Request>, events: seq<Event>, more: seq<Event>, run: RunId)
    requires run in Run(reqs, events).db.budgets
    ensures run in Run(reqs, events + more).db.budgets &&
            Run(reqs, events + more).db.budgets[run] == Run(reqs, events).db.budgets[run]
    decreases |more|
  {
    if more == [] {
      assert events + more == events;
    } else {
      var all := events + more;
      DurableBudgetStays(reqs, events, more[..|more| - 1], run);
      assert all[..|all| - 1] == events + more[..|more| - 1];
      StepKeepsBudget(reqs, Run(reqs, all[..|all| - 1]), more[|more| - 1], run);
    }
  }
}
