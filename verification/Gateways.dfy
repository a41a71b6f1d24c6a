/** The control tables' transactions and the gateway's dispatch as code. */
module Gateways {
  import opened Options
  import opened ControlSpec
  import opened ControlBudget
  import opened ControlVetting

  datatype Replay = New | Same | Other | Unavailable

  /** The workspace's control database; a failed transaction changes nothing. */
  class Control {
    var lease: Option<RunId>
    var replay: map<Msg, Claim>
    var rows: seq<Row>
    var budgets: map<RunId, Budget>
    var cancelled: set<RunId>
    var decisions: seq<(NodeId, bool)>

    ghost function View(): Db
      reads this
    {
      Db(lease, replay, rows, budgets, cancelled, decisions)
    }

    constructor ()
      ensures View() == Start([]).db
    {
      lease, replay, rows, budgets, cancelled, decisions := None, map[], [], map[], {}, [];
    }

    method ClaimReplay(message: Msg, hash: Hash, fault: bool) returns (state: Replay)
      modifies this`replay
      ensures state.New? <==> !fault && message !in old(replay)
      ensures state.Same? <==> !fault && message in old(replay) && old(replay)[message].hash == hash
      ensures state.Unavailable? <==> fault
      ensures replay == if state.New? then old(replay)[message := Claim(hash, None)] else old(replay)
    {
      if fault {
        return Unavailable;
      }
      if message in replay {
        return if replay[message].hash == hash then Same else Other;
      }
      replay := replay[message := Claim(hash, None)];
      state := New;
    }

    /** SUM over the unreleased reservations; nothing when the read fails. */
    method Used(run: RunId, fault: bool) returns (calls: int, seconds: real)
      ensures calls == (if fault then 0 else UsedCalls(rows, run))
      ensures seconds == (if fault then 0.0 else UsedSeconds(rows, run))
    {
      calls, seconds := 0, 0.0;
      if fault {
        return;
      }
      for i := 0 to |rows|
        invariant calls == UsedCalls(rows[..i], run) && seconds == UsedSeconds(rows[..i], run)
      {
        assert rows[..i + 1][..i] == rows[..i];
        if rows[i].run == run && !rows[i].released {
          calls, seconds := calls + rows[i].calls, seconds + rows[i].seconds;
        }
      }
      assert rows[..|rows|] == rows;
    }

    method RecordRunBudget(run: RunId, budget: Budget, fault: bool) returns (durable: Option<Budget>)
      modifies this`budgets
      ensures fault ==> durable.None? && View() == old(View())
      ensures !fault ==> View() == RecordBudget(old(View()), run, budget) && durable == Some(budgets[run])
    {
      if fault {
        return None;
      }
      if run !in budgets {
        budgets := budgets[run := budget];
      }
      durable := Some(budgets[run]);
    }

    method RecordDecision(node: NodeId, allowed: bool, fault: bool) returns (ok: bool)
      modifies this`decisions
      ensures ok == !fault
      ensures decisions == if ok then old(decisions) + [(node, allowed)] else old(decisions)
    {
      if !fault {
        decisions := decisions + [(node, allowed)];
      }
      ok := !fault;
    }

    method IsCancelled(run: RunId, fault: bool) returns (yes: bool)
      ensures yes == (fault || run in cancelled)
    {
      yes := fault || run in cancelled;
    }

    method FindRow(run: RunId, node: NodeId) returns (found: bool)
      ensures found == HasRow(rows, run, node)
    {
      found := false;
      for i := 0 to |rows|
        invariant found == HasRow(rows[..i], run, node)
      {
        assert rows[..i + 1] == rows[..i] + [rows[i]];
        if rows[i].run == run && rows[i].node == node {
          found := true;
        }
        assert forall k | 0 <= k < i :: rows[..i + 1][k] == rows[..i][k];
        assert rows[..i + 1][i] == rows[i];
      }
      assert rows[..|rows|] == rows;
    }

    /** Lease, sum, limits and insert in one transaction; a refusal inside gives the lease back. */
    method ReserveBounded(run: RunId, node: NodeId, calls: int, seconds: real, limits: Budget)
      returns (got: Reservation)
      modifies this`lease, this`rows, this`decisions
      ensures (View(), got) == Reserve(old(View()), run, node, calls, seconds, limits)
      ensures got.Busy? <==> old(lease).Some?
      ensures got.Granted? <==>
              && old(lease).None? && NoRowOf(old(rows), run, node)
              && (limits.calls.Some? ==> UsedCalls(old(rows), run) + calls <= limits.calls.value)
              && (limits.seconds.Some? ==> UsedSeconds(old(rows), run) + seconds <= limits.seconds.value)
      ensures rows == old(rows) + if got.Granted? then [Row(run, node, calls, seconds, false)] else []
      ensures lease == if got.Granted? then Some(run) else old(lease)
      ensures decisions == old(decisions) + if got.Busy? then [(node, false)] else []
    {
      if lease.Some? {
        decisions := decisions + [(node, false)];
        return Busy;
      }
      lease := Some(run);
      var usedCalls, usedSeconds := Used(run, false);
      if limits.calls.Some? && usedCalls + calls > limits.calls.value {
        lease := None;
        return OverBudget;
      }
      if limits.seconds.Some? && usedSeconds + seconds > limits.seconds.value {
        lease := None;
        return OverBudget;
      }
      var found := FindRow(run, node);
      if found {
        lease := None;
        return RowExists;
      }
      rows := rows + [Row(run, node, calls, seconds, false)];
      got := Granted;
    }

    method ReleaseLease(run: RunId, fault: bool)
      modifies this`lease
      ensures View() == if fault then old(View()) else DeleteLease(old(View()), run)
      ensures lease == if !fault && old(lease) == Some(run) then None else old(lease)
    {
      if !fault && lease == Some(run) {
        lease := None;
      }
    }

    method Release(run: RunId, node: NodeId, fault: bool)
      modifies this`lease, this`rows
      ensures View() == if fault then old(View()) else ReleaseAll(old(View()), run, node)
      ensures |rows| == |old(rows)| && forall i | 0 <= i < |rows| ::
                rows[i] == if !fault && old(rows)[i].run == run && old(rows)[i].node == node
                           then old(rows)[i].(released := true) else old(rows)[i]
      ensures lease == if !fault && old(lease) == Some(run) then None else old(lease)
    {
      if !fault {
        MarkReleasedRows(rows, run, node);
        rows := MarkReleased(rows, run, node);
        ReleaseLease(run, false);
      }
    }

    method CommitUsage(run: RunId, node: NodeId, seconds: real, fault: bool)
      modifies this`rows
      ensures rows == if fault then old(rows)
                      else SetSeconds(old(rows), run, node, if seconds < 0.0 then 0.0 else seconds)
      ensures |rows| == |old(rows)| && forall i | 0 <= i < |rows| ::
                rows[i] == if !fault && old(rows)[i].run == run && old(rows)[i].node == node && !old(rows)[i].released
                           then old(rows)[i].(seconds := if seconds < 0.0 then 0.0 else seconds) else old(rows)[i]
    {
      if !fault {
        SetSecondsRows(rows, run, node, if seconds < 0.0 then 0.0 else seconds);
        rows := SetSeconds(rows, run, node, if seconds < 0.0 then 0.0 else seconds);
      }
    }

    method StoreArtifact(message: Msg, hash: Hash, artifact: string, fault: bool)
      modifies this`replay
      ensures View() == if fault then old(View()) else KeepArtifact(old(View()), message, hash, artifact)
      ensures forall m | m != message ::
                (m in replay <==> m in old(replay)) && (m in replay ==> replay[m] == old(replay)[m])
      ensures message in replay <==> message in old(replay) || !fault
      ensures message in replay ==>
                replay[message] == if fault || (message in old(replay) && old(replay)[message].hash != hash)
                                   then old(replay)[message] else Claim(hash, Some(artifact))
    {
      if !fault && (message !in replay || replay[message].hash == hash) {
        replay := replay[message := Claim(hash, Some(artifact))];
      }
    }
  }

  class Gateway {
    const control: Control

    constructor (control: Control)
      ensures this.control == control
    {
      this.control := control;
    }

    /** The replay claim. */
    method ClaimMessage(req: Request, luck: Luck) returns (stop: Option<Status>)
      modifies control
      ensures stop != Some(Allowed)
      ensures Alone(req, old(control.View()), Begin, luck) ==
              Alone(req, control.View(), if stop.Some? then Done(stop.value) else Claimed, luck)
      ensures stop.None? <==> Claiming !in luck.faults && req.message !in old(control.replay)
      ensures control.replay ==
              old(control.replay) + if stop.None? then map[req.message := Claim(req.hash, None)] else map[]
      ensures control.budgets == old(control.budgets)
      ensures stop == Some(Conflict) ==> control.decisions == old(control.decisions) + [(req.node, false)]
      ensures control.rows == old(control.rows) && control.lease == old(control.lease)
      ensures control.cancelled == old(control.cancelled)
    {
      hide Alone;
      AloneNext(req, control.View(), Begin, luck);
      var state := control.ClaimReplay(req.message, req.hash, Claiming in luck.faults);
      if state == Unavailable {
        return Some(Blocked);
      }
      if state == Same {
        return Some(Duplicate);
      }
      if state == Other {
        var ok := control.RecordDecision(req.node, false, Recording in luck.faults);
        return Some(if ok then Conflict else Blocked);
      }
      stop := None;
    }

    /** Policy on the durable budget, audit and route checks. */
    method Authorize(req: Request, luck: Luck) returns (stop: Option<Status>)
      modifies control
      ensures stop != Some(Allowed)
      ensures Alone(req, old(control.View()), Claimed, luck) ==
              Alone(req, control.View(), if stop.Some? then Done(stop.value) else Recorded, luck)
      ensures control.rows == old(control.rows) && control.lease == old(control.lease)
      ensures control.cancelled == old(control.cancelled)
      ensures stop.None? <==>
              && luck.policy && luck.route && HasRoom(req, old(control.View()), luck)
              && Budgeting !in luck.faults && Recording !in luck.faults
      ensures control.replay == old(control.replay)
      ensures stop.None? ==> req.run in control.budgets && (req.node, true) in control.decisions
      ensures stop.None? && Measuring !in luck.faults ==>
                WithinDurable(control.budgets[req.run], UsedCalls(control.rows, req.run),
                              UsedSeconds(control.rows, req.run))
    {
      hide Alone, UsedCalls, UsedSeconds;
      AloneNext(req, control.View(), Claimed, luck);
      var calls, seconds := control.Used(req.run, Measuring in luck.faults);
      AloneNext(req, control.View(), Measured(calls, seconds), luck);
      var durable := control.RecordRunBudget(req.run, req.budget, Budgeting in luck.faults);
      if durable.None? {
        return Some(Blocked);
      }
      var allowed := luck.policy && WithinDurable(durable.value, calls, seconds);
      AloneNext(req, control.View(), Judged(allowed), luck);
      var ok := control.RecordDecision(req.node, allowed, Recording in luck.faults);
      if !ok {
        return Some(Blocked);
      }
      if !allowed || !luck.route {
        return Some(Denied);
      }
      stop := None;
    }

    /** The first look for a cancellation, then the reservation. */
    method Reserve(req: Request, luck: Luck) returns (stop: Option<Status>)
      modifies control
      ensures stop != Some(Allowed)
      ensures Alone(req, old(control.View()), Recorded, luck) ==
              Alone(req, control.View(), if stop.Some? then Done(stop.value) else Reserved, luck)
      ensures stop.None? <==>
              && req.run !in old(control.cancelled) && CanReserve(req, old(control.View()))
              && Checking !in luck.faults && Reserving !in luck.faults
      ensures control.replay == old(control.replay) && control.cancelled == old(control.cancelled)
      ensures stop.None? ==> NoRowOf(old(control.rows), req.run, req.node)
      ensures control.rows == old(control.rows) + if stop.None? then [Row(req.run, req.node, 1, 0.0, false)] else []
      ensures control.budgets == old(control.budgets)
      ensures stop.None? ==> old(control.lease).None? && control.lease == Some(req.run)
      ensures stop.Some? ==> control.lease == old(control.lease)
      ensures stop.None? ==> UsedCalls(control.rows, req.run) == UsedCalls(old(control.rows), req.run) + 1
    {
      hide Alone, UsedCalls, UsedSeconds, Fits, HasRow;
      ghost var before := control.rows;
      AloneNext(req, control.View(), Recorded, luck);
      var cancelled := control.IsCancelled(req.run, Checking in luck.faults);
      if cancelled {
        return Some(Cancelled);
      }
      AloneNext(req, control.View(), Ready, luck);
      if Reserving in luck.faults {
        return Some(Blocked);
      }
      GrantedIff(req, control.View());
      var got := control.ReserveBounded(req.run, req.node, 1, 0.0, req.budget);
      if got != Granted {
        return Some(Blocked);
      }
      UsedAfterInsert(before, Row(req.run, req.node, 1, 0.0, false), req.run);
      stop := None;
    }

    /** The second look for a cancellation, then the deadline. */
    method Arm(req: Request, luck: Luck, ghost before: seq<Row>) returns (stop: Option<Status>)
      requires control.lease == Some(req.run)
      requires NoRowOf(before, req.run, req.node)
      requires control.rows == before + [Row(req.run, req.node, 1, 0.0, false)]
      modifies control
      ensures stop != Some(Allowed)
      ensures Alone(req, old(control.View()), Reserved, luck) ==
              Alone(req, control.View(), if stop.Some? then Done(stop.value) else Armed, luck)
      ensures stop.None? <==>
              req.run !in old(control.cancelled) && luck.deadline.Ahead? && Rechecking !in luck.faults
      ensures control.replay == old(control.replay)
      ensures req.run !in old(control.cancelled) ==>
                control.rows == before + [Row(req.run, req.node, 1, 0.0, GivesBack(luck))]
      ensures stop.None? ==> control.View() == old(control.View())
      ensures stop.Some? && Releasing !in luck.faults ==> control.lease.None?
    {
      hide Alone, MarkReleased;
      ghost var db := control.View();
      LastChanges(before, Row(req.run, req.node, 1, 0.0, false), 0.0);
      AloneNext(req, db, Reserved, luck);
      AloneNext(req, db, Cancelling, luck);
      AloneNext(req, db, Expiring, luck);
      AloneNext(req, db, BadDeadline, luck);
      var cancelled := control.IsCancelled(req.run, Rechecking in luck.faults);
      if cancelled {
        control.Release(req.run, req.node, Releasing in luck.faults);
        return Some(Cancelled);
      }
      if luck.deadline == Expired {
        control.Release(req.run, req.node, Releasing in luck.faults);
        return Some(Denied);
      }
      if luck.deadline == Malformed {
        control.ReleaseLease(req.run, Releasing in luck.faults);
        return Some(Denied);
      }
      stop := None;
    }

    /** The worker, and its usage attached to the reservation. */
    method Invoke(req: Request, luck: Luck, ghost before: seq<Row>) returns (output: Option<string>)
      requires NoRowOf(before, req.run, req.node)
      requires control.rows == before + [Row(req.run, req.node, 1, 0.0, false)]
      modifies control`rows
      ensures output == if luck.launched then luck.output else None
      ensures control.rows == before +
              [Row(req.run, req.node, 1,
                   if luck.elapsed > 0.0 && Committing !in luck.faults then luck.elapsed else 0.0, false)]
      ensures Alone(req, old(control.View()), Armed, luck) == Alone(req, control.View(), Counted(output), luck)
      ensures UsedCalls(control.rows, req.run) == UsedCalls(old(control.rows), req.run)
    {
      hide Alone, UsedCalls, SetSeconds;
      output := if luck.launched then luck.output else None;
      LastChanges(before, Row(req.run, req.node, 1, 0.0, false), if luck.elapsed < 0.0 then 0.0 else luck.elapsed);
      AloneNext(req, control.View(), Armed, luck);
      AloneNext(req, control.View(), Running, luck);
      AloneNext(req, control.View(), Ended(output), luck);
      SecondsLeaveCalls(control.rows, req.run, req.node, if luck.elapsed < 0.0 then 0.0 else luck.elapsed, req.run);
      control.CommitUsage(req.run, req.node, luck.elapsed, Committing in luck.faults);
    }

    /** The artifact, and the lease's return. */
    method Finish(req: Request, luck: Luck, output: Option<string>)
      requires control.lease == Some(req.run)
      modifies control`replay, control`lease
      ensures Alone(req, old(control.View()), Counted(output), luck) == Alone(req, control.View(), Done(Allowed), luck)
      ensures Releasing !in luck.faults ==> control.lease.None?
      ensures control.replay == if output.Some? && Storing !in luck.faults && CanBind(old(control.replay), req)
                                then old(control.replay)[req.message := Claim(req.hash, output)]
                                else old(control.replay)
    {
      hide Alone;
      AloneNext(req, control.View(), Counted(output), luck);
      if output.Some? {
        control.StoreArtifact(req.message, req.hash, output.value, Storing in luck.faults);
      }
      AloneNext(req, control.View(), Finishing, luck);
      control.ReleaseLease(req.run, Releasing in luck.faults);
    }

    /** The armed dispatch to its end. */
    method Execute(req: Request, luck: Luck, ghost before: seq<Row>)
      requires NoRowOf(before, req.run, req.node) && control.lease == Some(req.run)
      requires control.rows == before + [Row(req.run, req.node, 1, 0.0, false)] && CanBind(control.replay, req)
      modifies control`rows, control`replay, control`lease
      ensures Alone(req, old(control.View()), Armed, luck) == Alone(req, control.View(), Done(Allowed), luck)
      ensures control.rows == before +
              [Row(req.run, req.node, 1,
                   if luck.elapsed > 0.0 && Committing !in luck.faults then luck.elapsed else 0.0, false)]
      ensures UsedCalls(control.rows, req.run) == UsedCalls(old(control.rows), req.run)
      ensures luck.launched && luck.output.Some? && Storing !in luck.faults ==>
                control.replay == old(control.replay)[req.message := Claim(req.hash, luck.output)]
      ensures !luck.launched || luck.output.None? || Storing in luck.faults ==> control.replay == old(control.replay)
      ensures Releasing !in luck.faults ==> control.lease.None?
    {
      hide Alone, UsedCalls;
      var output := Invoke(req, luck, before);
      Finish(req, luck, output);
    }

    predicate CanBind(replay: map<Msg, Claim>, req: Request) {
      req.message !in replay || replay[req.message].hash == req.hash
    }

    /** One dispatch from start to end.  Every way out leaves the lease as it was
        found, unless the releasing transaction failed; a run that respects its
        durable call budget still does afterwards.  It ends as its outcome says. */
    method Dispatch(req: Request, luck: Luck) returns (status: Status)
      modifies control
      ensures (control.View(), Done(status)) == Alone(req, old(control.View()), Begin, luck)
      ensures status == Outcome(req, old(control.View()), luck)
      ensures status == Allowed ==>
                && luck.policy && luck.route && luck.deadline.Ahead? && req.run !in old(control.cancelled)
                && req.message !in old(control.replay) && old(control.lease).None?
      ensures control.rows == old(control.rows) +
              if Reserves(req, old(control.View()), luck) then [ControlVetting.Reservation(req, luck)] else []
      ensures status == Allowed ==>
                control.replay == old(control.replay)[req.message :=
                  Claim(req.hash, if luck.launched && Storing !in luck.faults then luck.output else None)]
      ensures Releasing !in luck.faults ==> control.lease == old(control.lease)
      ensures status == Allowed && Measuring !in luck.faults ==>
                req.run in control.budgets &&
                (control.budgets[req.run].calls.Some? ==>
                   UsedCalls(control.rows, req.run) <= control.budgets[req.run].calls.value)
    {
      hide Alone, UsedCalls, UsedSeconds, HasRoom, CanReserve, Outcome, NoRowOf;
      OutcomeIs(req, control.View(), luck);
      ghost var db, before := control.View(), control.rows;
      var stop := ClaimMessage(req, luck);
      if stop.None? {
        RoomStays(req, db, control.View(), luck);
        stop := Authorize(req, luck);
      }
      if stop.None? {
        RoomIsSame(req, db, db, control.View());
        stop := Reserve(req, luck);
        if stop.None? {
          stop := Arm(req, luck, before);
        }
      }
      if stop.None? {
        Execute(req, luck, before);
        stop := Some(Allowed);
      }
      status := stop.value;
      AloneDone(req, control.View(), status, luck);
    }
  }
}
