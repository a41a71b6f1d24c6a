/** The control tables and the gateway's dispatch as a machine: every database
    transaction is one step, and any number of dispatches interleave. */
module ControlSpec {
  import opened Options

  type RunId = string
  type NodeId = string
  type Msg = string
  type Hash = string

  datatype Budget = Budget(calls: Option<int>, seconds: Option<real>)
  datatype Row = Row(run: RunId, node: NodeId, calls: int, seconds: real, released: bool)
  datatype Claim = Claim(hash: Hash, artifact: Option<string>)

  datatype Db = Db(
    lease: Option<RunId>,
    replay: map<Msg, Claim>,
    rows: seq<Row>,
    budgets: map<RunId, Budget>,
    cancelled: set<RunId>,
    decisions: seq<(NodeId, bool)>)

  // ---- Transactions

  /** The calls of a run's unreleased reservations. */
  function UsedCalls(rows: seq<Row>, run: RunId): int {
    if rows == [] then 0 else
      var last := rows[|rows| - 1];
      UsedCalls(rows[..|rows| - 1], run) + if last.run == run && !last.released then last.calls else 0
  }

  function UsedSeconds(rows: seq<Row>, run: RunId): real {
    if rows == [] then 0.0 else
      var last := rows[|rows| - 1];
      UsedSeconds(rows[..|rows| - 1], run) + if last.run == run && !last.released then last.seconds else 0.0
  }

  predicate HasRow(rows: seq<Row>, run: RunId, node: NodeId) {
    exists i :: 0 <= i < |rows| && rows[i].run == run && rows[i].node == node
  }

  predicate Fits(rows: seq<Row>, run: RunId, calls: int, seconds: real, limits: Budget) {
    && (limits.calls.Some? ==> UsedCalls(rows, run) + calls <= limits.calls.value)
    && (limits.seconds.Some? ==> UsedSeconds(rows, run) + seconds <= limits.seconds.value)
  }

  datatype Reservation = Granted | Busy | OverBudget | RowExists

  /** Take the workspace lease and reserve within the limits, or do neither.  A busy attempt is audited. */
  function Reserve(db: Db, run: RunId, node: NodeId, calls: int, seconds: real, limits: Budget): (Db, Reservation) {
    if db.lease.Some? then (db.(decisions := db.decisions + [(node, false)]), Busy)
    else if !Fits(db.rows, run, calls, seconds, limits) then (db, OverBudget)
    else if HasRow(db.rows, run, node) then (db, RowExists)
    else (db.(lease := Some(run), rows := db.rows + [Row(run, node, calls, seconds, false)]), Granted)
  }

  function DeleteLease(db: Db, run: RunId): Db {
    if db.lease == Some(run) then db.(lease := None) else db
  }

  function MarkReleased(rows: seq<Row>, run: RunId, node: NodeId): (r: seq<Row>) {
    if rows == [] then [] else
      var last := rows[|rows| - 1];
      MarkReleased(rows[..|rows| - 1], run, node) +
      [if last.run == run && last.node == node then last.(released := true) else last]
  }

  function SetSeconds(rows: seq<Row>, run: RunId, node: NodeId, seconds: real): (r: seq<Row>) {
    if rows == [] then [] else
      var last := rows[|rows| - 1];
      SetSeconds(rows[..|rows| - 1], run, node, seconds) +
      [if last.run == run && last.node == node && !last.released then last.(seconds := seconds) else last]
  }

  function ReleaseAll(db: Db, run: RunId, node: NodeId): Db {
    DeleteLease(db.(rows := MarkReleased(db.rows, run, node)), run)
  }

  function RecordBudget(db: Db, run: RunId, budget: Budget): Db {
    if run in db.budgets then db else db.(budgets := db.budgets[run := budget])
  }

  function KeepArtifact(db: Db, message: Msg, hash: Hash, artifact: string): Db {
    if message !in db.replay || db.replay[message].hash == hash
    then db.(replay := db.replay[message := Claim(hash, Some(artifact))])
    else db
  }

  // ---- One dispatch

  datatype Request = Request(run: RunId, node: NodeId, message: Msg, hash: Hash, budget: Budget)

  /** The transactions of a dispatch that may fail. */
  datatype Txn = Claiming | Measuring | Budgeting | Recording | Checking | Reserving | Rechecking
               | Releasing | Committing | Storing

  datatype Deadline = Ahead | Expired | Malformed

  /** What a dispatch meets: failing transactions, the other policy rules and the
      route checks, the deadline, and the worker's end. */
  datatype Luck = Luck(faults: set<Txn>, policy: bool, route: bool, deadline: Deadline,
                       launched: bool, output: Option<string>, elapsed: real)

  datatype Status = Blocked | Duplicate | Conflict | Denied | Cancelled | Allowed

  datatype Phase =
    | Begin
    | Claimed
    | Measured(calls: int, seconds: real)
    | Judged(allowed: bool)
    | Recorded
    | Ready
    | Reserved
    | Cancelling
    | Expiring
    | BadDeadline
    | Armed
    | Running
    | Ended(output: Option<string>)
    | Counted(output: Option<string>)
    | Finishing
    | Done(status: Status)
    | Gone

  predicate Holds(p: Phase) {
    p.Reserved? || p.Cancelling? || p.Expiring? || p.BadDeadline? || p.Armed? || p.Running? ||
    p.Ended? || p.Counted? || p.Finishing?
  }

  /** The policy's budget rule, on the durable limits of the run. */
  predicate WithinDurable(durable: Budget, calls: int, seconds: real) {
    && (durable.calls.Some? ==> calls < durable.calls.value)
    && (durable.seconds.Some? ==> seconds < durable.seconds.value)
  }

  /** The next transaction of a dispatch in enforce mode. */
  function Advance(req: Request, db: Db, p: Phase, luck: Luck): (Db, Phase) {
    match p
    case Begin =>
      if Claiming in luck.faults then (db, Done(Blocked))
      else if req.message in db.replay then
        if db.replay[req.message].hash == req.hash then (db, Done(Duplicate))
        else if Recording in luck.faults then (db, Done(Blocked))
        else (db.(decisions := db.decisions + [(req.node, false)]), Done(Conflict))
      else (db.(replay := db.replay[req.message := Claim(req.hash, None)]), Claimed)
    case Claimed =>
      if Measuring in luck.faults then (db, Measured(0, 0.0))
      else (db, Measured(UsedCalls(db.rows, req.run), UsedSeconds(db.rows, req.run)))
    case Measured(calls, seconds) =>
      if Budgeting in luck.faults then (db, Done(Blocked))
      else
        var db' := RecordBudget(db, req.run, req.budget);
        (db', Judged(luck.policy && WithinDurable(db'.budgets[req.run], calls, seconds)))
    case Judged(allowed) =>
      if Recording in luck.faults then (db, Done(Blocked))
      else (db.(decisions := db.decisions + [(req.node, allowed)]),
            if allowed && luck.route then Recorded else Done(Denied))
    case Recorded =>
      if Checking in luck.faults || req.run in db.cancelled then (db, Done(Cancelled)) else (db, Ready)
    case Ready =>
      if Reserving in luck.faults then (db, Done(Blocked))
      else
        var (db', got) := Reserve(db, req.run, req.node, 1, 0.0, req.budget);
        (db', if got.Granted? then Reserved else Done(Blocked))
    case Reserved =>
      if Rechecking in luck.faults || req.run in db.cancelled then (db, Cancelling)
      else (db, match luck.deadline case Ahead => Armed case Expired => Expiring case Malformed => BadDeadline)
    case Cancelling =>
      (if Releasing in luck.faults then db else ReleaseAll(db, req.run, req.node), Done(Cancelled))
    case Expiring =>
      (if Releasing in luck.faults then db else ReleaseAll(db, req.run, req.node), Done(Denied))
    case BadDeadline =>
      (if Releasing in luck.faults then db else DeleteLease(db, req.run), Done(Denied))
    case Armed =>
      if luck.launched then (db, Running) else (db, Ended(None))
    case Running =>
      (db, Ended(luck.output))
    case Ended(output) =>
      if Committing in luck.faults then (db, Counted(output))
      else (db.(rows := SetSeconds(db.rows, req.run, req.node, if luck.elapsed < 0.0 then 0.0 else luck.elapsed)),
            Counted(output))
    case Counted(output) =>
      if output.None? || Storing in luck.faults then (db, Finishing)
      else (KeepArtifact(db, req.message, req.hash, output.value), Finishing)
    case Finishing =>
      (if Releasing in luck.faults then db else DeleteLease(db, req.run), Done(Allowed))
    case _ => (db, p)
  }

  /** How many transactions a dispatch has before it at most. */
  function Left(p: Phase): nat {
    match p
    case Begin => 12 case Claimed => 11 case Measured(_, _) => 10 case Judged(_) => 9
    case Recorded => 8 case Ready => 7 case Reserved => 6 case Armed => 5 case Running => 4
    case Ended(_) => 3 case Counted(_) => 2
    case Cancelling => 1 case Expiring => 1 case BadDeadline => 1 case Finishing => 1
    case Done(_) => 0 case Gone => 0
  }

  /** A dispatch that nobody interrupts. */
  function Alone(req: Request, db: Db, p: Phase, luck: Luck): (r: (Db, Phase))
    ensures p.Gone? || r.1.Done?
    decreases Left(p)
  {
    if p.Done? || p.Gone? then (db, p)
    else
      var (db', p') := Advance(req, db, p, luck);
      Alone(req, db', p', luck)
  }

  // ---- Any number of dispatches

  /** The tables and where each dispatch stands; then what happened: the
      launches in order, who took the lease, who claimed each message, and whose
      releasing transaction failed. */
  datatype Sys = Sys(db: Db, phases: seq<Phase>,
                     invoked: seq<nat>, owner: Option<nat>, claimer: map<Msg, nat>, leaked: set<nat>)

  /** Go is the next step of dispatch i; Stop is its death, or an exception that leaves it. */
  datatype Event = Go(i: nat, luck: Luck) | Stop(i: nat) | Cancel(run: RunId)

  function Start(reqs: seq<Request>): Sys {
    Sys(Db(None, map[], [], map[], {}, []), seq(|reqs|, i => Begin), [], None, map[], {})
  }

  function Step(reqs: seq<Request>, s: Sys, e: Event): Sys
    requires |s.phases| == |reqs|
  {
    match e
    case Cancel(run) => s.(db := s.db.(cancelled := s.db.cancelled + {run}))
    case Stop(i) =>
      if i >= |reqs| || s.phases[i].Done? then s else s.(phases := s.phases[i := Gone])
    case Go(i, luck) =>
      if i >= |reqs| then s
      else
        var p := s.phases[i];
        var (db, p') := Advance(reqs[i], s.db, p, luck);
        Sys(db, s.phases[i := p'],
            if p.Armed? && p'.Running? then s.invoked + [i] else s.invoked,
            if p.Ready? && p'.Reserved? then Some(i) else if db.lease.None? then None else s.owner,
            if p.Begin? && p'.Claimed? then s.claimer[reqs[i].message := i] else s.claimer,
            if Holds(p) && p'.Done? && Releasing in luck.faults then s.leaked + {i} else s.leaked)
  }

  function Run(reqs: seq<Request>, events: seq<Event>): (s: Sys)
    ensures |s.phases| == |reqs|
  {
    if events == [] then Start(reqs) else Step(reqs, Run(reqs, events[..|events| - 1]), events[|events| - 1])
  }
}
