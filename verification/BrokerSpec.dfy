/** The dispatch broker as a state machine.  What is on disk survives a
    restart; the counters, the ids seen and issued and the running turn live in memory. */
module BrokerSpec {
  import opened Options

  type Rid = string

  datatype Status = Green | Red | Unverified | UsageError | Refused | Answered

  /** The part of run.json the fan-out and resume rules use. */
  datatype Spec = Spec(spawned: nat, resumeOf: map<Rid, Rid>)

  datatype Work = Dispatch | Resume(root: Rid, number: nat)
  datatype Phase = Started | DirMade | Reserved | Launched | Ending(status: Status)
  datatype Turn = Turn(rid: Rid, work: Work, phase: Phase)

  /** Fixed for a run: the fan-out, the transport and which Workers are of the grunt rung. */
  datatype Setup = Setup(width: nat, total: nat, mcp: bool, grunts: set<Rid>)

  datatype Broker = Broker(
    // on disk
    run: Spec,
    reports: set<Rid>,
    results: map<Rid, Status>,
    workdirs: set<Rid>,
    issuedFiles: set<Rid>,
    resumes: map<Rid, nat>,
    // in memory
    spec: Spec,
    seen: set<Rid>,
    issued: set<Rid>,
    turn: Option<Turn>,
    // what happened
    launches: seq<Rid>,
    resumed: seq<(Rid, nat)>)

  const INIT := Broker(Spec(0, map[]), {}, map[], {}, {}, map[], Spec(0, map[]), {}, {}, None, [], [])

  function ResumeCap(c: Setup, root: Rid): nat {
    if root in c.grunts then 1 else 2
  }

  function Digit(n: nat): char {
    if n < 10 then "0123456789"[n] else '*'
  }

  /** The id `<root>-r<n>` of a Worker's n-th resume. */
  function ResumeId(root: Rid, n: nat): Rid {
    root + "-r" + [Digit(n)]
  }

  function RootOf(spec: Spec, rid: Rid): Rid {
    if rid in spec.resumeOf then spec.resumeOf[rid] else rid
  }

  function Turns(b: Broker, root: Rid): nat {
    if root in b.resumes then b.resumes[root] else 0
  }

  /** Did this broker issue the id?  The MCP transport also remembers it on disk. */
  predicate Known(c: Setup, b: Broker, rid: Rid) {
    rid in b.issued || (c.mcp && rid in b.issuedFiles)
  }

  function Restarted(b: Broker): Broker {
    b.(spec := b.run, seen := {}, issued := {}, turn := None)
  }

  /** Report first, then result; neither is ever overwritten.  A clash stops
      the file broker, which then restarts; the MCP broker goes on. */
  function WriteResult(c: Setup, b: Broker, rid: Rid, status: Status): Broker {
    if rid in b.reports || rid in b.results then (if c.mcp then b else Restarted(b))
    else b.(reports := b.reports + {rid}, results := b.results[rid := status])
  }

  /** The resume that may follow request `of`: its root Worker and turn number. */
  function Plan(c: Setup, b: Broker, of: Rid, screened: bool, session: bool): Option<(Rid, nat)> {
    if !screened || !Known(c, b, of) || of !in b.results then None
    else if !(b.results[of].Green? || b.results[of].Red? || b.results[of].Unverified?) then None
    else
      var root := RootOf(b.spec, of);
      var n := Turns(b, root) + 1;
      if !session || n > ResumeCap(c, root) then None else Some((root, n))
  }

  function Start(b: Broker, rid: Rid, work: Work): Broker {
    b.(turn := Some(Turn(rid, work, Started)),
       resumed := if work.Resume? then b.resumed + [(work.root, work.number)] else b.resumed)
  }

  // ---- Steps

  /** `Unreadable` is an inbox file whose contents cannot be read.  `IssueCut` is an
      MCP resume whose broker dies between issuing the new id and saving run.json;
      `EndTurnCut` a turn whose broker dies between its report and its result, or before run.json is saved. */
  datatype Event =
    | DispatchRequest(rid: Rid, valid: bool)
    | ResumeRequest(rid: Rid, of: Rid, screened: bool, session: bool)
    | AnswerRequest(rid: Rid, of: Rid, taken: bool)
    | Unreadable(rid: Rid)
    | IssueCut(of: Rid, screened: bool, session: bool)
    | MakeWorkdir
    | ReserveSlot
    | Launch
    | WorkerEnds(status: Status, recorded: bool)
    | EndTurn
    | EndTurnCut(resultWritten: bool)
    | Save
    | Restart

  predicate IsRequest(e: Event) {
    e.DispatchRequest? || e.ResumeRequest? || e.AnswerRequest? || e.Unreadable?
  }

  /** One file of the inbox. */
  function FileRequest(c: Setup, b: Broker, e: Event): Broker
    requires IsRequest(e)
  {
    var seen := b.(seen := b.seen + {e.rid});
    if e.rid in b.seen || e.rid in b.results then b
    else match e
      case AnswerRequest(rid, of, taken) =>
        WriteResult(c, seen, rid, if of in b.issued && taken then Answered else Refused)
      case Unreadable(rid) => WriteResult(c, seen, rid, Refused)
      case DispatchRequest(rid, valid) =>
        if b.turn.Some? then b
        else if !valid then WriteResult(c, seen, rid, Refused)
        else Start(seen.(issued := b.issued + {rid}), rid, Dispatch)
      case ResumeRequest(rid, of, screened, session) =>
        if b.turn.Some? then b
        else
          var plan := Plan(c, b, of, screened, session);
          if plan.None? || ResumeId(plan.value.0, plan.value.1) != rid then WriteResult(c, seen, rid, Refused)
          else
            var root, n := plan.value.0, plan.value.1;
            Start(seen.(issued := b.issued + {rid}, spec := b.spec.(resumeOf := b.spec.resumeOf[rid := root])),
                  rid, Resume(root, n))
  }

  /** One MCP tool call.  A dispatch comes under a fresh id; a resume under the id its plan makes. */
  function McpRequest(c: Setup, b: Broker, e: Event): Broker
    requires IsRequest(e)
  {
    match e
    case AnswerRequest(_, _, _) => b
    case Unreadable(_) => b
    case DispatchRequest(rid, valid) =>
      if rid in b.issuedFiles then b
      else
        var issued := b.(issuedFiles := b.issuedFiles + {rid}, issued := b.issued + {rid});
        if !valid || b.turn.Some? then WriteResult(c, issued, rid, Refused) else Start(issued, rid, Dispatch)
    case ResumeRequest(_, of, screened, session) =>
      var plan := Plan(c, b, of, screened, session);
      if b.turn.Some? || plan.None? then b
      else
        var root, n := plan.value.0, plan.value.1;
        var rid := ResumeId(root, n);
        if rid in b.issuedFiles then b
        else
          var spec := b.spec.(resumeOf := b.spec.resumeOf[rid := root]);
          Start(b.(issuedFiles := b.issuedFiles + {rid}, issued := b.issued + {rid}, spec := spec, run := spec),
                rid, Resume(root, n))
  }

  /** The id of an MCP resume is issued, and the broker dies before run.json knows of it. */
  function IssuedOnly(c: Setup, b: Broker, of: Rid, screened: bool, session: bool): Broker {
    var plan := Plan(c, b, of, screened, session);
    if b.turn.Some? || plan.None? then b
    else
      var rid := ResumeId(plan.value.0, plan.value.1);
      if rid in b.issuedFiles then b else Restarted(b.(issuedFiles := b.issuedFiles + {rid}))
  }

  function InPhase(b: Broker, phase: Phase): Broker
    requires b.turn.Some?
  {
    b.(turn := Some(b.turn.value.(phase := phase)))
  }

  /** A step of the running turn. */
  function TurnStep(c: Setup, b: Broker, e: Event): Broker
    requires b.turn.Some?
  {
    var t := b.turn.value;
    match (e, t.work, t.phase)
    case (MakeWorkdir, Dispatch, Started) =>
      if c.total == 0 || c.width == 0 || b.spec.spawned >= c.total || t.rid in b.workdirs
      then InPhase(b, Ending(Refused))
      else InPhase(b.(workdirs := b.workdirs + {t.rid}), DirMade)
    case (ReserveSlot, Dispatch, DirMade) =>
      var spec := b.spec.(spawned := b.spec.spawned + 1);
      InPhase(b.(spec := spec, run := spec), Reserved)
    case (Launch, Dispatch, Reserved) =>
      InPhase(b.(launches := b.launches + [t.rid]), Launched)
    case (WorkerEnds(status, _), Dispatch, Reserved) =>
      var spawned := if b.spec.spawned > 0 then b.spec.spawned - 1 else 0;
      InPhase(b.(spec := b.spec.(spawned := spawned)), Ending(status))
    case (WorkerEnds(status, _), Dispatch, Launched) =>
      InPhase(b, Ending(status))
    case (WorkerEnds(status, recorded), Resume(root, _), Started) =>
      InPhase(if recorded then b.(resumes := b.resumes[root := Turns(b, root) + 1]) else b, Ending(status))
    case (EndTurn, _, Ending(status)) =>
      var b' := WriteResult(c, b, t.rid, status);
      if t.rid in b.reports || t.rid in b.results then b'.(turn := None) else b'.(run := b'.spec, turn := None)
    case (EndTurnCut(resultWritten), _, Ending(status)) =>
      if t.rid in b.reports || t.rid in b.results then Restarted(b)
      else if resultWritten then Restarted(WriteResult(c, b, t.rid, status))
      else Restarted(b.(reports := b.reports + {t.rid}))
    case _ => b
  }

  function Step(c: Setup, b: Broker, e: Event): Broker {
    match e
    case Save => b.(run := b.spec)
    case Restart => Restarted(b)
    case DispatchRequest(_, _) => if c.mcp then McpRequest(c, b, e) else FileRequest(c, b, e)
    case ResumeRequest(_, _, _, _) => if c.mcp then McpRequest(c, b, e) else FileRequest(c, b, e)
    case AnswerRequest(_, _, _) => if c.mcp then McpRequest(c, b, e) else FileRequest(c, b, e)
    case Unreadable(_) => if c.mcp then McpRequest(c, b, e) else FileRequest(c, b, e)
    case IssueCut(of, screened, session) => if c.mcp then IssuedOnly(c, b, of, screened, session) else b
    case _ => if b.turn.None? then b else TurnStep(c, b, e)
  }

  function Run(c: Setup, events: seq<Event>): Broker {
    if events == [] then INIT else Step(c, Run(c, events[..|events| - 1]), events[|events| - 1])
  }
}
