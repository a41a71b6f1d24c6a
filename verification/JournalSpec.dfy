/** What the lifecycle journal means: its records, the durable states a
    transaction passes through, and what recovery does to each of them. */
module JournalSpec {
  import opened Options
  import opened FileSystem

  datatype Kind = Symlink | Unlink | FileWrite | Receipt | Mkdir

  /** The recorded `result` of an operation: a link text, a content digest or nothing. */
  datatype Outcome = NoResult | LinkTo(text: string) | Hash(digest: Digest)

  /** One journal record.  For the two link kinds `predecessor` is a link
      text; for `FileWrite` and `Receipt` it is the path of a backup. */
  datatype Op = Op(kind: Kind, target: Path, predecessor: Option<string>, result: Outcome, applied: bool)

  datatype Journal = Journal(ops: seq<Op>, committed: bool)

  /** Everything that survives a crash. */
  datatype State = State(files: Files, journal: Option<Journal>)

  /** The states an action passes through, one per system call, and whether
      it ran to the end (`ok`) or raised. */
  datatype Run = Run(states: seq<Files>, ok: bool)

  function Last(fs: Files, states: seq<Files>): Files {
    if states == [] then fs else states[|states| - 1]
  }

  // ---- Undoing one record

  predicate FileMatches(fs: Files, p: Path, result: Outcome) {
    if result.NoResult? then !Exists(fs, p)
    else IsFile(fs, p) && result == Hash(Sha256(Bytes(fs, p)))
  }

  /** Does the disk alone show that the recorded mutation happened? */
  predicate Proven(fs: Files, op: Op) {
    || op.applied
    || (op.kind.Symlink? && IsLink(fs, op.target) && op.result == LinkTo(fs[op.target].text))
    || (op.kind.FileWrite? && FileMatches(fs, op.target, op.result))
  }

  /** Copying truncates the destination before it writes the bytes. */
  function Copy(fs: Files, src: Path, dst: Path): Run {
    var q := CopyTarget(fs, src, dst);
    if !IsFile(fs, src) || q.None? || Resolve(fs, src) == q || (q.value in fs && fs[q.value].Dir?) then Run([], false)
    else Run([fs[q.value := File("")], fs[q.value := File(Bytes(fs, src))]], true)
  }

  function Remove(fs: Files, p: Path): Run {
    if p in fs && fs[p].Dir? then Run([], false) else Run([fs - {p}], true)
  }

  function RemoveIfExists(fs: Files, p: Path): Run {
    if Exists(fs, p) then Remove(fs, p) else Run([], true)
  }

  function Relink(fs: Files, p: Path, text: Option<string>): Run {
    if IsLink(fs, p) then
      Run([fs - {p}] + (if text.Some? then [fs[p := Link(text.value)]] else []), true)
    else if text.None? then Run([], true)
    else if p in fs then Run([], false)
    else Run([fs[p := Link(text.value)]], true)
  }

  function Undo(fs: Files, op: Op): Run {
    if !Proven(fs, op) then Run([], true)
    else match op.kind
      case FileWrite =>
        if op.predecessor.Some? then Copy(fs, op.predecessor.value, op.target) else RemoveIfExists(fs, op.target)
      case Symlink => Relink(fs, op.target, op.predecessor)
      case Unlink => Relink(fs, op.target, op.predecessor)
      case Mkdir =>
        if op.target in fs && fs[op.target].Dir? && Empty(fs, op.target)
        then Run([fs - {op.target}], true) else Run([], true)
      case Receipt =>
        if op.predecessor.Some? && IsFile(fs, op.predecessor.value)
        then Copy(fs, op.predecessor.value, op.target) else RemoveIfExists(fs, op.target)
  }

  /** Undo the records from the last to the first, stopping at one that raises. */
  function UndoAll(fs: Files, ops: seq<Op>): Run
    decreases |ops|
  {
    if ops == [] then Run([], true)
    else
      var first := Undo(fs, ops[|ops| - 1]);
      if !first.ok then first
      else
        var rest := UndoAll(Last(fs, first.states), ops[..|ops| - 1]);
        Run(first.states + rest.states, rest.ok)
  }

  /** Every durable state recovery leaves on its way, from `s` itself to its end. */
  function RecoverTrace(s: State): (trace: seq<State>)
    ensures trace != [] && trace[0] == s
  {
    if s.journal.None? then [s]
    else if s.journal.value.committed then [s, State(s.files, None)]
    else
      var run := UndoAll(s.files, s.journal.value.ops);
      [s] + seq(|run.states|, i requires 0 <= i < |run.states| => State(run.states[i], s.journal))
      + (if run.ok then [State(Last(s.files, run.states), None)] else [])
  }

  function Recover(s: State): State {
    var trace := RecoverTrace(s);
    trace[|trace| - 1]
  }

  // ---- Transactions

  /** A journalled operation as its caller performs it: the record it writes
      first, and what its atomic mutation leaves at the target. */
  datatype Act = Act(op: Op, post: Option<Node>)

  function FilesAfter(fs: Files, acts: seq<Act>): Files {
    if acts == [] then fs
    else
      var n := |acts| - 1;
      Put(FilesAfter(fs, acts[..n]), acts[n].op.target, acts[n].post)
  }

  function Marked(acts: seq<Act>): (ops: seq<Op>)
    ensures |ops| == |acts|
  {
    seq(|acts|, i requires 0 <= i < |acts| => acts[i].op.(applied := true))
  }

  /** Where a transaction over `acts` can be cut off: between two acts,
      after the intent of act n, after its mutation, or after the commit record. */
  datatype Crash = Between(n: nat) | Intended(n: nat) | Mutated(n: nat) | Committed

  predicate InScript(acts: seq<Act>, crash: Crash) {
    match crash
    case Between(n) => n <= |acts|
    case Intended(n) => n < |acts|
    case Mutated(n) => n < |acts|
    case Committed => true
  }

  function CrashState(fs: Files, acts: seq<Act>, crash: Crash): State
    requires InScript(acts, crash)
  {
    match crash
    case Between(n) => State(FilesAfter(fs, acts[..n]), Some(Journal(Marked(acts[..n]), false)))
    case Intended(n) => State(FilesAfter(fs, acts[..n]), Some(Journal(Marked(acts[..n]) + [acts[n].op], false)))
    case Mutated(n) => State(FilesAfter(fs, acts[..n + 1]), Some(Journal(Marked(acts[..n]) + [acts[n].op], false)))
    case Committed => State(FilesAfter(fs, acts), Some(Journal(Marked(acts), true)))
  }

  // ---- What a caller owes the journal

  predicate OnLinks(kind: Kind) {
    kind.Symlink? || kind.Unlink?
  }

  /** Link operations act on links, byte operations on regular files. */
  predicate Suits(kind: Kind, node: Option<Node>) {
    node.None? || (if OnLinks(kind) then node.value.Link? else node.value.File?)
  }

  /** What the record says was at its target. */
  function Claimed(fs: Files, op: Op): Option<Node> {
    if op.predecessor.None? then None
    else if OnLinks(op.kind) then Some(Link(op.predecessor.value))
    else Entry(fs, op.predecessor.value)
  }

  predicate SameFamily(a: Op, b: Op) {
    a.target == b.target ==> OnLinks(a.kind) == OnLinks(b.kind)
  }

  /** The backup of a byte operation is a regular file that no operation targets. */
  predicate BackupKept(fs: Files, op: Op, targets: set<Path>) {
    !OnLinks(op.kind) && op.predecessor.Some? ==>
      var b := op.predecessor.value;
      b !in targets && b in fs && fs[b].File?
  }

  ghost function Targets(ops: seq<Op>): set<Path> {
    set op | op in ops :: op.target
  }

  /** Act i records its true predecessor and keeps its target in its family. */
  ghost predicate TruthfulAct(fs: Files, acts: seq<Act>, i: nat)
    requires i < |acts|
  {
    var op := acts[i].op;
    && !op.applied && !op.kind.Mkdir?
    && Suits(op.kind, acts[i].post)
    && BackupKept(fs, op, Targets(Marked(acts)))
    && Claimed(fs, op) == Entry(FilesAfter(fs, acts[..i]), op.target)
    && Suits(op.kind, Claimed(fs, op))
  }

  ghost predicate Truthful(fs: Files, acts: seq<Act>) {
    && (forall i | 0 <= i < |acts| :: TruthfulAct(fs, acts, i))
    && (forall i, j | 0 <= i < j < |acts| :: SameFamily(acts[i].op, acts[j].op))
  }

  /** No earlier act of the transaction has the target of act n. */
  predicate FirstOnTarget(acts: seq<Act>, n: nat)
    requires n < |acts|
  {
    forall i | 0 <= i < n :: acts[i].op.target != acts[n].op.target
  }

  /** The mutation leaves exactly what the record lets recovery look for. */
  predicate Detectable(act: Act) {
    match act.op.kind
    case Symlink => act.post.Some? && act.post.value.Link? && act.op.result == LinkTo(act.post.value.text)
    case FileWrite =>
      if act.post.None? then act.op.result.NoResult?
      else act.post.value.File? && act.op.result == Hash(Sha256(act.post.value.bytes))
    case _ => false
  }

  /** The guard of a safe crash: only the window between a mutation and its
      applied mark is in question, and there the mutation must be detectable,
      change nothing, or follow a marked operation on the same target. */
  predicate SafeCrash(fs: Files, acts: seq<Act>, crash: Crash)
    requires InScript(acts, crash)
  {
    crash.Mutated? ==>
      || Detectable(acts[crash.n])
      || acts[crash.n].post == Claimed(fs, acts[crash.n].op)
      || !FirstOnTarget(acts, crash.n)
  }

  // ---- States a transaction or a cut-off recovery leaves

  predicate FirstOp(ops: seq<Op>, n: nat)
    requires n < |ops|
  {
    forall i | 0 <= i < n :: ops[i].target != ops[n].target
  }

  ghost predicate FitsAt(fs0: Files, fs: Files, ops: seq<Op>, i: nat)
    requires i < |ops|
  {
    && !ops[i].kind.Mkdir?
    && Suits(ops[i].kind, Entry(fs, ops[i].target))
    && Suits(ops[i].kind, Claimed(fs0, ops[i]))
    && BackupKept(fs0, ops[i], Targets(ops))
    && (FirstOp(ops, i) ==> Claimed(fs0, ops[i]) == Entry(fs0, ops[i].target))
    && (i < |ops| - 1 ==> ops[i].applied)
  }

  ghost predicate SameOutside(fs0: Files, fs: Files, targets: set<Path>) {
    forall p | p !in targets :: Entry(fs, p) == Entry(fs0, p)
  }

  /** `fs` can be read as the files `fs0`, changed only at the targets of
      `ops`, whose first record on each target tells what `fs0` has there. */
  ghost predicate Fits(fs0: Files, fs: Files, ops: seq<Op>) {
    && SameOutside(fs0, fs, Targets(ops))
    && (forall i | 0 <= i < |ops| :: FitsAt(fs0, fs, ops, i))
    && (forall i, j | 0 <= i < j < |ops| :: SameFamily(ops[i], ops[j]))
  }

  /** The last record is the only one that may be unmarked; it is harmless
      when it is marked, follows another on its target, is proven on disk, or
      its target still holds what it held at the start. */
  ghost predicate LastIsHarmless(fs0: Files, fs: Files, ops: seq<Op>) {
    ops == [] ||
    var n := |ops| - 1;
    || ops[n].applied
    || !FirstOp(ops, n)
    || Proven(fs, ops[n])
    || Entry(fs, ops[n].target) == Entry(fs0, ops[n].target)
  }

  // ---- Recoveries that are themselves cut off

  predicate Pending(s: State) {
    s.journal.Some? && !s.journal.value.committed
  }

  /** Recovery from `s` stopped after `k` of its durable steps (at its end, if it has no more). */
  function CutAt(s: State, k: nat): State {
    var trace := RecoverTrace(s);
    trace[if k < |trace| then k else |trace| - 1]
  }

  function CutOff(s: State, cuts: seq<nat>): State
    decreases |cuts|
  {
    if cuts == [] then s else CutOff(CutAt(s, cuts[0]), cuts[1..])
  }

  /** A cut between the two system calls that undo an unmarked record: the
      target is half undone, and nothing on disk proves the mutation any more. */
  predicate LosingCut(s: State, k: nat) {
    && Pending(s)
    && s.journal.value.ops != []
    && var n := |s.journal.value.ops| - 1;
    && var op := s.journal.value.ops[n];
    && !op.applied
    && FirstOp(s.journal.value.ops, n)
    && 0 < k < |Undo(s.files, op).states|
    && Claimed(s.files, op) != Some(File(""))
    && op.result != Hash(Sha256(""))
  }

  predicate NoLosingCut(s: State, cuts: seq<nat>)
    decreases |cuts|
  {
    cuts == [] || (!LosingCut(s, cuts[0]) && NoLosingCut(CutAt(s, cuts[0]), cuts[1..]))
  }
}
