/** An install: the backups it copies aside on its way, its journalled operations,
    and what recovery leaves of it at every durable state. */
module Installs {
  import opened Options
  import opened FileSystem
  import opened JournalSpec
  import opened JournalProofs
  import opened Journals

  /** A byte operation on something that is there copies it aside first, and records the copy. */
  predicate CopiesAside(op: Op) {
    !OnLinks(op.kind) && op.predecessor.Some?
  }

  /** What stands at the target of act i before it. */
  function Found(fs: Files, acts: seq<Act>, i: nat): Option<Node>
    requires i < |acts|
  {
    Entry(FilesAfter(fs, acts[..i]), acts[i].op.target)
  }

  /** The files at the start with the backups that the first n acts make. */
  function Stocked(fs: Files, acts: seq<Act>, n: nat): Files
    requires n <= |acts|
  {
    if n == 0 then fs
    else if CopiesAside(acts[n - 1].op)
    then Put(Stocked(fs, acts, n - 1), acts[n - 1].op.predecessor.value, Found(fs, acts, n - 1))
    else Stocked(fs, acts, n - 1)
  }

  predicate IsBackup(acts: seq<Act>, p: Path) {
    exists i :: 0 <= i < |acts| && CopiesAside(acts[i].op) && acts[i].op.predecessor.value == p
  }

  /** What act i owes the journal: it acts on what suits it, and records the link or
      the absence that it finds, or a place of its own for a copy of the file that it finds. */
  ghost predicate Owes(fs: Files, acts: seq<Act>, i: nat)
    requires i < |acts|
  {
    var op := acts[i].op;
    && !op.applied && !op.kind.Mkdir? && Suits(op.kind, acts[i].post) && Suits(op.kind, Found(fs, acts, i))
    && if CopiesAside(op) then
         && Found(fs, acts, i).Some? && op.predecessor.value !in Targets(Marked(acts))
         && forall j | 0 <= j < i && CopiesAside(acts[j].op) :: acts[j].op.predecessor != op.predecessor
       else Claimed(fs, op) == Found(fs, acts, i)
  }

  ghost predicate Honest(fs: Files, acts: seq<Act>) {
    && (forall i | 0 <= i < |acts| :: Owes(fs, acts, i))
    && (forall i, j | 0 <= i < j < |acts| :: SameFamily(acts[i].op, acts[j].op))
  }

  // ---- Backups aside

  /** Writing a path that no act targets commutes with the acts. */
  lemma {:induction false} AfterAside(fs: Files, acts: seq<Act>, p: Path, node: Option<Node>)
    requires forall i | 0 <= i < |acts| :: acts[i].op.target != p
    ensures FilesAfter(Put(fs, p, node), acts) == Put(FilesAfter(fs, acts), p, node)
  {
    if acts != [] {
      var n := |acts| - 1;
      AfterAside(fs, acts[..n], p, node);
      PutsCommute(FilesAfter(fs, acts[..n]), p, node, acts[n].op.target, acts[n].post);
      hide Put;
    }
  }

  lemma PutsCommute(fs: Files, p: Path, a: Option<Node>, q: Path, b: Option<Node>)
    requires p != q
    ensures Put(Put(fs, p, a), q, b) == Put(Put(fs, q, b), p, a)
  {}

  lemma NotTargeted(acts: seq<Act>, p: Path)
    requires p !in Targets(Marked(acts))
    ensures forall i | 0 <= i < |acts| :: acts[i].op.target != p
  {
    forall i | 0 <= i < |acts| ensures acts[i].op.target != p {
      assert Marked(acts)[i] in Marked(acts);
    }
  }

  /** Backups change nothing else: the acts find what they would find without them. */
  lemma {:induction false} AfterStocked(fs: Files, acts: seq<Act>, n: nat, m: nat, p: Path)
    requires Honest(fs, acts) && n <= |acts| && m <= |acts| && !IsBackup(acts, p)
    ensures Entry(FilesAfter(Stocked(fs, acts, n), acts[..m]), p) == Entry(FilesAfter(fs, acts[..m]), p)
    decreases n
  {
    if n > 0 {
      AfterStocked(fs, acts, n - 1, m, p);
      if CopiesAside(acts[n - 1].op) {
        assert Owes(fs, acts, n - 1);
        NotTargeted(acts, acts[n - 1].op.predecessor.value);
        AfterAside(Stocked(fs, acts, n - 1), acts[..m], acts[n - 1].op.predecessor.value, Found(fs, acts, n - 1));
        hide FilesAfter, Stocked, Found;
      }
    }
  }

  /** A backup holds what stood at the target. */
  lemma {:induction false} BackupHolds(fs: Files, acts: seq<Act>, n: nat, i: nat)
    requires Honest(fs, acts) && i < n <= |acts| && CopiesAside(acts[i].op)
    ensures Entry(Stocked(fs, acts, n), acts[i].op.predecessor.value) == Found(fs, acts, i)
    decreases n
  {
    assert Owes(fs, acts, n - 1);
    if i < n - 1 {
      BackupHolds(fs, acts, n - 1, i);
    }
    hide Found;
  }

  /** With the backups made so far in place, the acts so far record true predecessors. */
  lemma StockedTruthful(fs: Files, acts: seq<Act>, n: nat)
    requires Honest(fs, acts) && n <= |acts|
    ensures Truthful(Stocked(fs, acts, n), acts[..n])
  {
    var base, some := Stocked(fs, acts, n), acts[..n];
    forall i | 0 <= i < n ensures TruthfulAct(base, some, i) {
      ActTruthful(fs, acts, n, i);
    }
    hide TruthfulAct, Stocked;
  }

  lemma ActTruthful(fs: Files, acts: seq<Act>, n: nat, i: nat)
    requires Honest(fs, acts) && i < n <= |acts|
    ensures TruthfulAct(Stocked(fs, acts, n), acts[..n], i)
  {
    var op := acts[i].op;
    assert Owes(fs, acts, i) && acts[..n][..i] == acts[..i];
    TargetIsNoBackup(fs, acts, i);
    AfterStocked(fs, acts, n, i, op.target);
    FewerTargets(acts, n);
    if CopiesAside(op) { BackupHolds(fs, acts, n, i); }
    hide Stocked, FilesAfter, Honest, Targets, Marked;
  }

  lemma FewerTargets(acts: seq<Act>, n: nat)
    requires n <= |acts|
    ensures Targets(Marked(acts[..n])) <= Targets(Marked(acts))
  {
    forall op | op in Marked(acts[..n]) ensures op in Marked(acts) {
      var i :| 0 <= i < n && Marked(acts[..n])[i] == op;
      assert Marked(acts)[i] == op;
    }
  }

  lemma TargetIsNoBackup(fs: Files, acts: seq<Act>, i: nat)
    requires Honest(fs, acts) && i < |acts|
    ensures !IsBackup(acts, acts[i].op.target)
  {
    forall j | 0 <= j < |acts| && CopiesAside(acts[j].op) ensures acts[j].op.predecessor.value != acts[i].op.target {
      assert Owes(fs, acts, j);
      NotTargeted(acts, acts[j].op.predecessor.value);
    }
  }

  /** A file that no act targets or records may change under true records. */
  lemma AsideTruthful(fs: Files, acts: seq<Act>, p: Path, node: Node)
    requires Truthful(fs, acts) && p !in Targets(Marked(acts))
    requires forall i | 0 <= i < |acts| && CopiesAside(acts[i].op) :: acts[i].op.predecessor.value != p
    ensures Truthful(fs[p := node], acts)
  {
    NotTargeted(acts, p);
    var fs' := fs[p := node];
    forall i | 0 <= i < |acts| ensures TruthfulAct(fs', acts, i) {
      assert TruthfulAct(fs, acts, i);
      AfterAside(fs, acts[..i], p, Some(node));
      hide FilesAfter, Targets, Marked;
    }
  }

  // ---- The durable states of an install

  /** Where an install can be cut off: before act n, in the middle of its copy aside (the
      receipt's is put in place at once), after the copy, after its intent, or after its mutation. */
  datatype Moment = Rests(n: nat) | Copying(n: nat) | Copied(n: nat) | Intends(n: nat) | Mutates(n: nat)

  predicate InInstall(acts: seq<Act>, m: Moment) {
    && (if m.Rests? then m.n <= |acts| else m.n < |acts|)
    && (m.Copying? || m.Copied? ==> CopiesAside(acts[m.n].op)) && (m.Copying? ==> acts[m.n].op.kind.FileWrite?)
  }

  /** The files at the start with the backups made by then. */
  function Base(fs: Files, acts: seq<Act>, m: Moment): Files
    requires InInstall(acts, m)
  {
    if m.Rests? then Stocked(fs, acts, m.n)
    else if m.Copying? then Stocked(fs, acts, m.n)[acts[m.n].op.predecessor.value := File("")]
    else Stocked(fs, acts, m.n + 1)
  }

  /** The acts that have reached the journal. */
  function Journalled(acts: seq<Act>, m: Moment): seq<Act>
    requires InInstall(acts, m)
  {
    if m.Intends? || m.Mutates? then acts[..m.n + 1] else acts[..m.n]
  }

  function CrashOf(m: Moment): Crash {
    match m
    case Intends(n) => Intended(n)
    case Mutates(n) => Mutated(n)
    case _ => Between(m.n)
  }

  function InstallState(fs: Files, acts: seq<Act>, m: Moment): State
    requires InInstall(acts, m)
  {
    CrashState(Base(fs, acts, m), Journalled(acts, m), CrashOf(m))
  }

  /** At every moment the records are true of the files with the backups made by then. */
  lemma BaseTruthful(fs: Files, acts: seq<Act>, m: Moment)
    requires Honest(fs, acts) && InInstall(acts, m)
    ensures Truthful(Base(fs, acts, m), Journalled(acts, m))
  {
    var n := m.n;
    StockedTruthful(fs, acts, n);
    if m.Copying? || m.Copied? {
      assert Owes(fs, acts, n);
      FewerTargets(acts, n);
      var b := acts[n].op.predecessor.value;
      AsideTruthful(Stocked(fs, acts, n), acts[..n], b, if m.Copying? then File("") else Found(fs, acts, n).value);
    } else if !m.Rests? {
      StockedTruthful(fs, acts, n + 1);
    }
    hide Truthful, Honest;
  }

  /** The backups made by then, and nothing else, are in the files beside those at the start. */
  lemma {:induction false} StockedAside(fs: Files, acts: seq<Act>, n: nat, p: Path)
    requires n <= |acts| && !IsBackup(acts, p)
    ensures Entry(Stocked(fs, acts, n), p) == Entry(fs, p)
    decreases n
  {
    if n > 0 {
      StockedAside(fs, acts, n - 1, p);
    }
  }

  /** The only unsafe window: after a mutation that the disk does not prove, that
      changed something, and that follows no marked one on its target. */
  predicate SafeMoment(fs: Files, acts: seq<Act>, m: Moment)
    requires InInstall(acts, m)
  {
    m.Mutates? ==> Detectable(acts[m.n]) || acts[m.n].post == Found(fs, acts, m.n) || !FirstOnTarget(acts, m.n)
  }

  lemma MomentIsSafe(fs: Files, acts: seq<Act>, m: Moment)
    requires Honest(fs, acts) && InInstall(acts, m)
    ensures SafeCrash(Base(fs, acts, m), Journalled(acts, m), CrashOf(m)) <==> SafeMoment(fs, acts, m)
  {
    if m.Mutates? {
      ActTruthful(fs, acts, m.n + 1, m.n);
      TargetIsNoBackup(fs, acts, m.n);
      AfterStocked(fs, acts, m.n + 1, m.n, acts[m.n].op.target);
      assert acts[..m.n + 1][..m.n] == acts[..m.n];
      assert FirstOnTarget(acts[..m.n + 1], m.n) <==> FirstOnTarget(acts, m.n);
    }
    hide Stocked, FilesAfter, Honest, Detectable, Claimed;
  }

  lemma BaseAside(fs: Files, acts: seq<Act>, m: Moment, p: Path)
    requires InInstall(acts, m) && !IsBackup(acts, p)
    ensures Entry(Base(fs, acts, m), p) == Entry(fs, p)
  {
    StockedAside(fs, acts, m.n, p);
    if m.n < |acts| { StockedAside(fs, acts, m.n + 1, p); }
    hide Stocked;
  }

  /** An install cut off anywhere, its recovery cut off anywhere, and a full recovery: the
      files at the start are back, with the backups made by then beside them, if and only if
      the moment was safe and no cut lost anything. */
  lemma InstallCrashRestoresIff(fs: Files, acts: seq<Act>, m: Moment, cuts: seq<nat>)
    requires Honest(fs, acts) && InInstall(acts, m)
    ensures var s := InstallState(fs, acts, m);
            Recover(CutOff(s, cuts)) == State(Base(fs, acts, m), None) <==>
            SafeMoment(fs, acts, m) && NoLosingCut(s, cuts)
    ensures forall p | !IsBackup(acts, p) :: Entry(Base(fs, acts, m), p) == Entry(fs, p)
  {
    BaseTruthful(fs, acts, m);
    MomentIsSafe(fs, acts, m);
    CrashThenCutOffRecovery(Base(fs, acts, m), Journalled(acts, m), CrashOf(m), cuts);
    forall p | !IsBackup(acts, p) ensures Entry(Base(fs, acts, m), p) == Entry(fs, p) {
      BaseAside(fs, acts, m, p);
    }
    hide Base, Journalled, CrashState, SafeCrash, SafeMoment, NoLosingCut, Recover, CutOff, Truthful, Honest;
  }

  // ---- The install as code

  /** The files of a finished install. */
  function Installed(fs: Files, acts: seq<Act>): Files {
    FilesAfter(Stocked(fs, acts, |acts|), acts)
  }

  /** `s` is a moment of the install, its commit or its end. */
  ghost predicate OnInstall(fs: Files, acts: seq<Act>, s: State) {
    || s == State(Installed(fs, acts), None) || s == CrashState(Stocked(fs, acts, |acts|), acts, Committed)
    || exists m :: InInstall(acts, m) && s == InstallState(fs, acts, m)
  }

  lemma OnInstallAt(fs: Files, acts: seq<Act>, m: Moment)
    requires InInstall(acts, m)
    ensures OnInstall(fs, acts, InstallState(fs, acts, m))
  {}

  /** Every durable state since state number `from` is of the install. */
  ghost predicate SinceOnInstall(fs: Files, acts: seq<Act>, trace: seq<State>, from: nat) {
    from <= |trace| && forall k | from <= k < |trace| :: OnInstall(fs, acts, trace[k])
  }

  lemma MoreOnInstall(fs: Files, acts: seq<Act>, trace: seq<State>, more: seq<State>, from: nat)
    requires SinceOnInstall(fs, acts, trace, from) && forall s | s in more :: OnInstall(fs, acts, s)
    ensures SinceOnInstall(fs, acts, trace + more, from)
  {
    hide OnInstall;
    forall k | from <= k < |trace + more| ensures OnInstall(fs, acts, (trace + more)[k]) {
      if k >= |trace| { assert (trace + more)[k] == more[k - |trace|]; }
    }
  }

  /** The acts find the same in the files with their backups. */
  lemma FoundOnDisk(fs: Files, acts: seq<Act>, n: nat)
    requires Honest(fs, acts) && n < |acts|
    ensures Entry(FilesAfter(Stocked(fs, acts, n), acts[..n]), acts[n].op.target) == Found(fs, acts, n)
  {
    TargetIsNoBackup(fs, acts, n);
    AfterStocked(fs, acts, n, n, acts[n].op.target);
  }

  /** The states of a copy aside, seen from the state before it. */
  lemma CopyMoments(fs: Files, acts: seq<Act>, n: nat)
    requires Honest(fs, acts) && n < |acts| && CopiesAside(acts[n].op)
    ensures var was, op := InstallState(fs, acts, Rests(n)), acts[n].op;
            && op.target in was.files && was.files[op.target].File?
            && (op.kind.FileWrite? ==>
                  InstallState(fs, acts, Copying(n)) == State(was.files[op.predecessor.value := File("")], was.journal))
            && InstallState(fs, acts, Copied(n)) ==
               State(was.files[op.predecessor.value := was.files[op.target]], was.journal)
  {
    var backup := acts[n].op.predecessor.value;
    FoundOnDisk(fs, acts, n);
    assert Owes(fs, acts, n);
    AsideOfActs(fs, acts, n, backup, File(""));
    AsideOfActs(fs, acts, n, backup, Found(fs, acts, n).value);
    assert acts[..n][..n] == acts[..n];
    hide FilesAfter, Honest, Owes, Marked, Found;
  }

  /** The state before the intent of act n. */
  function Ready(acts: seq<Act>, n: nat): (m: Moment)
    requires n < |acts|
    ensures InInstall(acts, m)
  {
    if CopiesAside(acts[n].op) then Copied(n) else Rests(n)
  }

  /** The states of a journalled act, seen from the state before it. */
  lemma ApplyMoments(fs: Files, acts: seq<Act>, n: nat)
    requires n < |acts|
    ensures var was, op := InstallState(fs, acts, Ready(acts, n)), acts[n].op;
            var ops, after := was.journal.value.ops, Put(was.files, op.target, acts[n].post);
            && InstallState(fs, acts, Intends(n)) == State(was.files, Some(Journal(ops + [op], false)))
            && InstallState(fs, acts, Mutates(n)) == State(after, Some(Journal(ops + [op], false)))
            && InstallState(fs, acts, Rests(n + 1)) == State(after, Some(Journal(ops + [op.(applied := true)], false)))
  {
    assert acts[..n][..n] == acts[..n] == acts[..n + 1][..n] && acts[..n + 1][..n + 1] == acts[..n + 1];
    assert Marked(acts[..n + 1]) == Marked(acts[..n]) + [acts[n].op.(applied := true)];
    hide Marked, Found, Stocked;
  }

  function CopyStates(fs: Files, acts: seq<Act>, n: nat): seq<State>
    requires n < |acts| && CopiesAside(acts[n].op)
  {
    (if acts[n].op.kind.FileWrite? then [InstallState(fs, acts, Copying(n))] else []) +
    [InstallState(fs, acts, Copied(n))]
  }

  /** Copy what act n will change aside.  Copying truncates first; the receipt's copy replaces an old one. */
  method CopyAside(journal: TransactionJournal, acts: seq<Act>, n: nat, ghost fs: Files)
    requires journal.Open() && Honest(fs, acts) && n < |acts| && CopiesAside(acts[n].op)
    requires journal.disk.Now() == InstallState(fs, acts, Rests(n))
    modifies journal.disk
    ensures journal.Open() && journal.disk.Now() == InstallState(fs, acts, Copied(n))
    ensures journal.disk.trace == old(journal.disk.trace) + CopyStates(fs, acts, n)
  {
    CopyMoments(fs, acts, n);
    hide InstallState, Honest;
    var op, disk := acts[n].op, journal.disk;
    var backup, node := op.predecessor.value, disk.files[op.target];
    ghost var was := disk.files;
    if op.kind.FileWrite? {
      disk.Change(disk.files[backup := File("")]);
    }
    assert was[backup := File("")][backup := node] == was[backup := node];
    disk.Change(disk.files[backup := node]);
  }

  lemma AsideOfActs(fs: Files, acts: seq<Act>, n: nat, p: Path, node: Node)
    requires Honest(fs, acts) && n < |acts| && CopiesAside(acts[n].op) && p == acts[n].op.predecessor.value
    ensures FilesAfter(Stocked(fs, acts, n)[p := node], acts[..n])
            == FilesAfter(Stocked(fs, acts, n), acts[..n])[p := node]
  {
    assert Owes(fs, acts, n);
    NotTargeted(acts, p);
    AfterAside(Stocked(fs, acts, n), acts[..n], p, Some(node));
  }

  /** Apply the acts in order, each with its copy aside, stopping at the first whose mutation raises. */
  method ApplyAll(journal: TransactionJournal, acts: seq<Act>, raising: nat, ghost fs: Files) returns (ok: bool)
    requires journal.Open() && journal.data.ops == [] && journal.disk.files == fs
    requires raising <= |acts| && Honest(fs, acts)
    modifies journal, journal.disk
    ensures journal.Open() && (ok <==> raising == |acts|)
    ensures journal.disk.Now() == InstallState(fs, acts, if ok then Rests(|acts|) else Intends(raising))
    ensures SinceOnInstall(fs, acts, journal.disk.trace, |old(journal.disk.trace)|)
    ensures old(journal.disk.trace) <= journal.disk.trace
  {
    var n := 0;
    ok := true;
    assert Marked(acts[..0]) == [];
    while n < |acts| && ok
      invariant n <= raising && n <= |acts| && journal.Open()
      invariant !ok ==> n < |acts| && raising == n
      invariant journal.disk.Now() == InstallState(fs, acts, if ok then Rests(n) else Intends(n))
      invariant SinceOnInstall(fs, acts, journal.disk.trace, |old(journal.disk.trace)|)
      invariant old(journal.disk.trace) <= journal.disk.trace
      decreases |acts| - n, ok
    {
      ok := ApplyOne(journal, acts, n, n == raising, fs, |old(journal.disk.trace)|);
      if ok {
        n := n + 1;
      }
    }
  }

  /** Act n with its copy aside. */
  method ApplyOne(journal: TransactionJournal, acts: seq<Act>, n: nat, raises: bool, ghost fs: Files, ghost from: nat)
    returns (ok: bool)
    requires journal.Open() && Honest(fs, acts) && n < |acts| && journal.disk.Now() == InstallState(fs, acts, Rests(n))
    requires SinceOnInstall(fs, acts, journal.disk.trace, from)
    modifies journal, journal.disk
    ensures journal.Open() && ok == !raises && old(journal.disk.trace) <= journal.disk.trace
    ensures journal.disk.Now() == InstallState(fs, acts, if ok then Rests(n + 1) else Intends(n))
    ensures SinceOnInstall(fs, acts, journal.disk.trace, from)
  {
    hide Honest, InstallState, Owes, OnInstall, SinceOnInstall;
    if CopiesAside(acts[n].op) {
      ghost var trace := journal.disk.trace;
      CopyAside(journal, acts, n, fs);
      if acts[n].op.kind.FileWrite? { OnInstallAt(fs, acts, Copying(n)); }
      OnInstallAt(fs, acts, Copied(n));
      MoreOnInstall(fs, acts, trace, CopyStates(fs, acts, n), from);
    }
    ghost var trace := journal.disk.trace;
    ok := ApplyReady(journal, acts, n, raises, fs);
    OnInstallAt(fs, acts, Intends(n));
    OnInstallAt(fs, acts, Mutates(n));
    OnInstallAt(fs, acts, Rests(n + 1));
    MoreOnInstall(fs, acts, trace, ApplyStates(fs, acts, n, raises), from);
  }

  /** The durable states of act n from its intent on. */
  function ApplyStates(fs: Files, acts: seq<Act>, n: nat, raises: bool): seq<State>
    requires n < |acts|
  {
    if raises then [InstallState(fs, acts, Intends(n))]
    else [InstallState(fs, acts, Intends(n)), InstallState(fs, acts, Mutates(n)), InstallState(fs, acts, Rests(n + 1))]
  }

  /** Act n, ready to be journalled. */
  method ApplyReady(journal: TransactionJournal, acts: seq<Act>, n: nat, raises: bool, ghost fs: Files)
    returns (ok: bool)
    requires journal.Open() && Honest(fs, acts) && n < |acts|
             && journal.disk.Now() == InstallState(fs, acts, Ready(acts, n))
    modifies journal, journal.disk
    ensures journal.Open() && ok == !raises
    ensures journal.disk.Now() == InstallState(fs, acts, if ok then Rests(n + 1) else Intends(n))
    ensures journal.disk.trace == old(journal.disk.trace) + ApplyStates(fs, acts, n, raises)
  {
    assert !acts[n].op.applied by { assert Owes(fs, acts, n); }
    ApplyMoments(fs, acts, n);
    hide Honest, InstallState, Owes, Ready, FilesAfter, Stocked, Marked;
    ok := journal.Apply(acts[n].op, if raises then Raises else Leaves(acts[n].post), None);
  }

  /** The commit is durable before the journal goes. */
  method CommitInstall(journal: TransactionJournal, acts: seq<Act>, ghost fs: Files, ghost from: nat)
    requires journal.Open() && journal.disk.Now() == InstallState(fs, acts, Rests(|acts|))
    requires SinceOnInstall(fs, acts, journal.disk.trace, from)
    modifies journal, journal.disk
    ensures journal.disk.Valid() && journal.disk.journal.None?
    ensures journal.disk.files == Installed(fs, acts)
    ensures SinceOnInstall(fs, acts, journal.disk.trace, from)
  {
    ghost var disk := journal.disk;
    ghost var trace := disk.trace;
    assert acts[..|acts|] == acts && disk.files == Installed(fs, acts);
    hide Stocked, FilesAfter, Marked, Installed;
    ghost var committed := State(disk.files, Some(Journal(Marked(acts), true)));
    assert CrashState(Stocked(fs, acts, |acts|), acts, Committed) == committed;
    hide InstallState;
    journal.Commit();
    MoreOnInstall(fs, acts, trace, [committed, disk.Now()], from);
  }

  /** An install: apply every act, verify, commit, and recover if anything
      raised.  `raising` is the first act whose mutation raises, |acts| when none does. */
  method Lifecycle(disk: Disk, acts: seq<Act>, raising: nat, verified: bool) returns (ok: bool)
    requires disk.Valid() && disk.journal.None? && raising <= |acts|
    requires Honest(disk.files, acts)
    modifies disk
    ensures disk.Valid() && disk.journal.None?
    ensures ok <==> raising == |acts| && verified
    ensures ok ==>
              && disk.files == Installed(old(disk.files), acts)
              && SinceOnInstall(old(disk.files), acts, disk.trace, |old(disk.trace)|)
    ensures !ok ==> forall p | !IsBackup(acts, p) :: Entry(disk.files, p) == Entry(old(disk.files), p)
  {
    ghost var fs := disk.files;
    var journal := new TransactionJournal(disk);
    journal.Begin();
    assert Marked(acts[..0]) == [];
    OnInstallAt(fs, acts, Rests(0));
    ok := ApplyAll(journal, acts, raising, fs);
    if ok && verified {
      hide Stocked, FilesAfter, Marked, Honest, InstallState, Installed, OnInstall, SinceOnInstall;
      CommitInstall(journal, acts, fs, |old(disk.trace)|);
    } else {
      ghost var m := if ok then Rests(|acts|) else Intends(raising);
      InstallCrashRestoresIff(fs, acts, m, []);
      hide InstallState, Base, Honest, OnInstall, Recover;
      var done := RecoverDisk(disk);
      ok := false;
    }
  }
}
