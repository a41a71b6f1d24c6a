/** What recovery leaves of an uninstall that is cut off at any durable state. */
module UninstallCuts {
  import opened Options
  import opened FileSystem
  import opened JournalSpec
  import opened JournalClaims
  import opened UninstallSpec

  // ---- The records of an uninstall

  predicate IsRemovable(fs: Files, owned: seq<Owned>, p: Path) {
    exists i :: 0 <= i < |owned| && owned[i].path == p && WouldRemove(fs, owned[i])
  }

  /** The link's own record: it claims the predecessor that is put back. */
  predicate LinkRecord(fs: Files, owned: seq<Owned>, op: Op) {
    && op.kind.Unlink? && op.result.NoResult?
    && exists i :: 0 <= i < |owned| && owned[i].path == op.target && WouldRemove(fs, owned[i])
                   && owned[i].predecessor == op.predecessor
  }

  predicate PutBackRecord(fs: Files, owned: seq<Owned>, op: Op) {
    op.kind.Symlink? && op.predecessor.None? && IsRemovable(fs, owned, op.target)
  }

  /** A host file with the backup of what was in it. */
  predicate WiringRecord(fs: Files, owned: seq<Owned>, wiring: Wiring, op: Op) {
    && op.kind.FileWrite?
    && (exists i :: 0 <= i < |owned| && owned[i].path == op.target && owned[i].kind.WiringPath?)
    && op.target in fs && fs[op.target].File?
    && op.predecessor == Some(wiring.backupOf(op.target, fs[op.target].bytes))
  }

  predicate CurrentRecord(fs: Files, paths: InstallPaths, op: Op) {
    && op.kind.Unlink? && op.result.NoResult?
    && op.target == paths.current && IsLink(fs, paths.current) && op.predecessor == Some(fs[paths.current].text)
  }

  predicate ReceiptRecord(paths: InstallPaths, op: Op) {
    op.kind.Receipt? && op.target == paths.receipt && op.predecessor.None?
  }

  predicate OwnRecord(fs: Files, paths: InstallPaths, owned: seq<Owned>, wiring: Wiring, op: Op) {
    || LinkRecord(fs, owned, op) || PutBackRecord(fs, owned, op) || WiringRecord(fs, owned, wiring, op)
    || CurrentRecord(fs, paths, op) || ReceiptRecord(paths, op)
  }

  /** The files are as at the start but for backups. */
  ghost predicate SameButBackups(fs: Files, base: Files, paths: InstallPaths) {
    forall p | !Beneath(p, paths.backups) :: Entry(base, p) == Entry(fs, p)
  }

  /** Each host file's backup holds what was in it. */
  ghost predicate BackedUp(fs: Files, base: Files, op: Op) {
    op.kind.FileWrite? ==> Claimed(base, op) == Entry(fs, op.target)
  }

  /** A link put back follows the record of its removal. */
  ghost predicate InOrder(ops: seq<Op>) {
    forall i | 0 <= i < |ops| && ops[i].kind.Symlink? :: !FirstOp(ops, i)
  }

  /** Where the target of an unmarked last record stands: as at the start, or as its mutation leaves it. */
  ghost predicate OnTime(fs: Files, fs': Files, op: Op) {
    && (op.kind.Unlink? || op.kind.Receipt? ==> Entry(fs', op.target) == Entry(fs, op.target) || op.target !in fs')
    && (op.kind.FileWrite? ==> Entry(fs', op.target) == Entry(fs, op.target) || Proven(fs', op))
  }

  /** A durable state inside the transaction of an uninstall that began with the files `fs`. */
  ghost predicate Inside(fs: Files, paths: InstallPaths, owned: seq<Owned>, wiring: Wiring, base: Files, s: State) {
    && Pending(s)
    && var ops := s.journal.value.ops;
    && SameButBackups(fs, base, paths) && Shaped(base, s.files, ops) && InOrder(ops)
    && (forall op | op in ops :: OwnRecord(fs, paths, owned, wiring, op) && BackedUp(fs, base, op))
    && (ops != [] && !ops[|ops| - 1].applied && FirstOp(ops, |ops| - 1) ==> OnTime(fs, s.files, ops[|ops| - 1]))
  }

  ghost predicate CutInside(fs: Files, paths: InstallPaths, owned: seq<Owned>, wiring: Wiring, s: State) {
    exists base :: Inside(fs, paths, owned, wiring, base, s)
  }

  /** Between two operations: every record is marked. */
  ghost predicate AtRest(fs: Files, paths: InstallPaths, owned: seq<Owned>, wiring: Wiring, base: Files, s: State) {
    Inside(fs, paths, owned, wiring, base, s) && forall op | op in s.journal.value.ops :: op.applied
  }

  // ---- What recovery leaves

  predicate MarkedOn(s: State, p: Path)
    requires Pending(s)
  {
    exists i :: 0 <= i < |s.journal.value.ops| && s.journal.value.ops[i].target == p && s.journal.value.ops[i].applied
  }

  /** The layout keeps the kinds of records apart. */
  lemma RecordFamilies(fs: Files, paths: InstallPaths, owned: seq<Owned>, wiring: Wiring, a: Op, b: Op)
    requires IsDistinctLayout(paths, owned) && WellNamed(wiring, paths)
    requires OwnRecord(fs, paths, owned, wiring, a) && OwnRecord(fs, paths, owned, wiring, b)
    ensures SameFamily(a, b)
    ensures !Beneath(a.target, paths.backups)
    ensures a.target == b.target ==>
              && (CurrentRecord(fs, paths, a) ==> CurrentRecord(fs, paths, b))
              && (ReceiptRecord(paths, a) ==> ReceiptRecord(paths, b))
              && (WiringRecord(fs, owned, wiring, a) ==> WiringRecord(fs, owned, wiring, b))
              && (LinkRecord(fs, owned, a) && b.kind.Unlink? ==> a.predecessor == b.predecessor)
  {
    assert forall i | 0 <= i < |owned| :: Moves(paths, owned, owned[i].path);
    assert Moves(paths, owned, paths.receipt);
    assert forall p :: Beneath(p, paths.backups) ==> Moves(paths, owned, p);
    hide Beneath, WouldRemove, WithinTree;
  }

  /** What recovery leaves at a path is told by the first record on it, and by the
      files where there is none or it is not undone. */
  lemma FirstRecordDecides(fs: Files, paths: InstallPaths, owned: seq<Owned>, wiring: Wiring, base: Files, s: State,
                           p: Path)
    returns (first: Option<Op>)
    requires Inside(fs, paths, owned, wiring, base, s)
    ensures first.None? ==> Entry(Recover(s).files, p) == Entry(s.files, p) == Entry(base, p) && !MarkedOn(s, p)
    ensures first.Some? ==>
              var op := first.value;
              && op in s.journal.value.ops && op.target == p && !op.kind.Symlink? && (op.applied <==> MarkedOn(s, p))
              && (!op.applied ==> OnTime(fs, s.files, op))
              && Entry(Recover(s).files, p) == if Proven(s.files, op) then Claimed(base, op) else Entry(s.files, p)
  {
    hide *;
    InsideParts(fs, paths, owned, wiring, base, s);
    var ops := s.journal.value.ops;
    RecoverGivesClaims(base, s);
    if i :| 0 <= i < |ops| && ops[i].target == p {
      var k := HasFirst(ops, p, i);
      RecoveredFirst(base, s.files, ops, k);
      FirstIsMarked(base, s, k);
      FirstInOrder(ops, k);
      first := Some(ops[k]);
    } else {
      first := None;
      RecoveredElsewhere(base, s.files, ops, p);
      NoneOn(base, s, p);
    }
  }

  lemma InsideParts(fs: Files, paths: InstallPaths, owned: seq<Owned>, wiring: Wiring, base: Files, s: State)
    requires Inside(fs, paths, owned, wiring, base, s)
    ensures Pending(s) && s.journal.Some?
    ensures var ops := s.journal.value.ops;
            && Shaped(base, s.files, ops) && InOrder(ops)
            && (ops != [] && !ops[|ops| - 1].applied && FirstOp(ops, |ops| - 1) ==> OnTime(fs, s.files, ops[|ops| - 1]))
  {
    hide Shaped, InOrder, OnTime, OwnRecord, BackedUp;
  }

  lemma FirstInOrder(ops: seq<Op>, k: nat)
    requires InOrder(ops) && k < |ops| && FirstOp(ops, k)
    ensures !ops[k].kind.Symlink?
  {}

  lemma NoneOn(base: Files, s: State, p: Path)
    requires Pending(s) && Shaped(base, s.files, s.journal.value.ops)
    requires forall i | 0 <= i < |s.journal.value.ops| :: s.journal.value.ops[i].target != p
    ensures Entry(s.files, p) == Entry(base, p) && !MarkedOn(s, p)
  {
    assert p !in Targets(s.journal.value.ops);
    hide ShapedAt;
  }

  lemma FirstIsMarked(base: Files, s: State, k: nat)
    requires Pending(s) && Shaped(base, s.files, s.journal.value.ops) && k < |s.journal.value.ops|
             && FirstOp(s.journal.value.ops, k)
    ensures s.journal.value.ops[k].applied <==> MarkedOn(s, s.journal.value.ops[k].target)
    ensures !s.journal.value.ops[k].applied ==> k == |s.journal.value.ops| - 1
  {
    var ops := s.journal.value.ops;
    assert ShapedAt(base, s.files, ops, k);
    hide ShapedAt;
    if MarkedOn(s, ops[k].target) {
      var j :| 0 <= j < |ops| && ops[j].target == ops[k].target && ops[j].applied;
      assert k <= j;
    }
  }

  function PutBack(item: Owned): Option<Node> {
    if item.predecessor.Some? then Some(Link(item.predecessor.value)) else None
  }

  lemma RecordOfLink(fs: Files, paths: InstallPaths, owned: seq<Owned>, wiring: Wiring, op: Op, i: nat)
    requires IsDistinctLayout(paths, owned) && WellNamed(wiring, paths) && OwnRecord(fs, paths, owned, wiring, op)
    requires i < |owned| && WouldRemove(fs, owned[i]) && op.target == owned[i].path && !op.kind.Symlink?
    ensures LinkRecord(fs, owned, op)
  {
    assert Moves(paths, owned, op.target);
    hide WouldRemove;
  }

  /** Link by link: once its record is marked, recovery puts the item's predecessor
      back, or nothing, and never the link that was removed; before the mark it leaves what is there. */
  lemma CutLeavesLink(fs: Files, paths: InstallPaths, owned: seq<Owned>, wiring: Wiring, base: Files, s: State, i: nat)
    requires IsDistinctLayout(paths, owned) && WellNamed(wiring, paths) && Inside(fs, paths, owned, wiring, base, s)
    requires i < |owned| && WouldRemove(fs, owned[i])
    ensures Entry(Recover(s).files, owned[i].path) ==
            if MarkedOn(s, owned[i].path) then PutBack(owned[i]) else Entry(s.files, owned[i].path)
    ensures !MarkedOn(s, owned[i].path) ==>
              Entry(s.files, owned[i].path) == Entry(fs, owned[i].path) || owned[i].path !in s.files
  {
    var p := owned[i].path;
    assert Moves(paths, owned, p);
    var first := FirstRecordDecides(fs, paths, owned, wiring, base, s, p);
    hide Recover, Shaped, WouldRemove;
    if first.Some? {
      var op := first.value;
      RecordOfLink(fs, paths, owned, wiring, op, i);
      hide OwnRecord;
    }
  }

  /** `current` comes back once its record is marked, and a host file always. */
  lemma CutLeavesRest(fs: Files, paths: InstallPaths, owned: seq<Owned>, wiring: Wiring, base: Files, s: State, p: Path)
    requires IsDistinctLayout(paths, owned) && WellNamed(wiring, paths) && Inside(fs, paths, owned, wiring, base, s)
    requires !Beneath(p, paths.backups) && !IsRemovable(fs, owned, p) && p != paths.receipt
    ensures p == paths.current ==>
              Entry(Recover(s).files, p) == if MarkedOn(s, p) then Entry(fs, p) else Entry(s.files, p)
    ensures p != paths.current ==> Entry(Recover(s).files, p) == Entry(fs, p)
  {
    var first := FirstRecordDecides(fs, paths, owned, wiring, base, s, p);
    assert forall i | 0 <= i < |owned| :: Moves(paths, owned, owned[i].path);
    hide Recover, Shaped, WouldRemove;
    if first.Some? {
      var op := first.value;
      assert OwnRecord(fs, paths, owned, wiring, op) && BackedUp(fs, base, op);
      assert CurrentRecord(fs, paths, op) || WiringRecord(fs, owned, wiring, op);
    }
  }

  /** The receipt is gone once its record is marked. */
  lemma CutLeavesReceipt(fs: Files, paths: InstallPaths, owned: seq<Owned>, wiring: Wiring, base: Files, s: State)
    requires IsDistinctLayout(paths, owned) && WellNamed(wiring, paths) && Inside(fs, paths, owned, wiring, base, s)
    ensures Entry(Recover(s).files, paths.receipt) ==
            if MarkedOn(s, paths.receipt) then None else Entry(s.files, paths.receipt)
    ensures !MarkedOn(s, paths.receipt) ==>
              Entry(s.files, paths.receipt) == Entry(fs, paths.receipt) || paths.receipt !in s.files
  {
    var p := paths.receipt;
    var first := FirstRecordDecides(fs, paths, owned, wiring, base, s, p);
    hide Recover, Shaped, WouldRemove;
    if first.Some? {
      var op := first.value;
      assert OwnRecord(fs, paths, owned, wiring, op);
      assert ReceiptRecord(paths, op);
    }
  }

  /** All of it for a cut at any durable state, path by path. */
  lemma CutUninstallLeaves(fs: Files, paths: InstallPaths, owned: seq<Owned>, wiring: Wiring, s: State)
    requires IsDistinctLayout(paths, owned) && WellNamed(wiring, paths) && CutInside(fs, paths, owned, wiring, s)
    ensures forall i | 0 <= i < |owned| && WouldRemove(fs, owned[i]) ::
              Entry(Recover(s).files, owned[i].path) ==
              if MarkedOn(s, owned[i].path) then PutBack(owned[i]) else Entry(s.files, owned[i].path)
    ensures Entry(Recover(s).files, paths.receipt) ==
            if MarkedOn(s, paths.receipt) then None else Entry(s.files, paths.receipt)
    ensures Entry(Recover(s).files, paths.current) ==
            if MarkedOn(s, paths.current) then Entry(fs, paths.current) else Entry(s.files, paths.current)
    ensures forall p | !Beneath(p, paths.backups) && !IsRemovable(fs, owned, p) &&
                       p != paths.receipt && p != paths.current ::
              Entry(Recover(s).files, p) == Entry(fs, p)
  {
    var base :| Inside(fs, paths, owned, wiring, base, s);
    forall i | 0 <= i < |owned| && WouldRemove(fs, owned[i])
      ensures Entry(Recover(s).files, owned[i].path) ==
              if MarkedOn(s, owned[i].path) then PutBack(owned[i]) else Entry(s.files, owned[i].path)
    {
      CutLeavesLink(fs, paths, owned, wiring, base, s, i);
    }
    CutLeavesReceipt(fs, paths, owned, wiring, base, s);
    assert forall i | 0 <= i < |owned| :: Moves(paths, owned, owned[i].path);
    assert Moves(paths, owned, paths.receipt);
    assert !Beneath(paths.current, paths.backups) by {
      assert Beneath(paths.current, paths.backups) ==> Moves(paths, owned, paths.current);
    }
    hide Recover, Inside, WouldRemove, MarkedOn, Beneath;
    CutLeavesRest(fs, paths, owned, wiring, base, s, paths.current);
    forall p | !Beneath(p, paths.backups) && !IsRemovable(fs, owned, p) && p != paths.receipt && p != paths.current
      ensures Entry(Recover(s).files, p) == Entry(fs, p)
    {
      CutLeavesRest(fs, paths, owned, wiring, base, s, p);
    }
  }

  /** What one can tell from the disk the cut left: every link is untouched, or
      marked with its own text as predecessor; `current` is there or marked; the
      receipt was never there or is untouched. */
  ghost predicate StillWhole(fs: Files, paths: InstallPaths, owned: seq<Owned>, s: State)
    requires Pending(s)
  {
    && (forall i | 0 <= i < |owned| && WouldRemove(fs, owned[i]) ::
          if MarkedOn(s, owned[i].path) then owned[i].predecessor == owned[i].target else owned[i].path in s.files)
    && (MarkedOn(s, paths.current) || Entry(s.files, paths.current) == Entry(fs, paths.current))
    && (if MarkedOn(s, paths.receipt) then paths.receipt !in fs
        else Entry(s.files, paths.receipt) == Entry(fs, paths.receipt))
  }

  /** Recovery from an uninstall cut off at any durable state removes the journal,
      and gives back the files the uninstall began with, backups aside, if and only if they are still whole. */
  lemma CutUninstallRestoresIff(fs: Files, paths: InstallPaths, owned: seq<Owned>, wiring: Wiring, s: State)
    requires IsDistinctLayout(paths, owned) && WellNamed(wiring, paths) && CutInside(fs, paths, owned, wiring, s)
    ensures Recover(s).journal.None?
    ensures SameButBackups(fs, Recover(s).files, paths) <==> StillWhole(fs, paths, owned, s)
  {
    var base :| Inside(fs, paths, owned, wiring, base, s);
    RecoverGivesClaims(base, s);
    var end := Recover(s).files;
    assert forall i | 0 <= i < |owned| :: Moves(paths, owned, owned[i].path);
    assert Moves(paths, owned, paths.receipt);
    assert !Beneath(paths.current, paths.backups) by {
      assert Beneath(paths.current, paths.backups) ==> Moves(paths, owned, paths.current);
    }
    forall i | 0 <= i < |owned| && WouldRemove(fs, owned[i])
      ensures Entry(end, owned[i].path) == Entry(fs, owned[i].path) <==>
              if MarkedOn(s, owned[i].path) then owned[i].predecessor == owned[i].target else owned[i].path in s.files
    {
      CutLeavesLink(fs, paths, owned, wiring, base, s, i);
    }
    CutLeavesReceipt(fs, paths, owned, wiring, base, s);
    forall p | !Beneath(p, paths.backups) && !IsRemovable(fs, owned, p) && p != paths.receipt
      ensures p == paths.current ==> Entry(end, p) == if MarkedOn(s, p) then Entry(fs, p) else Entry(s.files, p)
      ensures p != paths.current ==> Entry(end, p) == Entry(fs, p)
    {
      CutLeavesRest(fs, paths, owned, wiring, base, s, p);
    }
    hide Recover, Inside, WouldRemove, MarkedOn, Beneath;
    assert !IsRemovable(fs, owned, paths.current);
    if SameButBackups(fs, end, paths) {
      forall i | 0 <= i < |owned| && WouldRemove(fs, owned[i])
        ensures if MarkedOn(s, owned[i].path) then owned[i].predecessor == owned[i].target else owned[i].path in s.files
      {
        assert !Beneath(owned[i].path, paths.backups);
      }
      assert Entry(end, paths.current) == Entry(fs, paths.current);
      assert Entry(end, paths.receipt) == Entry(fs, paths.receipt);
    }
  }

  // ---- One operation of the uninstall

  /** The operation may come next: its record is one of the uninstall's, its target
      is as the record needs it, and its mutation leaves what is on time. */
  ghost predicate MayFollow(fs: Files, paths: InstallPaths, owned: seq<Owned>, wiring: Wiring, base: Files, s: State,
                            op: Op, post: Option<Node>)
    requires Pending(s)
  {
    && !op.applied && OwnRecord(fs, paths, owned, wiring, op) && BackedUp(fs, base, op)
    && (op.kind.Symlink? ==> exists o :: o in s.journal.value.ops && o.target == op.target)
    && Suits(op.kind, Entry(s.files, op.target)) && Suits(op.kind, post) && Suits(op.kind, Claimed(base, op))
    && (op.kind.FileWrite? ==> op.predecessor.value in base && base[op.predecessor.value].File?)
    && (!op.kind.Symlink? ==> Entry(s.files, op.target) == Entry(fs, op.target))
    && (op.kind.Unlink? || op.kind.Receipt? ==> post.None?)
    && (op.kind.FileWrite? ==> Detectable(Act(op, post)))
  }

  lemma BackupsAside(fs: Files, paths: InstallPaths, owned: seq<Owned>, wiring: Wiring, base: Files, o: Op,
                     target: Path)
    requires IsDistinctLayout(paths, owned) && WellNamed(wiring, paths) && OwnRecord(fs, paths, owned, wiring, o)
    requires !Beneath(target, paths.backups) && BackupKept(base, o, {})
    ensures BackupKept(base, o, {target})
  {}

  lemma MarkKeepsShape(fs0: Files, fs: Files, ops: seq<Op>, op: Op)
    requires Shaped(fs0, fs, ops + [op])
    ensures Shaped(fs0, fs, ops + [op.(applied := true)])
  {
    var a, b := ops + [op], ops + [op.(applied := true)];
    assert forall i | 0 <= i < |a| ::
             a[i].kind == b[i].kind && a[i].target == b[i].target && a[i].predecessor == b[i].predecessor;
    assert Targets(a) == Targets(ops) + {op.target} == Targets(b);
    forall i | 0 <= i < |b| ensures ShapedAt(fs0, fs, b, i) {
      assert ShapedAt(fs0, fs, a, i);
    }
    forall i, j | 0 <= i < j < |b| ensures SameFamily(b[i], b[j]) {
      assert SameFamily(a[i], a[j]);
    }
  }

  lemma OrderKept(ops: seq<Op>, op: Op)
    requires InOrder(ops) && (op.kind.Symlink? ==> exists o :: o in ops && o.target == op.target)
    ensures InOrder(ops + [op])
  {
    var ops' := ops + [op];
    forall i | 0 <= i < |ops'| && ops'[i].kind.Symlink? ensures !FirstOp(ops', i) {
      if i < |ops| {
        assert !FirstOp(ops, i);
        var j :| 0 <= j < i && ops[j].target == ops[i].target;
        assert ops'[j].target == ops'[i].target;
      } else {
        var o :| o in ops && o.target == op.target;
        var j :| 0 <= j < |ops| && ops[j] == o;
        assert ops'[j].target == ops'[i].target;
      }
    }
  }

  /** All durable states of the operation are inside the uninstall, and after its mark it is at rest again. */
  lemma ApplyStaysInside(fs: Files, paths: InstallPaths, owned: seq<Owned>, wiring: Wiring, base: Files, s: State,
                         op: Op, post: Option<Node>)
    requires IsDistinctLayout(paths, owned) && WellNamed(wiring, paths)
    requires AtRest(fs, paths, owned, wiring, base, s) && MayFollow(fs, paths, owned, wiring, base, s, op, post)
    ensures var ops := s.journal.value.ops;
            && Inside(fs, paths, owned, wiring, base, State(s.files, Some(Journal(ops + [op], false))))
            && Inside(fs, paths, owned, wiring, base,
                      State(Put(s.files, op.target, post), Some(Journal(ops + [op], false))))
            && AtRest(fs, paths, owned, wiring, base,
                      State(Put(s.files, op.target, post), Some(Journal(ops + [op.(applied := true)], false))))
  {
    var ops, marked := s.journal.value.ops, op.(applied := true);
    var after := Put(s.files, op.target, post);
    ShapeStays(fs, paths, owned, wiring, base, s, op, post);
    MarkKeepsShape(base, after, ops, op);
    MarkIsOwn(fs, paths, owned, wiring, base, op);
    assert !op.kind.Symlink? ==> OnTime(fs, s.files, op) && OnTime(fs, after, op);
    hide *;
    NextInside(fs, paths, owned, wiring, base, s, s.files, op);
    NextInside(fs, paths, owned, wiring, base, s, after, op);
    NextInside(fs, paths, owned, wiring, base, s, after, marked);
    AllMarked(fs, paths, owned, wiring, base, s, after, marked);
  }

  lemma NextInside(fs: Files, paths: InstallPaths, owned: seq<Owned>, wiring: Wiring, base: Files, s: State,
                   files: Files, op: Op)
    requires AtRest(fs, paths, owned, wiring, base, s) && Shaped(base, files, s.journal.value.ops + [op])
    requires OwnRecord(fs, paths, owned, wiring, op) && BackedUp(fs, base, op)
    requires op.kind.Symlink? ==> exists o :: o in s.journal.value.ops && o.target == op.target
    requires !op.applied && !op.kind.Symlink? ==> OnTime(fs, files, op)
    ensures Inside(fs, paths, owned, wiring, base, State(files, Some(Journal(s.journal.value.ops + [op], false))))
  {
    var ops := s.journal.value.ops;
    OrderKept(ops, op);
    assert forall o | o in ops + [op] :: o in ops || o == op;
    hide Shaped, OwnRecord, BackedUp, OnTime;
  }

  lemma AllMarked(fs: Files, paths: InstallPaths, owned: seq<Owned>, wiring: Wiring, base: Files, s: State,
                  files: Files, op: Op)
    requires AtRest(fs, paths, owned, wiring, base, s) && op.applied
    requires Inside(fs, paths, owned, wiring, base, State(files, Some(Journal(s.journal.value.ops + [op], false))))
    ensures AtRest(fs, paths, owned, wiring, base, State(files, Some(Journal(s.journal.value.ops + [op], false))))
  {
    assert forall o | o in s.journal.value.ops + [op] :: o in s.journal.value.ops || o == op;
  }

  lemma MarkIsOwn(fs: Files, paths: InstallPaths, owned: seq<Owned>, wiring: Wiring, base: Files, op: Op)
    requires OwnRecord(fs, paths, owned, wiring, op) && BackedUp(fs, base, op)
    ensures OwnRecord(fs, paths, owned, wiring, op.(applied := true)) && BackedUp(fs, base, op.(applied := true))
  {}

  lemma ShapeStays(fs: Files, paths: InstallPaths, owned: seq<Owned>, wiring: Wiring, base: Files, s: State,
                   op: Op, post: Option<Node>)
    requires IsDistinctLayout(paths, owned) && WellNamed(wiring, paths)
    requires AtRest(fs, paths, owned, wiring, base, s) && MayFollow(fs, paths, owned, wiring, base, s, op, post)
    ensures var ops := s.journal.value.ops;
            Shaped(base, s.files, ops + [op]) && Shaped(base, Put(s.files, op.target, post), ops + [op])
  {
    var ops := s.journal.value.ops;
    RecordFamilies(fs, paths, owned, wiring, op, op);
    forall o | o in ops
      ensures SameFamily(o, op) && BackupKept(base, o, {op.target}) && !Beneath(o.target, paths.backups)
    {
      RecordFamilies(fs, paths, owned, wiring, o, op);
      var i :| 0 <= i < |ops| && ops[i] == o;
      assert ShapedAt(base, s.files, ops, i);
      BackupsAside(fs, paths, owned, wiring, base, o, op.target);
    }
    assert BackupKept(base, op, Targets(ops) + {op.target}) by {
      if !OnLinks(op.kind) && op.predecessor.Some? {
        assert WiringRecord(fs, owned, wiring, op);
        assert Beneath(op.predecessor.value, paths.backups);
      }
    }
    hide OwnRecord, Beneath, BackedUp;
    StepShaped(base, s.files, ops, op, post);
  }

  /** Writing a new backup keeps the uninstall at rest. */
  lemma BackupStaysAtRest(fs: Files, paths: InstallPaths, owned: seq<Owned>, wiring: Wiring, base: Files, s: State,
                          backup: Path, node: Node)
    requires IsDistinctLayout(paths, owned) && WellNamed(wiring, paths) && AtRest(fs, paths, owned, wiring, base, s)
    requires Beneath(backup, paths.backups) && forall o | o in s.journal.value.ops ::
               OnLinks(o.kind) || o.predecessor != Some(backup)
    ensures AtRest(fs, paths, owned, wiring, base[backup := node], State(s.files[backup := node], s.journal))
  {
    var ops := s.journal.value.ops;
    forall o | o in ops ensures o.target != backup {
      RecordFamilies(fs, paths, owned, wiring, o, o);
    }
    assert backup !in Targets(ops);
    AsideShaped(base, s.files, ops, backup, node);
    hide Shaped, OwnRecord;
  }

  /** Every pending state of the trace since state number `from` is inside the uninstall. */
  ghost predicate Watched(fs: Files, paths: InstallPaths, owned: seq<Owned>, wiring: Wiring, trace: seq<State>,
                          from: nat)
  {
    from <= |trace| &&
    forall k | from <= k < |trace| && Pending(trace[k]) :: CutInside(fs, paths, owned, wiring, trace[k])
  }
}
