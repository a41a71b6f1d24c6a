/** Rolling `current` and the receipt back to the predecessor release, and what
    recovery leaves of a rollback that is cut off. */
module Rollbacks {
  import opened Options
  import opened FileSystem
  import opened JournalSpec
  import opened JournalClaims
  import opened Journals

  datatype RollbackPaths = RollbackPaths(current: Path, receipt: Path)

  function CurrentOp(fs: Files, paths: RollbackPaths, release: string): Op {
    Op(Symlink, paths.current, if IsLink(fs, paths.current) then Some(fs[paths.current].text) else None,
       LinkTo(release), false)
  }

  function ReceiptOp(paths: RollbackPaths): Op {
    Op(Receipt, paths.receipt, None, NoResult, false)
  }

  /** `current` is a link or nothing, the receipt a regular file or nothing. */
  predicate Plain(fs: Files, paths: RollbackPaths) {
    && paths.current != paths.receipt
    && (paths.current in fs ==> fs[paths.current].Link?)
    && (paths.receipt in fs ==> fs[paths.receipt].File?)
  }

  /** How far a rollback came: its journal begun, the intent on `current`, the old
      link unlinked, the new one made, marked; then the intent on the receipt, its file written, marked. */
  datatype Progress = Begun | CurrentIntended | CurrentUnlinked | CurrentLinked | CurrentMarked
                    | ReceiptIntended | ReceiptWritten | ReceiptMarked

  function StateAt(fs: Files, paths: RollbackPaths, release: string, receipt: string, at: Progress): State {
    var c, r := CurrentOp(fs, paths, release), ReceiptOp(paths);
    var marked := c.(applied := true);
    var gone, linked := fs - {paths.current}, fs[paths.current := Link(release)];
    var written := linked[paths.receipt := File(receipt)];
    match at
    case Begun => State(fs, Some(Journal([], false)))
    case CurrentIntended => State(fs, Some(Journal([c], false)))
    case CurrentUnlinked => State(gone, Some(Journal([c], false)))
    case CurrentLinked => State(linked, Some(Journal([c], false)))
    case CurrentMarked => State(linked, Some(Journal([marked], false)))
    case ReceiptIntended => State(linked, Some(Journal([marked, r], false)))
    case ReceiptWritten => State(written, Some(Journal([marked, r], false)))
    case ReceiptMarked => State(written, Some(Journal([marked, r.(applied := true)], false)))
  }

  /** The pending states of the trace since state number `from` are those of the rollback. */
  ghost predicate OnRollback(fs: Files, paths: RollbackPaths, release: string, receipt: string, trace: seq<State>,
                             from: nat)
  {
    from <= |trace| &&
    forall k | from <= k < |trace| && Pending(trace[k]) :: AtSome(fs, paths, release, receipt, trace[k])
  }

  ghost predicate AtSome(fs: Files, paths: RollbackPaths, release: string, receipt: string, s: State) {
    exists at :: s == StateAt(fs, paths, release, receipt, at)
  }

  lemma AtSomeAll(fs: Files, paths: RollbackPaths, release: string, receipt: string)
    ensures forall at :: AtSome(fs, paths, release, receipt, StateAt(fs, paths, release, receipt, at))
  {}

  predicate IsDirectory(fs: Files, p: Path) {
    p in fs && fs[p].Dir?
  }

  /** Where a rollback of the files `fs` raises, if it does: it cannot unlink a directory at `current`,
      write the receipt over a directory, or make a receipt of what it cannot read. */
  function RaisesAt(fs: Files, paths: RollbackPaths, receipt: Option<string>): Option<Progress> {
    if IsDirectory(fs, paths.current) then Some(CurrentIntended)
    else if receipt.None? || IsDirectory(fs, paths.receipt) then Some(ReceiptIntended)
    else None
  }

  /** The rollback: `current` moves in two system calls, the receipt in one.  `receipt` is
      the predecessor's receipt, None if making it raises.  A rollback that raises leaves its journal. */
  method Rollback(disk: Disk, paths: RollbackPaths, release: string, receipt: Option<string>) returns (ok: bool)
    requires disk.Valid() && paths.current != paths.receipt
    modifies disk
    ensures ok <==>
            Recover(old(disk.Now())).journal.None? && RaisesAt(Recover(old(disk.Now())).files, paths, receipt).None?
    ensures ok <==>
            var s := Recover(old(disk.Now()));
            && s.journal.None? && receipt.Some?
            && (paths.current in s.files ==> !s.files[paths.current].Dir?)
            && (paths.receipt in s.files ==> !s.files[paths.receipt].Dir?)
    ensures var s := Recover(old(disk.Now()));
            s.journal.None? && !ok ==>
              && disk.journal.Some? && !disk.journal.value.committed
              && disk.files == if paths.current in s.files && s.files[paths.current].Dir? then s.files
                               else s.files[paths.current := Link(release)]
    ensures Recover(old(disk.Now())).journal.None? ==>
              var fs, from := Recover(old(disk.Now())).files, |old(disk.trace)| + |RecoverTrace(old(disk.Now()))| - 1;
              RolledBack(fs, disk.Now(), disk.trace, from, paths, release, receipt)
  {
    ok := RecoverDisk(disk);
    if ok {
      ok := RollBackRecovered(disk, paths, release, receipt);
    }
  }

  /** The end of a rollback of the files `fs`, and the way there since state number `from`. */
  ghost predicate RolledBack(fs: Files, end: State, trace: seq<State>, from: nat, paths: RollbackPaths, release: string,
                             receipt: Option<string>)
  {
    var text := if receipt.Some? then receipt.value else "";
    && OnRollback(fs, paths, release, text, trace, from)
    && end == match RaisesAt(fs, paths, receipt)
              case Some(at) => StateAt(fs, paths, release, text, at)
              case None => State(fs[paths.current := Link(release)][paths.receipt := File(text)], None)
  }

  method RollBackRecovered(disk: Disk, paths: RollbackPaths, release: string, receipt: Option<string>)
    returns (ok: bool)
    requires disk.Valid() && disk.journal.None? && paths.current != paths.receipt
    modifies disk
    ensures ok <==> RaisesAt(old(disk.files), paths, receipt).None?
    ensures RolledBack(old(disk.files), disk.Now(), disk.trace, |old(disk.trace)|, paths, release, receipt)
  {
    ghost var fs, from, text := disk.files, |disk.trace|, if receipt.Some? then receipt.value else "";
    AtSomeAll(fs, paths, release, text);
    hide AtSome;
    var journal := new TransactionJournal(disk);
    journal.Begin();
    assert disk.Now() == StateAt(fs, paths, release, text, Begun);
    var op := CurrentOp(disk.files, paths, release);
    journal.RecordIntent(op);
    assert journal.data.ops == [op];
    assert disk.Now() == StateAt(fs, paths, release, text, CurrentIntended);
    if IsDirectory(disk.files, paths.current) {
      return false;
    }
    ghost var soFar := disk.trace;
    assert OnRollback(fs, paths, release, text, soFar, from);
    hide StateAt;
    MoveCurrent(journal, paths, release, fs, text, from);
    ok := FinishRollback(journal, paths, release, receipt, fs, from);
  }

  lemma MoreOnRollback(fs: Files, paths: RollbackPaths, release: string, text: string, trace: seq<State>,
                       more: seq<State>, from: nat)
    requires OnRollback(fs, paths, release, text, trace, from)
    requires forall s | s in more && Pending(s) :: AtSome(fs, paths, release, text, s)
    ensures OnRollback(fs, paths, release, text, trace + more, from)
  {
    hide AtSome;
    forall k | from <= k < |trace + more| && Pending((trace + more)[k])
      ensures AtSome(fs, paths, release, text, (trace + more)[k])
    {
      if k >= |trace| { assert (trace + more)[k] == more[k - |trace|]; }
    }
  }

  /** `current`, once its intent is recorded. */
  method MoveCurrent(journal: TransactionJournal, paths: RollbackPaths, release: string, ghost fs: Files,
                     ghost text: string, ghost from: nat)
    requires journal.Open() && journal.disk.Now() == StateAt(fs, paths, release, text, CurrentIntended)
    requires OnRollback(fs, paths, release, text, journal.disk.trace, from)
    modifies journal, journal.disk
    ensures journal.Open() && journal.disk.Now() == StateAt(fs, paths, release, text, CurrentMarked)
    ensures OnRollback(fs, paths, release, text, journal.disk.trace, from)
  {
    AtSomeAll(fs, paths, release, text);
    hide AtSome;
    var disk := journal.disk;
    ghost var trace, gone := disk.trace, [];
    if paths.current in disk.files {
      disk.Change(disk.files - {paths.current});
      gone := [StateAt(fs, paths, release, text, CurrentUnlinked)];
    }
    disk.Change(disk.files[paths.current := Link(release)]);
    assert disk.files == fs[paths.current := Link(release)];
    journal.RecordApplied();
    assert journal.data.ops == [CurrentOp(fs, paths, release).(applied := true)];
    ghost var linked := StateAt(fs, paths, release, text, CurrentLinked);
    ghost var more := gone + [linked, StateAt(fs, paths, release, text, CurrentMarked)];
    assert disk.trace == trace + more;
    hide OnRollback, StateAt;
    MoreOnRollback(fs, paths, release, text, trace, more, from);
  }

  method FinishRollback(journal: TransactionJournal, paths: RollbackPaths, release: string, receipt: Option<string>,
                        ghost fs: Files, ghost from: nat) returns (ok: bool)
    requires journal.Open() && paths.current != paths.receipt && !IsDirectory(fs, paths.current)
    requires var text := if receipt.Some? then receipt.value else "";
             && journal.disk.Now() == StateAt(fs, paths, release, text, CurrentMarked)
             && OnRollback(fs, paths, release, text, journal.disk.trace, from)
    modifies journal, journal.disk
    ensures ok <==> RaisesAt(fs, paths, receipt).None?
    ensures RolledBack(fs, journal.disk.Now(), journal.disk.trace, from, paths, release, receipt)
  {
    ghost var text := if receipt.Some? then receipt.value else "";
    AtSomeAll(fs, paths, release, text);
    hide AtSome;
    ghost var soFar := journal.disk.trace;
    var op := CurrentOp(fs, paths, release);
    ok := receipt.Some? && !IsDirectory(journal.disk.files, paths.receipt);
    var _ := journal.Apply(ReceiptOp(paths), if ok then Leaves(Some(File(receipt.value))) else Raises, None);
    var marked, record := op.(applied := true), ReceiptOp(paths);
    assert [marked] + [record] == [marked, record];
    if !ok {
      assert journal.disk.Now() == StateAt(fs, paths, release, text, ReceiptIntended);
      assert journal.disk.trace == soFar + [journal.disk.Now()];
      return;
    }
    assert journal.data.ops == [marked] + [record.(applied := true)] == [marked, record.(applied := true)];
    assert journal.disk.Now() == StateAt(fs, paths, release, text, ReceiptMarked);
    assert journal.disk.trace == soFar + [StateAt(fs, paths, release, text, ReceiptIntended),
                                          StateAt(fs, paths, release, text, ReceiptWritten), journal.disk.Now()];
    journal.Commit();
  }

  // ---- What recovery leaves

  lemma RollbackShaped(fs: Files, paths: RollbackPaths, release: string, receipt: string, at: Progress)
    requires Plain(fs, paths)
    ensures var s := StateAt(fs, paths, release, receipt, at); Pending(s) && Shaped(fs, s.files, s.journal.value.ops)
  {
    var s := StateAt(fs, paths, release, receipt, at);
    var ops := s.journal.value.ops;
    forall i | 0 <= i < |ops| ensures ShapedAt(fs, s.files, ops, i) {}
    assert Targets(ops) ==
           if |ops| == 0 then {} else if |ops| == 1 then {paths.current} else {paths.current, paths.receipt};
  }

  /** Recovery from a rollback cut off at any durable state: `current` is back
      unless the cut fell between its unlink and its new link, and the receipt is
      the old one, the new one, or gone. */
  lemma CutRollbackLeaves(fs: Files, paths: RollbackPaths, release: string, receipt: string, at: Progress)
    requires Plain(fs, paths)
    ensures var end := Recover(StateAt(fs, paths, release, receipt, at));
            && end.journal.None?
            && Entry(end.files, paths.current) == (if at.CurrentUnlinked? then None else Entry(fs, paths.current))
            && Entry(end.files, paths.receipt) ==
               (if at.ReceiptWritten? then Some(File(receipt))
                else if at.ReceiptMarked? then None else Entry(fs, paths.receipt))
            && forall p | p != paths.current && p != paths.receipt :: Entry(end.files, p) == Entry(fs, p)
  {
    var s := StateAt(fs, paths, release, receipt, at);
    RollbackShaped(fs, paths, release, receipt, at);
    RecoverGivesClaims(fs, s);
    var ops := s.journal.value.ops;
    hide Recover, Shaped;
    forall p | p != paths.current && p != paths.receipt ensures Entry(Recover(s).files, p) == Entry(fs, p) {
      RecoveredElsewhere(fs, s.files, ops, p);
    }
    if ops != [] { RecoveredFirst(fs, s.files, ops, 0); }
    if |ops| == 2 { RecoveredFirst(fs, s.files, ops, 1); }
    if |ops| < 2 { RecoveredElsewhere(fs, s.files, ops, paths.receipt); }
    if |ops| < 1 { RecoveredElsewhere(fs, s.files, ops, paths.current); }
  }

  /** It restores what was there if and only if the cut missed three windows: the
      unlinked `current`, and the receipt from its writing on, unless nothing changes there. */
  lemma CutRollbackRestoresIff(fs: Files, paths: RollbackPaths, release: string, receipt: string, at: Progress)
    requires Plain(fs, paths)
    ensures Recover(StateAt(fs, paths, release, receipt, at)) == State(fs, None) <==>
            match at
            case CurrentUnlinked => paths.current !in fs
            case ReceiptWritten => Entry(fs, paths.receipt) == Some(File(receipt))
            case ReceiptMarked => paths.receipt !in fs
            case _ => true
  {
    CutRollbackLeaves(fs, paths, release, receipt, at);
    var end := Recover(StateAt(fs, paths, release, receipt, at)).files;
    hide Recover, StateAt;
    if end != fs && forall p :: Entry(end, p) == Entry(fs, p) { SameEntries(end, fs); }
    assert end == fs <==>
           Entry(end, paths.current) == Entry(fs, paths.current)
             && Entry(end, paths.receipt) == Entry(fs, paths.receipt) by {
      if Entry(end, paths.current) == Entry(fs, paths.current)
        && Entry(end, paths.receipt) == Entry(fs, paths.receipt) {
        forall p ensures Entry(end, p) == Entry(fs, p) {}
        SameEntries(end, fs);
      }
    }
  }
}
