/** The lifecycle journal as the installer runs it, over a disk that keeps
    the list of durable states it has been through. */
module Journals {
  import opened Options
  import opened FileSystem
  import opened JournalSpec

  /** Files recovery passed through, each beside the journal on disk at the time. */
  function Stamp(states: seq<Files>, journal: Option<Journal>): seq<State> {
    seq(|states|, i requires 0 <= i < |states| => State(states[i], journal))
  }

  class Disk {
    var files: Files
    var journal: Option<Journal>
    ghost var trace: seq<State>

    ghost predicate Valid()
      reads this
    {
      trace != [] && trace[|trace| - 1] == Now()
    }

    function Now(): State
      reads this
    {
      State(files, journal)
    }

    constructor (files: Files)
      ensures Valid() && this.files == files && journal == None && trace == [Now()]
    {
      this.files, this.journal := files, None;
      this.trace := [State(files, None)];
    }

    /** One system call that changes the files. */
    method Change(files': Files)
      modifies this
      ensures Valid() && files == files' && journal == old(journal)
      ensures trace == old(trace) + [Now()]
    {
      files := files';
      trace := trace + [Now()];
    }

    /** Replace the journal file (`Some`) or unlink it (`None`). */
    method SaveJournal(journal': Option<Journal>)
      modifies this
      ensures Valid() && files == old(files) && journal == journal'
      ensures trace == old(trace) + [Now()]
    {
      journal := journal';
      trace := trace + [Now()];
    }
  }

  // ---- Recovery

  method CopyFile(disk: Disk, src: Path, dst: Path) returns (ok: bool)
    requires disk.Valid()
    modifies disk
    ensures disk.Valid() && disk.journal == old(disk.journal)
    ensures ok == Copy(old(disk.files), src, dst).ok
    ensures disk.files == Last(old(disk.files), Copy(old(disk.files), src, dst).states)
    ensures disk.trace == old(disk.trace) + Stamp(Copy(old(disk.files), src, dst).states, disk.journal)
  {
    var q := CopyTarget(disk.files, src, dst);
    if !IsFile(disk.files, src) || q.None? || Resolve(disk.files, src) == q
       || (q.value in disk.files && disk.files[q.value].Dir?) {
      return false;
    }
    var bytes := Bytes(disk.files, src);
    disk.Change(disk.files[q.value := File("")]);
    disk.Change(disk.files[q.value := File(bytes)]);
    return true;
  }

  method UnlinkIfExists(disk: Disk, p: Path) returns (ok: bool)
    requires disk.Valid()
    modifies disk
    ensures disk.Valid() && disk.journal == old(disk.journal)
    ensures ok == RemoveIfExists(old(disk.files), p).ok
    ensures disk.files == Last(old(disk.files), RemoveIfExists(old(disk.files), p).states)
    ensures disk.trace == old(disk.trace) + Stamp(RemoveIfExists(old(disk.files), p).states, disk.journal)
  {
    if Exists(disk.files, p) {
      if p in disk.files && disk.files[p].Dir? {
        return false;
      }
      disk.Change(disk.files - {p});
    }
    return true;
  }

  method UndoOp(disk: Disk, op: Op) returns (ok: bool)
    requires disk.Valid()
    modifies disk
    ensures disk.Valid() && disk.journal == old(disk.journal)
    ensures ok == Undo(old(disk.files), op).ok
    ensures disk.files == Last(old(disk.files), Undo(old(disk.files), op).states)
    ensures disk.trace == old(disk.trace) + Stamp(Undo(old(disk.files), op).states, disk.journal)
  {
    if !Proven(disk.files, op) {
      return true;
    }
    if op.kind.FileWrite? {
      if op.predecessor.Some? {
        ok := CopyFile(disk, op.predecessor.value, op.target);
      } else {
        ok := UnlinkIfExists(disk, op.target);
      }
      return;
    }
    if op.kind.Symlink? || op.kind.Unlink? {
      if IsLink(disk.files, op.target) {
        disk.Change(disk.files - {op.target});
      }
      if op.predecessor.Some? {
        if op.target in disk.files {
          return false;
        }
        disk.Change(disk.files[op.target := Link(op.predecessor.value)]);
        assert old(disk.files) - {op.target} == old(disk.files) || IsLink(old(disk.files), op.target);
        assert (old(disk.files) - {op.target})[op.target := Link(op.predecessor.value)]
            == old(disk.files)[op.target := Link(op.predecessor.value)];
      }
    } else if op.kind.Mkdir? {
      if op.target in disk.files && disk.files[op.target].Dir? && Empty(disk.files, op.target) {
        disk.Change(disk.files - {op.target});
      }
    } else {
      if op.predecessor.Some? && IsFile(disk.files, op.predecessor.value) {
        ok := CopyFile(disk, op.predecessor.value, op.target);
      } else {
        ok := UnlinkIfExists(disk, op.target);
      }
      return;
    }
    return true;
  }

  lemma StampAppends(a: seq<Files>, b: seq<Files>, c: seq<Files>, journal: Option<Journal>)
    ensures Stamp(a + b, journal) == Stamp(a, journal) + Stamp(b, journal)
    ensures a + (b + c) == (a + b) + c
  {}

  lemma NothingStamped(journal: Option<Journal>)
    ensures Stamp([], journal) == [] && forall fs :: UndoAll(fs, []) == Run([], true)
  {}

  lemma UndoAllStep(fs: Files, ops: seq<Op>, i: nat)
    requires i < |ops|
    ensures var first := Undo(fs, ops[i]);
            var rest := UndoAll(Last(fs, first.states), ops[..i]);
            UndoAll(fs, ops[..i + 1]) == if first.ok then Run(first.states + rest.states, rest.ok) else first
  {
    assert ops[..i + 1][..i] == ops[..i] && ops[..i + 1][i] == ops[i];
  }

  lemma PendingTrace(s: State)
    requires Pending(s)
    ensures var run := UndoAll(s.files, s.journal.value.ops);
            var end := State(Last(s.files, run.states), None);
            && RecoverTrace(s)[1..] == Stamp(run.states, s.journal) + (if run.ok then [end] else [])
            && Recover(s) == if run.ok then end else State(end.files, s.journal)
  {
    hide UndoAll, Undo;
  }

  /** The reverse loop over the records of a journal. */
  method UndoRecords(disk: Disk, ops: seq<Op>) returns (ok: bool)
    requires disk.Valid()
    modifies disk
    ensures disk.Valid() && disk.journal == old(disk.journal)
    ensures ok == UndoAll(old(disk.files), ops).ok
    ensures disk.files == Last(old(disk.files), UndoAll(old(disk.files), ops).states)
    ensures disk.trace == old(disk.trace) + Stamp(UndoAll(old(disk.files), ops).states, disk.journal)
  {
    hide Undo, UndoAll, Stamp;
    var i := |ops|;
    ghost var start, done := disk.files, [];
    assert ops[..i] == ops;
    NothingStamped(disk.journal);
    while i > 0
      invariant 0 <= i <= |ops| && disk.Valid() && disk.journal == old(disk.journal)
      invariant disk.files == Last(start, done)
      invariant disk.trace == old(disk.trace) + Stamp(done, disk.journal)
      invariant UndoAll(start, ops)
                == Run(done + UndoAll(disk.files, ops[..i]).states, UndoAll(disk.files, ops[..i]).ok)
    {
      i := i - 1;
      UndoAllStep(disk.files, ops, i);
      ghost var first := Undo(disk.files, ops[i]);
      ghost var rest := UndoAll(Last(disk.files, first.states), ops[..i]);
      StampAppends(done, first.states, rest.states, disk.journal);
      ok := UndoOp(disk, ops[i]);
      done := done + first.states;
      if !ok {
        return;
      }
    }
    assert ops[..i] == [] && done + [] == done;
    return true;
  }

  /** Undo a journal left behind.  `ok` is false when a step raised, which leaves the journal in place. */
  method RecoverDisk(disk: Disk) returns (ok: bool)
    requires disk.Valid()
    modifies disk
    ensures disk.Valid() && disk.trace == old(disk.trace) + RecoverTrace(old(disk.Now()))[1..]
    ensures disk.Now() == Recover(old(disk.Now()))
    ensures ok <==> disk.journal.None?
  {
    if disk.journal.None? {
      return true;
    }
    if disk.journal.value.committed {
      disk.SaveJournal(None);
      return true;
    }
    ok := RecoverPending(disk);
  }

  /** Undo the records of a journal that was not committed. */
  method RecoverPending(disk: Disk) returns (ok: bool)
    requires disk.Valid() && Pending(disk.Now())
    modifies disk
    ensures disk.Valid() && disk.trace == old(disk.trace) + RecoverTrace(old(disk.Now()))[1..]
    ensures disk.Now() == Recover(old(disk.Now()))
    ensures ok <==> disk.journal.None?
  {
    hide RecoverTrace, Recover, Stamp, UndoAll;
    PendingTrace(disk.Now());
    ok := UndoRecords(disk, disk.journal.value.ops);
    if ok {
      disk.SaveJournal(None);
    }
  }

  // ---- Transactions

  /** What running an operation's mutation comes to. */
  datatype Mutation = Leaves(post: Option<Node>) | Raises

  class TransactionJournal {
    const disk: Disk
    var data: Journal

    /** A transaction is open: the disk holds exactly the journal in memory. */
    ghost predicate Open()
      reads this, disk
    {
      disk.Valid() && disk.journal == Some(data) && !data.committed
    }

    constructor (disk: Disk)
      ensures this.disk == disk && data == Journal([], false)
    {
      this.disk, this.data := disk, Journal([], false);
    }

    method Begin()
      modifies this, disk
      ensures Open() && data.ops == [] && disk.files == old(disk.files)
      ensures disk.trace == old(disk.trace) + [disk.Now()]
    {
      data := Journal([], false);
      disk.SaveJournal(Some(data));
    }

    method RecordIntent(op: Op)
      requires Open()
      modifies this, disk
      ensures Open() && data.ops == old(data.ops) + [op.(applied := false)] && disk.files == old(disk.files)
      ensures disk.trace == old(disk.trace) + [disk.Now()]
    {
      data := Journal(data.ops + [op.(applied := false)], false);
      disk.SaveJournal(Some(data));
    }

    method RecordApplied()
      requires Open() && data.ops != []
      modifies this, disk
      ensures Open() && disk.files == old(disk.files)
      ensures data.ops == old(data.ops)[|old(data.ops)| - 1 := old(data.ops)[|old(data.ops)| - 1].(applied := true)]
      ensures disk.trace == old(disk.trace) + [disk.Now()]
    {
      var n := |data.ops| - 1;
      data := Journal(data.ops[n := data.ops[n].(applied := true)], false);
      disk.SaveJournal(Some(data));
    }

    /** Intent, mutation, mark.  `ok` is false when the mutation raised, or
        when `failAfter` asks for a failure right after this kind of mutation. */
    method Apply(op: Op, mutation: Mutation, failAfter: Option<Kind>) returns (ok: bool)
      requires Open()
      modifies this, disk
      ensures Open()
      ensures ok <==> mutation.Leaves? && failAfter != Some(op.kind)
      ensures disk.files == if mutation.Leaves? then Put(old(disk.files), op.target, mutation.post) else old(disk.files)
      ensures data.ops == old(data.ops) + [op.(applied := ok)]
      ensures disk.trace == old(disk.trace)
              + [State(old(disk.files), Some(Journal(old(data.ops) + [op.(applied := false)], false)))]
              + (if mutation.Leaves? then
                   [State(disk.files, Some(Journal(old(data.ops) + [op.(applied := false)], false)))] else [])
              + (if ok then [disk.Now()] else [])
    {
      RecordIntent(op);
      if mutation.Raises? {
        return false;
      }
      disk.Change(Put(disk.files, op.target, mutation.post));
      if failAfter == Some(op.kind) {
        return false;
      }
      RecordApplied();
      return true;
    }

    method Commit()
      requires Open()
      modifies this, disk
      ensures disk.Valid() && disk.files == old(disk.files) && disk.journal == None && data.committed
      ensures disk.trace == old(disk.trace) + [State(disk.files, Some(Journal(old(data.ops), true))), disk.Now()]
    {
      data := Journal(data.ops, true);
      disk.SaveJournal(Some(data));
      disk.SaveJournal(None);
    }
  }
}
