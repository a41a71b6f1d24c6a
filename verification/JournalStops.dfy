/** Where recovery stops: the undo of a link never replaces what is no link. */
module JournalStops {
  import opened FileSystem
  import opened JournalSpec

  /** Something that is no link stands where the record's link was: since the mutation
      happened, there is a link to put back, and no place for it. */
  predicate Blocks(fs: Files, op: Op) {
    op.applied && op.predecessor.Some? && op.target in fs && !fs[op.target].Link?
  }

  predicate LinksOnly(ops: seq<Op>) {
    forall op | op in ops :: OnLinks(op.kind)
  }

  /** All that is no link is as it was, and nothing else is there but links. */
  ghost predicate OnlyLinksMoved(fs: Files, fs': Files) {
    forall p :: Entry(fs', p) == Entry(fs, p) ||
                ((p in fs ==> fs[p].Link?) && (p in fs' ==> fs'[p].Link?))
  }

  lemma LinkUndo(fs: Files, op: Op)
    requires OnLinks(op.kind)
    ensures Undo(fs, op).ok <==> !Blocks(fs, op)
    ensures forall s | s in Undo(fs, op).states :: OnlyLinksMoved(fs, s)
    ensures op.target in fs && !fs[op.target].Link? ==> Undo(fs, op).states == []
  {}

  lemma BlocksAlike(fs: Files, fs': Files, op: Op)
    requires OnlyLinksMoved(fs, fs')
    ensures Blocks(fs', op) == Blocks(fs, op)
  {
    assert Entry(fs', op.target) == Entry(fs, op.target) ||
           ((op.target in fs ==> fs[op.target].Link?) && (op.target in fs' ==> fs'[op.target].Link?));
  }

  lemma MovedTwice(a: Files, b: Files, c: Files)
    requires OnlyLinksMoved(a, b) && OnlyLinksMoved(b, c)
    ensures OnlyLinksMoved(a, c)
  {
    forall p ensures Entry(c, p) == Entry(a, p) || ((p in a ==> a[p].Link?) && (p in c ==> c[p].Link?)) {
      assert Entry(b, p) == Entry(a, p) || ((p in a ==> a[p].Link?) && (p in b ==> b[p].Link?));
      assert Entry(c, p) == Entry(b, p) || ((p in b ==> b[p].Link?) && (p in c ==> c[p].Link?));
    }
  }

  /** Undoing the records of links raises if and only if one of them is blocked, and on
      no way replaces or removes a regular file or a directory. */
  lemma {:induction false} LinksUndone(fs: Files, ops: seq<Op>)
    requires LinksOnly(ops)
    ensures UndoAll(fs, ops).ok <==> forall op | op in ops :: !Blocks(fs, op)
    ensures forall s | s in UndoAll(fs, ops).states :: OnlyLinksMoved(fs, s)
    decreases |ops|
  {
    if ops != [] {
      var n := |ops| - 1;
      var first := Undo(fs, ops[n]);
      var fs' := Last(fs, first.states);
      LinkUndo(fs, ops[n]);
      assert OnlyLinksMoved(fs, fs') by {
        if first.states != [] { assert fs' in first.states; }
      }
      LinksUndone(fs', ops[..n]);
      forall op ensures Blocks(fs', op) == Blocks(fs, op) {
        BlocksAlike(fs, fs', op);
      }
      hide Undo, Blocks, OnlyLinksMoved;
      assert forall op :: op in ops <==> op in ops[..n] || op == ops[n];
      forall s | s in UndoAll(fs, ops).states ensures OnlyLinksMoved(fs, s) {
        if s !in first.states {
          MovedTwice(fs, fs', s);
        }
      }
    }
  }

  /** Recovery from a journal of links: it stops, leaving the journal, if and only if
      something that is no link stands where a marked record has a link to put back;
      in every durable state on the way, and at the end, all that is no link is untouched. */
  lemma LinkRecoveryStopsIff(s: State)
    requires Pending(s) && LinksOnly(s.journal.value.ops)
    ensures Recover(s).journal.Some? <==> exists op :: op in s.journal.value.ops && Blocks(s.files, op)
    ensures forall t | t in RecoverTrace(s) :: OnlyLinksMoved(s.files, t.files)
  {
    var run := UndoAll(s.files, s.journal.value.ops);
    LinksUndone(s.files, s.journal.value.ops);
    hide UndoAll, Blocks, OnlyLinksMoved;
    NothingMoved(s.files);
    forall t | t in RecoverTrace(s) ensures OnlyLinksMoved(s.files, t.files) {
      assert t.files == s.files || t.files in run.states;
    }
  }

  lemma NothingMoved(fs: Files)
    ensures OnlyLinksMoved(fs, fs)
  {}

  /** The undo of a byte operation puts the backup's bytes where the target leads, or
      removes the target unless it leads nowhere.  It raises, and touches nothing, if the backup cannot be
      read, is itself what it would overwrite, or a directory stands in the way. */
  lemma BytesUndone(fs: Files, op: Op)
    requires (op.kind.FileWrite? || op.kind.Receipt?) && op.applied
    ensures var run := Undo(fs, op);
            && var restores := op.predecessor.Some? && (op.kind.FileWrite? || IsFile(fs, op.predecessor.value));
            && (restores ==>
                  var src, dst := op.predecessor.value, CopyTarget(fs, op.predecessor.value, op.target);
                  && (run.ok <==> IsFile(fs, src) && dst.Some? && Resolve(fs, src) != dst && !HasDir(fs, dst.value))
                  && (run.ok ==> Last(fs, run.states) == fs[dst.value := File(Bytes(fs, src))]))
            && (!restores ==>
                  && (run.ok <==> !(Exists(fs, op.target) && HasDir(fs, op.target)))
                  && (run.ok ==> Last(fs, run.states) == if Exists(fs, op.target) then fs - {op.target} else fs))
            && (!run.ok ==> run.states == [])
  {}

  /** The undo of a directory removes it if it is a real and empty one, and never raises. */
  lemma DirectoryUndone(fs: Files, op: Op)
    requires op.kind.Mkdir? && op.applied
    ensures Undo(fs, op).ok
    ensures Last(fs, Undo(fs, op).states) ==
            if HasDir(fs, op.target) && forall p | p in fs :: !(op.target + "/" <= p) then fs - {op.target} else fs
  {}

  predicate HasDir(fs: Files, p: Path) {
    p in fs && fs[p].Dir?
  }
}
