/** Recovery from journals whose records need not be true: it gives back what the
    first record on each target claims, whatever was there. */
module JournalClaims {
  import opened Options
  import opened FileSystem
  import opened JournalSpec
  import opened JournalProofs

  // ---- Journals that may claim anything

  ghost predicate ShapedAt(fs0: Files, fs: Files, ops: seq<Op>, i: nat)
    requires i < |ops|
  {
    && !ops[i].kind.Mkdir?
    && Suits(ops[i].kind, Entry(fs, ops[i].target))
    && Suits(ops[i].kind, Claimed(fs0, ops[i]))
    && BackupKept(fs0, ops[i], Targets(ops))
    && (i < |ops| - 1 ==> ops[i].applied)
  }

  /** `fs` is `fs0` changed only at the targets of `ops`.  Unlike `Fits`, no
      record need tell what was at its target. */
  ghost predicate Shaped(fs0: Files, fs: Files, ops: seq<Op>) {
    && SameOutside(fs0, fs, Targets(ops))
    && (forall i | 0 <= i < |ops| :: ShapedAt(fs0, fs, ops, i))
    && (forall i, j | 0 <= i < j < |ops| :: SameFamily(ops[i], ops[j]))
  }

  /** The files as the records claim they were: the first record on a target decides. */
  function Claims(fs0: Files, ops: seq<Op>): Files {
    if ops == [] then fs0
    else Put(Claims(fs0, ops[1..]), ops[0].target, Claimed(fs0, ops[0]))
  }

  lemma {:induction false} ClaimsElsewhere(fs0: Files, ops: seq<Op>, p: Path)
    requires forall i | 0 <= i < |ops| :: ops[i].target != p
    ensures Entry(Claims(fs0, ops), p) == Entry(fs0, p)
  {
    if ops != [] {
      assert forall i | 0 <= i < |ops| - 1 :: ops[1..][i] == ops[i + 1];
      ClaimsElsewhere(fs0, ops[1..], p);
    }
  }

  lemma {:induction false} FirstClaims(fs0: Files, ops: seq<Op>, i: nat)
    requires i < |ops| && FirstOp(ops, i)
    ensures Entry(Claims(fs0, ops), ops[i].target) == Claimed(fs0, ops[i])
    decreases |ops|
  {
    if i > 0 {
      assert ops[0].target != ops[i].target;
      assert forall j | 0 <= j < i - 1 :: ops[1..][j] == ops[j + 1];
      FirstClaims(fs0, ops[1..], i - 1);
    }
  }

  /** Backups are no targets, so every record claims the same of the claimed files. */
  lemma SameClaim(fs0: Files, fs: Files, ops: seq<Op>, i: nat)
    requires i < |ops| && BackupKept(fs0, ops[i], Targets(ops))
    ensures Claimed(Claims(fs0, ops), ops[i]) == Claimed(fs0, ops[i])
    ensures BackupKept(Claims(fs0, ops), ops[i], Targets(ops))
  {
    if !OnLinks(ops[i].kind) && ops[i].predecessor.Some? {
      var b := ops[i].predecessor.value;
      forall j | 0 <= j < |ops| ensures ops[j].target != b { assert ops[j] in ops; }
      ClaimsElsewhere(fs0, ops, b);
    }
    hide Claims;
  }

  /** Seen from the claimed files, every record is true. */
  lemma ShapedFits(fs0: Files, fs: Files, ops: seq<Op>)
    requires Shaped(fs0, fs, ops)
    ensures Fits(Claims(fs0, ops), fs, ops)
  {
    var fs1 := Claims(fs0, ops);
    forall p | p !in Targets(ops) ensures Entry(fs, p) == Entry(fs1, p) {
      forall i | 0 <= i < |ops| ensures ops[i].target != p { assert ops[i] in ops; }
      ClaimsElsewhere(fs0, ops, p);
    }
    forall i | 0 <= i < |ops| ensures FitsAt(fs1, fs, ops, i) {
      assert ShapedAt(fs0, fs, ops, i);
      SameClaim(fs0, fs, ops, i);
      if FirstOp(ops, i) {
        FirstClaims(fs0, ops, i);
      }
      hide Claims, Claimed, BackupKept;
    }
  }

  // ---- What recovery gives back

  /** What recovery leaves at a path: what the first record on it claims, if that
      record is undone, and otherwise what is there. */
  function RecoveredEntry(fs0: Files, fs: Files, ops: seq<Op>, p: Path): Option<Node> {
    if ops == [] then Entry(fs, p)
    else if ops[0].target == p then (if Proven(fs, ops[0]) then Claimed(fs0, ops[0]) else Entry(fs, p))
    else RecoveredEntry(fs0, fs, ops[1..], p)
  }

  lemma {:induction false} RecoveredFirst(fs0: Files, fs: Files, ops: seq<Op>, i: nat)
    requires i < |ops| && FirstOp(ops, i)
    ensures RecoveredEntry(fs0, fs, ops, ops[i].target) ==
            if Proven(fs, ops[i]) then Claimed(fs0, ops[i]) else Entry(fs, ops[i].target)
    decreases |ops|
  {
    if i > 0 {
      assert ops[0].target != ops[i].target;
      assert forall j | 0 <= j < i - 1 :: ops[1..][j] == ops[j + 1];
      RecoveredFirst(fs0, fs, ops[1..], i - 1);
    }
  }

  lemma {:induction false} RecoveredElsewhere(fs0: Files, fs: Files, ops: seq<Op>, p: Path)
    requires forall i | 0 <= i < |ops| :: ops[i].target != p
    ensures RecoveredEntry(fs0, fs, ops, p) == Entry(fs, p)
  {
    if ops != [] {
      assert forall i | 0 <= i < |ops| - 1 :: ops[1..][i] == ops[i + 1];
      RecoveredElsewhere(fs0, fs, ops[1..], p);
    }
  }

  lemma {:induction false} HasFirst(ops: seq<Op>, p: Path, i: nat) returns (first: nat)
    requires i < |ops| && ops[i].target == p
    ensures first <= i && ops[first].target == p && FirstOp(ops, first)
    decreases i
  {
    if j :| 0 <= j < i && ops[j].target == p {
      first := HasFirst(ops, p, j);
    } else {
      first := i;
    }
  }

  /** Recovery from any well-formed pending journal removes the journal and
      leaves at every path what the first record on it says. */
  lemma RecoverGivesClaims(fs0: Files, s: State)
    requires Pending(s) && Shaped(fs0, s.files, s.journal.value.ops)
    ensures Recover(s).journal == None
    ensures forall p :: Entry(Recover(s).files, p) == RecoveredEntry(fs0, s.files, s.journal.value.ops, p)
  {
    var fs, ops := s.files, s.journal.value.ops;
    var fs1 := Claims(fs0, ops);
    ShapedFits(fs0, fs, ops);
    RecoverRestoresIff(fs1, s);
    var end := Recover(s).files;
    var n := |ops| - 1;
    if LastIsHarmless(fs1, fs, ops) {
      assert end == fs1;
    } else {
      UndoAllMisses(fs1, fs, ops);
      assert end == Put(fs1, ops[n].target, Entry(fs, ops[n].target));
    }
    forall p ensures Entry(end, p) == RecoveredEntry(fs0, fs, ops, p) {
      RecoveredAt(fs0, fs, ops, end, p);
    }
  }

  lemma RecoveredAt(fs0: Files, fs: Files, ops: seq<Op>, end: Files, p: Path)
    requires Shaped(fs0, fs, ops)
    requires end == if LastIsHarmless(Claims(fs0, ops), fs, ops) then Claims(fs0, ops)
                    else Put(Claims(fs0, ops), ops[|ops| - 1].target, Entry(fs, ops[|ops| - 1].target))
    ensures Entry(end, p) == RecoveredEntry(fs0, fs, ops, p)
  {
    if i :| 0 <= i < |ops| && ops[i].target == p {
      var first := HasFirst(ops, p, i);
      FirstClaims(fs0, ops, first);
      RecoveredFirst(fs0, fs, ops, first);
      assert ShapedAt(fs0, fs, ops, first);
      assert first < |ops| - 1 ==> Proven(fs, ops[first]);
      hide Claims, RecoveredEntry, Claimed;
      if first < |ops| - 1 {
        assert ops[|ops| - 1].target == p ==> !FirstOp(ops, |ops| - 1);
      }
    } else {
      ClaimsElsewhere(fs0, ops, p);
      RecoveredElsewhere(fs0, fs, ops, p);
      assert p !in Targets(ops);
      if ops != [] { assert ops[|ops| - 1].target != p; }
    }
  }

  // ---- When that is what was there

  /** The first record on a target gives its entry back: it claims the truth and
      is undone, or it is not undone and its target holds the truth. */
  predicate GivesBack(fs0: Files, fs: Files, op: Op) {
    Entry(fs0, op.target) == if Proven(fs, op) then Claimed(fs0, op) else Entry(fs, op.target)
  }

  /** For every well-formed pending journal: recovery restores the original files if
      and only if the first record on every target gives its entry back. */
  lemma AnyJournalRestoresIff(fs0: Files, s: State)
    requires Pending(s) && Shaped(fs0, s.files, s.journal.value.ops)
    ensures var ops := s.journal.value.ops;
            Recover(s).files == fs0 <==>
            forall i | 0 <= i < |ops| && FirstOp(ops, i) :: GivesBack(fs0, s.files, ops[i])
  {
    var fs, ops := s.files, s.journal.value.ops;
    RecoverGivesClaims(fs0, s);
    var end := Recover(s).files;
    hide Recover, Proven, Claimed, Shaped;
    if forall i | 0 <= i < |ops| && FirstOp(ops, i) :: GivesBack(fs0, fs, ops[i]) {
      forall p ensures Entry(end, p) == Entry(fs0, p) {
        if i :| 0 <= i < |ops| && ops[i].target == p {
          var first := HasFirst(ops, p, i);
          RecoveredFirst(fs0, fs, ops, first);
        } else {
          RecoveredElsewhere(fs0, fs, ops, p);
          assert Entry(fs, p) == Entry(fs0, p) by { OutsideStays(fs0, fs, ops, p); }
        }
      }
      SameEntries(end, fs0);
    } else {
      var i :| 0 <= i < |ops| && FirstOp(ops, i) && !GivesBack(fs0, fs, ops[i]);
      RecoveredFirst(fs0, fs, ops, i);
      assert Entry(end, ops[i].target) != Entry(fs0, ops[i].target);
    }
  }

  lemma OutsideStays(fs0: Files, fs: Files, ops: seq<Op>, p: Path)
    requires Shaped(fs0, fs, ops) && forall i | 0 <= i < |ops| :: ops[i].target != p
    ensures Entry(fs, p) == Entry(fs0, p)
  {
    assert p !in Targets(ops);
  }

  /** A journal all of whose records are marked restores the files if and only if
      the first record on every target tells what was there. */
  lemma MarkedRestoresIff(fs0: Files, s: State)
    requires Pending(s) && Shaped(fs0, s.files, s.journal.value.ops)
    requires forall op | op in s.journal.value.ops :: op.applied
    ensures var ops := s.journal.value.ops;
            Recover(s).files == fs0 <==>
            forall i | 0 <= i < |ops| && FirstOp(ops, i) :: Claimed(fs0, ops[i]) == Entry(fs0, ops[i].target)
  {
    AnyJournalRestoresIff(fs0, s);
    var ops := s.journal.value.ops;
    hide Recover, Claimed;
    forall i | 0 <= i < |ops|
      ensures GivesBack(fs0, s.files, ops[i]) <==> Claimed(fs0, ops[i]) == Entry(fs0, ops[i].target)
    {
      assert ops[i] in ops;
    }
  }

  // ---- One step of a transaction

  /** The records so far, with one more intent or mark. */
  lemma StepShaped(fs0: Files, fs: Files, ops: seq<Op>, op: Op, post: Option<Node>)
    requires Shaped(fs0, fs, ops) && forall o | o in ops :: o.applied
    requires !op.kind.Mkdir? && Suits(op.kind, Entry(fs, op.target)) && Suits(op.kind, post)
    requires Suits(op.kind, Claimed(fs0, op)) && BackupKept(fs0, op, Targets(ops) + {op.target})
    requires forall o | o in ops :: SameFamily(o, op) && BackupKept(fs0, o, {op.target})
    ensures Shaped(fs0, fs, ops + [op]) && Shaped(fs0, Put(fs, op.target, post), ops + [op])
  {
    var ops' := ops + [op];
    assert Targets(ops') == Targets(ops) + {op.target};
    forall fs', i | (fs' == fs || fs' == Put(fs, op.target, post)) && 0 <= i < |ops'|
      ensures ShapedAt(fs0, fs', ops', i)
    {
      if i < |ops| {
        assert ops'[i] == ops[i] && ops[i] in ops && ShapedAt(fs0, fs, ops, i);
        assert SameFamily(ops[i], op);
      }
    }
    hide ShapedAt, Suits, BackupKept;
    forall fs', p | (fs' == fs || fs' == Put(fs, op.target, post)) && p !in Targets(ops')
      ensures Entry(fs', p) == Entry(fs0, p)
    {
      assert p !in Targets(ops);
    }
  }

  /** A path that no record names may change, if it changes in both. */
  lemma AsideShaped(fs0: Files, fs: Files, ops: seq<Op>, p: Path, node: Node)
    requires Shaped(fs0, fs, ops) && p !in Targets(ops)
    requires forall o | o in ops :: OnLinks(o.kind) || o.predecessor != Some(p)
    ensures Shaped(fs0[p := node], fs[p := node], ops)
    ensures forall o | o in ops :: Claimed(fs0[p := node], o) == Claimed(fs0, o)
  {
    var fs0', fs' := fs0[p := node], fs[p := node];
    forall i | 0 <= i < |ops| ensures ShapedAt(fs0', fs', ops, i) {
      assert ShapedAt(fs0, fs, ops, i) && ops[i] in ops;
    }
  }

  // ---- Where the installer's own calls miss the truth

  /** Uninstall records a link's restored predecessor, not the link it removes: a
      marked record gives that predecessor back, or nothing, and the link that was there only if they are the same. */
  lemma UninstallRecordForgetsLink(fs0: Files, s: State, i: nat, own: string)
    requires Pending(s) && Shaped(fs0, s.files, s.journal.value.ops) && i < |s.journal.value.ops|
    requires var op := s.journal.value.ops[i];
             op.kind.Unlink? && op.applied && FirstOp(s.journal.value.ops, i)
               && Entry(fs0, op.target) == Some(Link(own))
    ensures var op := s.journal.value.ops[i];
            && Entry(Recover(s).files, op.target) ==
               (if op.predecessor.Some? then Some(Link(op.predecessor.value)) else None)
            && (Entry(Recover(s).files, op.target) == Entry(fs0, op.target) <==> op.predecessor == Some(own))
  {
    RecoverGivesClaims(fs0, s);
    RecoveredFirst(fs0, s.files, s.journal.value.ops, i);
    hide Recover;
  }

  /** Uninstall and rollback journal the receipt without a backup: once the record
      is marked, recovery leaves no receipt at all, in whatever journal it stands. */
  lemma ReceiptWithoutBackupIsLost(fs0: Files, s: State, i: nat)
    requires Pending(s) && Shaped(fs0, s.files, s.journal.value.ops) && i < |s.journal.value.ops|
    requires var op := s.journal.value.ops[i];
             op.kind.Receipt? && op.applied && FirstOp(s.journal.value.ops, i) && op.predecessor.None?
    ensures var op := s.journal.value.ops[i];
            && op.target !in Recover(s).files
            && (Recover(s).files == fs0 ==> op.target !in fs0)
  {
    RecoverGivesClaims(fs0, s);
    RecoveredFirst(fs0, s.files, s.journal.value.ops, i);
    hide Recover;
    assert Entry(Recover(s).files, s.journal.value.ops[i].target) == None;
  }
}
