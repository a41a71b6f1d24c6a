/** Recovery restores the files a transaction started from: exactly when, from
    which crash points, and however often recovery itself is cut off. */
module JournalProofs {
  import opened Options
  import opened FileSystem
  import opened JournalSpec

  // ---- One record

  /** While an undo of a suitable record runs, only its target changes. */
  lemma UndoOnlyTarget(fs0: Files, fs: Files, ops: seq<Op>, n: nat)
    requires n < |ops| && Fits(fs0, fs, ops)
    ensures Undo(fs, ops[n]).ok
    ensures forall s | s in Undo(fs, ops[n]).states ::
              Suits(ops[n].kind, Entry(s, ops[n].target)) &&
              forall p | p != ops[n].target :: Entry(s, p) == Entry(fs, p)
    ensures Proven(fs, ops[n]) ==>
              Entry(Last(fs, Undo(fs, ops[n]).states), ops[n].target) == Claimed(fs0, ops[n])
    ensures !Proven(fs, ops[n]) ==> Undo(fs, ops[n]).states == []
  {
    var op := ops[n];
    assert FitsAt(fs0, fs, ops, n) && op.target in Targets(ops);
    if !OnLinks(op.kind) && op.predecessor.Some? {
      var b := op.predecessor.value;
      assert Entry(fs, b) == Entry(fs0, b);
      assert Resolve(fs, b) == Some(b) && Resolve(fs, op.target) == Some(op.target);
    }
  }

  /** A state reached inside the undo of record n still fits the journal. */
  lemma UndoKeepsFit(fs0: Files, fs: Files, ops: seq<Op>, n: nat, s: Files)
    requires n < |ops| && Fits(fs0, fs, ops)
    requires Suits(ops[n].kind, Entry(s, ops[n].target)) && forall p | p != ops[n].target :: Entry(s, p) == Entry(fs, p)
    ensures Fits(fs0, s, ops)
  {
    assert ops[n].target in Targets(ops);
    forall i | 0 <= i < |ops|
      ensures FitsAt(fs0, s, ops, i)
    {
      assert FitsAt(fs0, fs, ops, i);
      if ops[i].target == ops[n].target {
        if i < n { assert SameFamily(ops[i], ops[n]); }
        if n < i { assert SameFamily(ops[n], ops[i]); }
      }
    }
  }

  /** Once the last record is undone the shorter journal fits, provided a
      target no earlier record mentions holds its original entry again. */
  lemma DropLast(fs0: Files, fs: Files, ops: seq<Op>)
    requires ops != [] && Fits(fs0, fs, ops)
    requires FirstOp(ops, |ops| - 1) ==> Entry(fs, ops[|ops| - 1].target) == Entry(fs0, ops[|ops| - 1].target)
    ensures Fits(fs0, fs, ops[..|ops| - 1])
  {
    var rest, last := ops[..|ops| - 1], ops[|ops| - 1];
    forall p | p !in Targets(rest)
      ensures Entry(fs, p) == Entry(fs0, p)
    {
      if p == last.target {
        forall i | 0 <= i < |ops| - 1
          ensures ops[i].target != last.target
        {
          assert rest[i] in rest;
        }
      } else {
        assert p !in Targets(ops);
      }
    }
    assert Targets(rest) <= Targets(ops);
    forall i | 0 <= i < |rest|
      ensures FitsAt(fs0, fs, rest, i)
    {
      assert FitsAt(fs0, fs, ops, i);
      assert FirstOp(rest, i) ==> forall j | 0 <= j < i :: rest[j].target != rest[i].target;
    }
  }

  // ---- All records

  /** Undoing a fitting journal whose last record is harmless gives back the original files. */
  lemma {:induction false} UndoAllRestores(fs0: Files, fs: Files, ops: seq<Op>)
    requires Fits(fs0, fs, ops)
    requires LastIsHarmless(fs0, fs, ops)
    ensures UndoAll(fs, ops).ok && Last(fs, UndoAll(fs, ops).states) == fs0
    decreases |ops|
  {
    if ops == [] {
      SameEntries(fs, fs0);
    } else {
      hide *;
      var n := |ops| - 1;
      UndoLast(fs0, fs, ops);
      UndoAllRestores(fs0, Last(fs, Undo(fs, ops[n]).states), ops[..n]);
      UndoAllNext(fs, ops);
    }
  }

  lemma UndoAllNext(fs: Files, ops: seq<Op>)
    requires ops != [] && Undo(fs, ops[|ops| - 1]).ok
    ensures var fs', rest := Last(fs, Undo(fs, ops[|ops| - 1]).states), ops[..|ops| - 1];
            && UndoAll(fs, ops).ok == UndoAll(fs', rest).ok
            && Last(fs, UndoAll(fs, ops).states) == Last(fs', UndoAll(fs', rest).states)
  {
    hide Undo;
  }

  /** Undoing a harmless last record leaves a fitting journal of the others, whose last is marked. */
  lemma UndoLast(fs0: Files, fs: Files, ops: seq<Op>)
    requires ops != [] && Fits(fs0, fs, ops) && LastIsHarmless(fs0, fs, ops)
    ensures var n := |ops| - 1;
            var fs' := Last(fs, Undo(fs, ops[n]).states);
            && Undo(fs, ops[n]).ok
            && Fits(fs0, fs', ops[..n]) && LastIsHarmless(fs0, fs', ops[..n])
  {
    var n := |ops| - 1;
    UndoOnlyTarget(fs0, fs, ops, n);
    assert FitsAt(fs0, fs, ops, n);
    var fs' := Last(fs, Undo(fs, ops[n]).states);
    UndoKeepsFit(fs0, fs, ops, n, fs');
    DropLast(fs0, fs', ops);
    if n > 0 { assert FitsAt(fs0, fs, ops, n - 1); }
  }

  lemma MovedFitsAt(fs0: Files, fs: Files, ops: seq<Op>, i: nat)
    requires i < |ops| - 1 && Fits(fs0, fs, ops) && FirstOp(ops, |ops| - 1)
    ensures var n := |ops| - 1;
            FitsAt(Put(fs0, ops[n].target, Entry(fs, ops[n].target)), fs, ops[..n], i)
  {
    var n := |ops| - 1;
    assert FitsAt(fs0, fs, ops, i) && ops[i].target != ops[n].target;
    assert FirstOp(ops[..n], i) ==> forall j | 0 <= j < i :: ops[..n][j].target != ops[..n][i].target;
    hide Fits;
  }

  /** The earlier records fit the original files with the last target moved to what is on disk. */
  lemma MovedFits(fs0: Files, fs: Files, ops: seq<Op>)
    requires ops != [] && Fits(fs0, fs, ops) && FirstOp(ops, |ops| - 1)
    ensures Fits(Put(fs0, ops[|ops| - 1].target, Entry(fs, ops[|ops| - 1].target)), fs, ops[..|ops| - 1])
  {
    var n := |ops| - 1;
    var t := ops[n].target;
    var moved := Put(fs0, t, Entry(fs, t));
    assert ops == ops[..n] + [ops[n]];
    assert Targets(ops) == Targets(ops[..n]) + {t};
    forall i | 0 <= i < n
      ensures FitsAt(moved, fs, ops[..n], i)
    {
      MovedFitsAt(fs0, fs, ops, i);
    }
    hide FitsAt;
    forall p | p !in Targets(ops[..n])
      ensures Entry(fs, p) == Entry(moved, p)
    {
      assert p != t ==> p !in Targets(ops);
    }
  }

  /** Otherwise the last record is passed over and its target keeps what the lost mutation left. */
  lemma UndoAllMisses(fs0: Files, fs: Files, ops: seq<Op>)
    requires Fits(fs0, fs, ops) && !LastIsHarmless(fs0, fs, ops)
    ensures UndoAll(fs, ops).ok
    ensures Last(fs, UndoAll(fs, ops).states) == Put(fs0, ops[|ops| - 1].target, Entry(fs, ops[|ops| - 1].target))
    ensures Last(fs, UndoAll(fs, ops).states) != fs0
  {
    var n := |ops| - 1;
    var moved := Put(fs0, ops[n].target, Entry(fs, ops[n].target));
    assert LastIsHarmless(moved, fs, ops[..n]) by {
      if n > 0 { assert FitsAt(fs0, fs, ops, n - 1) && ops[..n][n - 1] == ops[n - 1]; }
    }
    assert UndoAll(fs, ops) == UndoAll(fs, ops[..n]) by {
      assert Undo(fs, ops[n]) == Run([], true);
      var rest := UndoAll(fs, ops[..n]);
      assert [] + rest.states == rest.states;
    }
    assert Fits(moved, fs, ops[..n]) by {
      MovedFits(fs0, fs, ops);
    }
    UndoAllRestores(moved, fs, ops[..n]);
    assert Entry(moved, ops[n].target) != Entry(fs0, ops[n].target);
  }

  /** Recovery from a pending journal always finishes and removes the
      journal; it restores the original files if and only if the last record is harmless. */
  lemma RecoverRestoresIff(fs0: Files, s: State)
    requires Pending(s) && Fits(fs0, s.files, s.journal.value.ops)
    ensures Recover(s).journal == None
    ensures Recover(s).files == fs0 <==> LastIsHarmless(fs0, s.files, s.journal.value.ops)
  {
    if LastIsHarmless(fs0, s.files, s.journal.value.ops) {
      UndoAllRestores(fs0, s.files, s.journal.value.ops);
    } else {
      UndoAllMisses(fs0, s.files, s.journal.value.ops);
    }
  }

  // ---- Crash points of a transaction

  lemma {:induction false} FilesAfterFrame(fs: Files, acts: seq<Act>, p: Path)
    requires forall act | act in acts :: act.op.target != p
    ensures Entry(FilesAfter(fs, acts), p) == Entry(fs, p)
  {
    if acts != [] {
      FilesAfterFrame(fs, acts[..|acts| - 1], p);
    }
  }

  lemma {:induction false} FilesAfterSuits(fs: Files, acts: seq<Act>, n: nat, i: nat)
    requires Truthful(fs, acts) && i < |acts| && n <= |acts|
    ensures Suits(acts[i].op.kind, Entry(FilesAfter(fs, acts[..n]), acts[i].op.target))
    decreases n, i
  {
    assert TruthfulAct(fs, acts, i);
    var t := acts[i].op.target;
    if n == 0 {
      if forall j | 0 <= j < i :: acts[j].op.target != t {
        FilesAfterFrame(fs, acts[..i], t);
        assert Claimed(fs, acts[i].op) == Entry(fs, t);
      } else {
        var j :| 0 <= j < i && acts[j].op.target == t;
        assert SameFamily(acts[j].op, acts[i].op);
        FilesAfterSuits(fs, acts, 0, j);
      }
    } else {
      assert acts[..n][..n - 1] == acts[..n - 1];
      var m := n - 1;
      assert TruthfulAct(fs, acts, m);
      if acts[m].op.target == t {
        if i < m { assert SameFamily(acts[i].op, acts[m].op); }
        if m < i { assert SameFamily(acts[m].op, acts[i].op); }
      } else {
        FilesAfterSuits(fs, acts, m, i);
      }
    }
  }

  /** The files after act n - 1 or n fit a journal of n marked records and, it may be, act n's intent. */
  lemma CrashFits(fs: Files, acts: seq<Act>, n: nat, m: nat, ops: seq<Op>)
    requires Truthful(fs, acts) && n <= m <= |acts|
    requires ops == Marked(acts[..n]) || (n < |acts| && m <= n + 1 && ops == Marked(acts[..n]) + [acts[n].op])
    requires m <= |ops|
    ensures Fits(fs, FilesAfter(fs, acts[..m]), ops)
  {
    var files := FilesAfter(fs, acts[..m]);
    forall i | 0 <= i < |ops|
      ensures ops[i].kind == acts[i].op.kind && ops[i].target == acts[i].op.target
      ensures ops[i].predecessor == acts[i].op.predecessor
      ensures i < |ops| - 1 ==> ops[i].applied
    {}
    forall op | op in ops
      ensures op.target in Targets(Marked(acts))
    {
      var i :| 0 <= i < |ops| && ops[i] == op;
      assert Marked(acts)[i] in Marked(acts);
    }
    assert Targets(ops) <= Targets(Marked(acts));
    forall p | p !in Targets(ops)
      ensures Entry(files, p) == Entry(fs, p)
    {
      forall act | act in acts[..m] ensures act.op.target != p {
        var i :| 0 <= i < m && acts[i] == act;
        assert ops[i] in ops;
      }
      FilesAfterFrame(fs, acts[..m], p);
    }
    forall i | 0 <= i < |ops|
      ensures FitsAt(fs, files, ops, i)
    {
      assert TruthfulAct(fs, acts, i);
      FilesAfterSuits(fs, acts, m, i);
      if FirstOp(ops, i) {
        forall act | act in acts[..i] ensures act.op.target != ops[i].target {
          var j :| 0 <= j < i && acts[j] == act;
          assert ops[j].target != ops[i].target;
        }
        FilesAfterFrame(fs, acts[..i], ops[i].target);
      }
    }
    forall i, j | 0 <= i < j < |ops| ensures SameFamily(ops[i], ops[j]) {
      assert SameFamily(acts[i].op, acts[j].op);
    }
  }

  /** Act n's unmarked intent is harmless before its mutation, and after it exactly when the crash is safe. */
  lemma LastRecord(fs: Files, acts: seq<Act>, n: nat, ops: seq<Op>)
    requires Truthful(fs, acts) && n < |acts| && ops == Marked(acts[..n]) + [acts[n].op]
    ensures LastIsHarmless(fs, FilesAfter(fs, acts[..n]), ops)
    ensures LastIsHarmless(fs, FilesAfter(fs, acts[..n + 1]), ops) <==> SafeCrash(fs, acts, Mutated(n))
  {
    var op, after := acts[n].op, FilesAfter(fs, acts[..n + 1]);
    assert TruthfulAct(fs, acts, n);
    assert acts[..n + 1][..n] == acts[..n];
    assert Entry(after, op.target) == acts[n].post;
    assert Detectable(acts[n]) <==> Proven(after, op);
    assert forall i | 0 <= i < n :: ops[i].target == acts[i].op.target;
    if FirstOnTarget(acts, n) {
      FilesAfterFrame(fs, acts[..n], op.target);
    }
  }

  lemma CrashLeavesFit(fs: Files, acts: seq<Act>, crash: Crash)
    requires Truthful(fs, acts) && InScript(acts, crash) && !crash.Committed?
    ensures var s := CrashState(fs, acts, crash);
            && Fits(fs, s.files, s.journal.value.ops)
            && (LastIsHarmless(fs, s.files, s.journal.value.ops) <==> SafeCrash(fs, acts, crash))
  {
    var s := CrashState(fs, acts, crash);
    var n := crash.n;
    CrashFits(fs, acts, n, if crash.Mutated? then n + 1 else n, s.journal.value.ops);
    if !crash.Between? {
      LastRecord(fs, acts, n, s.journal.value.ops);
    }
  }

  /** The main theorem.  After a crash at any point of any truthful
      transaction recovery removes the journal and keeps committed work;
      before the commit record it restores every file if and only if the crash is safe. */
  lemma CrashRecovery(fs: Files, acts: seq<Act>, crash: Crash)
    requires Truthful(fs, acts) && InScript(acts, crash)
    ensures Recover(CrashState(fs, acts, crash)).journal == None
    ensures crash.Committed? ==> Recover(CrashState(fs, acts, crash)).files == FilesAfter(fs, acts)
    ensures !crash.Committed? ==> (Recover(CrashState(fs, acts, crash)).files == fs <==> SafeCrash(fs, acts, crash))
  {
    if !crash.Committed? {
      CrashLeavesFit(fs, acts, crash);
      RecoverRestoresIff(fs, CrashState(fs, acts, crash));
    }
  }

  // ---- Recoveries that are themselves cut off

  /** Every state on the way of undoing the first k records fits, and paths they do not target stay put. */
  lemma {:induction false} UndoStatesFit(fs0: Files, fs: Files, ops: seq<Op>, k: nat)
    requires k <= |ops| && Fits(fs0, fs, ops)
    ensures forall s | s in UndoAll(fs, ops[..k]).states ::
              Fits(fs0, s, ops) && SameOutside(fs, s, Targets(ops[..k]))
    decreases k
  {
    if k > 0 {
      var n := k - 1;
      assert ops[..k][..n] == ops[..n] && ops[..k] == ops[..n] + [ops[n]];
      assert Targets(ops[..k]) == Targets(ops[..n]) + {ops[n].target};
      UndoOnlyTarget(fs0, fs, ops, n);
      var first := Undo(fs, ops[n]);
      forall s | s in first.states ensures Fits(fs0, s, ops) {
        UndoKeepsFit(fs0, fs, ops, n, s);
      }
      var fs' := Last(fs, first.states);
      UndoStatesFit(fs0, fs', ops, n);
      forall s | s in UndoAll(fs, ops[..k]).states
        ensures Fits(fs0, s, ops) && SameOutside(fs, s, Targets(ops[..k]))
      {
        assert s in first.states || s in UndoAll(fs', ops[..n]).states;
      }
    }
  }

  /** Whether a suitable record is proven depends on its own target alone. */
  lemma ProvenByTarget(fs: Files, fs': Files, op: Op)
    requires Suits(op.kind, Entry(fs, op.target)) && Entry(fs, op.target) == Entry(fs', op.target)
    ensures Proven(fs, op) == Proven(fs', op)
  {}

  /** How the target of an unmarked first record stands when undoing has taken k >= 1 steps. */
  lemma FirstTargetAt(fs0: Files, fs: Files, ops: seq<Op>, k: nat)
    requires ops != [] && Fits(fs0, fs, ops) && FirstOp(ops, |ops| - 1)
    requires 0 < k <= |UndoAll(fs, ops).states|
    ensures var op, s := ops[|ops| - 1], UndoAll(fs, ops).states[k - 1];
            var first := Undo(fs, op).states;
            Entry(s, op.target) == Entry(if k < |first| then first[k - 1] else Last(fs, first), op.target)
  {
    var n := |ops| - 1;
    UndoOnlyTarget(fs0, fs, ops, n);
    var first := Undo(fs, ops[n]).states;
    if k > |first| {
      var fs' := Last(fs, first);
      assert FitsAt(fs0, fs, ops, n);
      UndoKeepsFit(fs0, fs, ops, n, fs');
      UndoStatesFit(fs0, fs', ops, n);
      assert UndoAll(fs, ops).states[k - 1] in UndoAll(fs', ops[..n]).states;
    }
  }

  /** A cut before the journal is gone leaves one of the undo's states. */
  lemma CutAtState(s: State, k: nat)
    requires Pending(s)
    ensures var run := UndoAll(s.files, s.journal.value.ops);
            && (run.ok && k > |run.states| ==> CutAt(s, k) == Recover(s) && Recover(s).journal.None?)
            && (0 < k <= |run.states| ==> CutAt(s, k) == State(run.states[k - 1], s.journal))
            && (k == 0 ==> CutAt(s, k) == s)
  {
    hide Undo, UndoAll;
    var run := UndoAll(s.files, s.journal.value.ops);
    var undone := seq(|run.states|, i requires 0 <= i < |run.states| => State(run.states[i], s.journal));
    var end := if run.ok then [State(Last(s.files, run.states), None)] else [];
    assert RecoverTrace(s) == [s] + undone + end;
    hide RecoverTrace, Last;
    OnTheWay(s, undone, end, k);
  }

  lemma OnTheWay<T>(first: T, middle: seq<T>, end: seq<T>, k: nat)
    ensures ([first] + middle + end)[0] == first
    ensures 0 < k <= |middle| ==> ([first] + middle + end)[k] == middle[k - 1]
    ensures end != [] ==> ([first] + middle + end)[|middle| + |end|] == end[|end| - 1]
  {}

  lemma LastUndoneFirst(fs: Files, ops: seq<Op>)
    requires ops != []
    ensures |Undo(fs, ops[|ops| - 1]).states| <= |UndoAll(fs, ops).states|
  {
    hide Undo;
  }

  /** One cut keeps the journal fitting, and keeps it harmless unless the cut loses. */
  lemma CutStep(fs0: Files, s: State, k: nat)
    requires Pending(s) && Fits(fs0, s.files, s.journal.value.ops)
    ensures var s', ops := CutAt(s, k), s.journal.value.ops;
            if Pending(s') then
              && s'.journal == s.journal && Fits(fs0, s'.files, ops)
              && (LastIsHarmless(fs0, s'.files, ops) <==> LastIsHarmless(fs0, s.files, ops) && !LosingCut(s, k))
            else s' == Recover(s) && !LosingCut(s, k)
  {
    var ops, run := s.journal.value.ops, UndoAll(s.files, s.journal.value.ops);
    assert run.ok by { RecoverRestoresIff(fs0, s); }
    CutAtState(s, k);
    if ops != [] { LastUndoneFirst(s.files, ops); }
    hide CutAt, UndoAll, Recover, RecoverTrace, Proven;
    if 0 < k <= |run.states| {
      var fs := run.states[k - 1];
      assert Fits(fs0, fs, ops) by {
        assert ops[..|ops|] == ops;
        UndoStatesFit(fs0, s.files, ops, |ops|);
      }
      hide Fits;
      var n := |ops| - 1;
      if !ops[n].applied && FirstOp(ops, n) {
        CutUnmarked(fs0, s, k);
      }
    }
  }

  lemma CutUnmarked(fs0: Files, s: State, k: nat)
    requires Pending(s) && Fits(fs0, s.files, s.journal.value.ops)
    requires var ops := s.journal.value.ops; ops != [] && !ops[|ops| - 1].applied && FirstOp(ops, |ops| - 1)
    requires 0 < k <= |UndoAll(s.files, s.journal.value.ops).states|
    requires Fits(fs0, UndoAll(s.files, s.journal.value.ops).states[k - 1], s.journal.value.ops)
    ensures var ops := s.journal.value.ops;
            LastIsHarmless(fs0, UndoAll(s.files, ops).states[k - 1], ops)
            <==> LastIsHarmless(fs0, s.files, ops) && !LosingCut(s, k)
  {
    var ops := s.journal.value.ops;
    var n, fs := |ops| - 1, UndoAll(s.files, ops).states[k - 1];
    var op := ops[n];
    FirstTargetAt(fs0, s.files, ops, k);
    UndoOnlyTarget(fs0, s.files, ops, n);
    assert FitsAt(fs0, s.files, ops, n) && FitsAt(fs0, fs, ops, n);
    var first := Undo(s.files, op).states;
    if !Proven(s.files, op) {
      ProvenByTarget(s.files, fs, op);
    } else if k < |first| {
      ProvenByTarget(first[k - 1], fs, op);
      assert |first| == 2 && k == 1;
      assert op.predecessor.Some?;
      if op.kind.FileWrite? {
        assert Entry(s.files, op.predecessor.value) == Entry(fs0, op.predecessor.value);
      }
    }
  }

  /** The second main theorem.  Recovery may be cut off any number of times,
      after any of its steps; a last uninterrupted run restores every file if and
      only if it would have done so at once and no cut was a losing one. */
  lemma {:induction false} CutOffRecovery(fs0: Files, s: State, cuts: seq<nat>)
    requires Pending(s) && Fits(fs0, s.files, s.journal.value.ops)
    ensures Recover(CutOff(s, cuts)).journal == None
    ensures Recover(CutOff(s, cuts)).files == fs0
            <==> LastIsHarmless(fs0, s.files, s.journal.value.ops) && NoLosingCut(s, cuts)
    decreases |cuts|
  {
    if cuts == [] {
      RecoverRestoresIff(fs0, s);
    } else {
      CutStep(fs0, s, cuts[0]);
      var s' := CutAt(s, cuts[0]);
      if Pending(s') {
        CutOffRecovery(fs0, s', cuts[1..]);
      } else {
        RecoverRestoresIff(fs0, s);
        CutOffDone(s', cuts[1..]);
      }
    }
  }

  lemma {:induction false} CutOffDone(s: State, cuts: seq<nat>)
    requires s.journal.None?
    ensures CutOff(s, cuts) == s && Recover(s) == s && NoLosingCut(s, cuts)
    decreases |cuts|
  {
    if cuts != [] {
      CutOffDone(s, cuts[1..]);
    }
  }

  /** Both theorems in one: crash a transaction anywhere before its commit
      record, cut its recovery off as often as you like, and recover. */
  lemma CrashThenCutOffRecovery(fs: Files, acts: seq<Act>, crash: Crash, cuts: seq<nat>)
    requires Truthful(fs, acts) && InScript(acts, crash) && !crash.Committed?
    ensures var s := CrashState(fs, acts, crash);
            Recover(CutOff(s, cuts)) == State(fs, None) <==> SafeCrash(fs, acts, crash) && NoLosingCut(s, cuts)
  {
    CrashLeavesFit(fs, acts, crash);
    CutOffRecovery(fs, CrashState(fs, acts, crash), cuts);
  }

  lemma CutKeepsJournal(s: State, k: nat)
    ensures Pending(CutAt(s, k)) ==> Pending(s) && CutAt(s, k).journal == s.journal
  {
    hide Undo, UndoAll;
  }

  /** Only a crash between a mutation and its mark can meet a losing cut. */
  lemma {:induction false} MarkedJournalNeverLoses(s: State, cuts: seq<nat>)
    requires Pending(s) ==> var ops := s.journal.value.ops; ops == [] || ops[|ops| - 1].applied
    ensures NoLosingCut(s, cuts)
    decreases |cuts|
  {
    if cuts != [] {
      CutKeepsJournal(s, cuts[0]);
      hide CutAt, Undo;
      MarkedJournalNeverLoses(CutAt(s, cuts[0]), cuts[1..]);
    }
  }

  // ---- Where the installer's own calls miss the guard

  /** Adopting a link journals a removal as a `Symlink` operation.  A crash
      between that removal and its mark loses the adopted link. */
  lemma AdoptionWindowLosesLink(fs: Files, target: Path, prior: string, desired: string)
    requires Entry(fs, target) == Some(Link(prior))
    ensures var acts := [Act(Op(Symlink, target, Some(prior), LinkTo(desired), false), None)];
            Truthful(fs, acts) && Recover(CrashState(fs, acts, Mutated(0))) == State(fs - {target}, None)
  {
    var act := Act(Op(Symlink, target, Some(prior), LinkTo(desired), false), None);
    assert [act][..0] == [] && [act][..1] == [act];
    assert TruthfulAct(fs, [act], 0);
    var s := CrashState(fs, [act], Mutated(0));
    assert s.journal.value.ops == [act.op];
    assert UndoAll(s.files, [act.op]) == Run([], true) by { assert [act.op][..0] == []; }
  }
}
