/** The uninstall as code: the read-only plan, the journalled passes, and the removal after the commit. */
module Uninstall {
  import opened Options
  import opened FileSystem
  import opened JournalSpec
  import opened Journals
  import opened UninstallSpec
  import opened UninstallCuts
  import opened UninstallHosts

  /** The read-only mirror. */
  method PlanUninstall(fs: Files, paths: InstallPaths, releaseHash: string, owned: seq<Owned>) returns (plan: Plan)
    ensures plan == PlanOf(fs, paths, releaseHash, owned)
  {
    var remove, retain := [], [];
    for i := 0 to |owned|
      invariant remove == Selected(owned[..i], item => WouldRemove(fs, item))
      invariant retain == Selected(owned[..i], item => WouldRetain(fs, item))
    {
      assert owned[..i + 1][..i] == owned[..i];
      var item := owned[i];
      if item.kind.WiringPath? { continue; }
      if !IsLink(fs, item.path) {
        if item.path in fs { retain := retain + [item.path]; }
        continue;
      }
      if !LinkUnchanged(fs, item) {
        retain := retain + [item.path];
      } else {
        remove := remove + [item.path];
      }
    }
    assert owned[..|owned|] == owned;
    if retain != [] {
      return Plan(remove, retain, false, false, {});
    }
    var current := CurrentIsOurs(fs, paths, releaseHash);
    var keep := if Exists(fs, paths.current) && !current then Resolve(fs, paths.current) else None;
    return Plan(remove, retain, current, true, RemovableReleases(fs, paths, keep));
  }

  // ---- Watching the trace

  /** Only states beside this journal were added. */
  ghost predicate Grew(before: seq<State>, trace: seq<State>, journal: Option<Journal>) {
    before <= trace && forall k | |before| <= k < |trace| :: trace[k].journal == journal
  }

  lemma WatchMore(fs: Files, paths: InstallPaths, owned: seq<Owned>, wiring: Wiring, trace: seq<State>,
                  more: seq<State>, from: nat)
    requires Watched(fs, paths, owned, wiring, trace, from)
    requires forall s | s in more && Pending(s) :: CutInside(fs, paths, owned, wiring, s)
    ensures Watched(fs, paths, owned, wiring, trace + more, from)
  {
    hide CutInside, Pending;
    forall k | from <= k < |trace + more| && Pending((trace + more)[k])
      ensures CutInside(fs, paths, owned, wiring, (trace + more)[k])
    {
      if k >= |trace| { assert (trace + more)[k] == more[k - |trace|]; }
    }
  }

  /** The disk rests between two operations of an uninstall that began with `fs`,
      and every durable state since state number `from` was inside it. */
  ghost predicate Resting(fs: Files, paths: InstallPaths, owned: seq<Owned>, wiring: Wiring, base: Files,
                          journal: TransactionJournal, from: nat)
    reads journal, journal.disk
  {
    && journal.Open() && IsDistinctLayout(paths, owned) && WellNamed(wiring, paths)
    && AtRest(fs, paths, owned, wiring, base, journal.disk.Now())
    && Watched(fs, paths, owned, wiring, journal.disk.trace, from)
  }

  /** One journalled operation, watched if the uninstall rests. */
  method Perform(journal: TransactionJournal, op: Op, post: Option<Node>, ghost watch: bool, ghost fs: Files,
                 ghost paths: InstallPaths, ghost owned: seq<Owned>, ghost wiring: Wiring, ghost base: Files,
                 ghost from: nat)
    requires journal.Open() && !op.applied
    requires watch ==> Resting(fs, paths, owned, wiring, base, journal, from)
    requires watch ==> MayFollow(fs, paths, owned, wiring, base, journal.disk.Now(), op, post)
    modifies journal, journal.disk
    ensures old(journal.disk.trace) <= journal.disk.trace
    ensures journal.Open() && journal.disk.files == Put(old(journal.disk.files), op.target, post)
    ensures journal.data.ops == old(journal.data.ops) + [op.(applied := true)]
    ensures watch ==> Resting(fs, paths, owned, wiring, base, journal, from)
  {
    hide MayFollow, Inside, AtRest, Watched, IsDistinctLayout, WellNamed;
    ghost var s, trace := journal.disk.Now(), journal.disk.trace;
    assert watch ==> Pending(s);
    if watch {
      ApplyStaysInside(fs, paths, owned, wiring, base, s, op, post);
    }
    var _ := journal.Apply(op, Leaves(post), None);
    if watch {
      ghost var ops := s.journal.value.ops;
      ghost var more := [State(s.files, Some(Journal(ops + [op], false))),
                         State(journal.disk.files, Some(Journal(ops + [op], false))), journal.disk.Now()];
      assert journal.disk.trace == trace + more;
      ThreeInside(fs, paths, owned, wiring, base, more);
      hide *;
      WatchMore(fs, paths, owned, wiring, trace, more, from);
    }
  }

  lemma ThreeInside(fs: Files, paths: InstallPaths, owned: seq<Owned>, wiring: Wiring, base: Files, more: seq<State>)
    requires |more| == 3 && Inside(fs, paths, owned, wiring, base, more[0])
             && Inside(fs, paths, owned, wiring, base, more[1])
    requires AtRest(fs, paths, owned, wiring, base, more[2])
    ensures forall s | s in more && Pending(s) :: CutInside(fs, paths, owned, wiring, s)
  {
    hide Inside;
  }

  // ---- The link pass

  /** The records of the link pass over the items. */
  ghost predicate LinkRecordsOnly(fs: Files, owned: seq<Owned>, ops: seq<Op>) {
    forall op | op in ops :: LinkRecord(fs, owned, op) || PutBackRecord(fs, owned, op)
  }

  lemma LinkMayFollow(fs: Files, paths: InstallPaths, owned: seq<Owned>, wiring: Wiring, s: State, i: nat)
    requires Pending(s) && i < |owned| && WouldRemove(fs, owned[i])
             && Entry(s.files, owned[i].path) == Entry(fs, owned[i].path)
    ensures MayFollow(fs, paths, owned, wiring, fs, s, Op(Unlink, owned[i].path, owned[i].predecessor, NoResult, false),
                      None)
    ensures LinkRecord(fs, owned, Op(Unlink, owned[i].path, owned[i].predecessor, NoResult, true))
  {
    var op := Op(Unlink, owned[i].path, owned[i].predecessor, NoResult, false);
    assert LinkRecord(fs, owned, op);
  }

  lemma PutBackMayFollow(fs: Files, paths: InstallPaths, owned: seq<Owned>, wiring: Wiring, s: State, i: nat,
                         text: string)
    requires Pending(s) && i < |owned| && WouldRemove(fs, owned[i]) && owned[i].path !in s.files
    requires exists o :: o in s.journal.value.ops && o.target == owned[i].path
    ensures MayFollow(fs, paths, owned, wiring, fs, s, Op(Symlink, owned[i].path, None, LinkTo(text), false),
                      Some(Link(text)))
    ensures PutBackRecord(fs, owned, Op(Symlink, owned[i].path, None, LinkTo(text), true))
  {
    assert IsRemovable(fs, owned, owned[i].path);
  }

  /** One removable link: its record and removal, and the predecessor's, if any. */
  method RemoveLink(journal: TransactionJournal, owned: seq<Owned>, i: nat, ghost watch: bool, ghost fs: Files,
                    ghost paths: InstallPaths, ghost wiring: Wiring, ghost from: nat)
    requires journal.Open() && i < |owned| && WouldRemove(journal.disk.files, owned[i])
    requires watch ==>
               Resting(fs, paths, owned, wiring, fs, journal, from) && LinkRecordsOnly(fs, owned, journal.data.ops)
    requires watch ==> WouldRemove(fs, owned[i]) && Entry(journal.disk.files, owned[i].path) == Entry(fs, owned[i].path)
    modifies journal, journal.disk
    ensures old(journal.disk.trace) <= journal.disk.trace
    ensures journal.Open() && journal.disk.files == Put(old(journal.disk.files), owned[i].path, PutBack(owned[i]))
    ensures watch ==>
              Resting(fs, paths, owned, wiring, fs, journal, from) && LinkRecordsOnly(fs, owned, journal.data.ops)
  {
    hide Resting, LinkRecord, PutBackRecord, MayFollow, WouldRemove;
    var item := owned[i];
    if watch { LinkMayFollow(fs, paths, owned, wiring, journal.disk.Now(), i); }
    Perform(journal, Op(Unlink, item.path, item.predecessor, NoResult, false), None, watch, fs, paths, owned, wiring,
            fs, from);
    assert LinkRecordsOnly(fs, owned, journal.data.ops) || !watch;
    if item.predecessor.Some? {
      assert journal.data.ops[|journal.data.ops| - 1] in journal.data.ops;
      var text := item.predecessor.value;
      if watch { PutBackMayFollow(fs, paths, owned, wiring, journal.disk.Now(), i, text); }
      ghost var gone := journal.disk.files;
      Perform(journal, Op(Symlink, item.path, None, LinkTo(text), false), Some(Link(text)), watch, fs, paths, owned,
              wiring, fs, from);
    }
  }

  /** The journalled link pass.  Run first in an uninstall with distinct paths,
      every durable state of it is inside that uninstall. */
  method RestoreSkillLinks(journal: TransactionJournal, owned: seq<Owned>, ghost paths: InstallPaths,
                           ghost wiring: Wiring)
    returns (retained: set<Path>, restored: set<Path>)
    requires journal.Open()
    modifies journal, journal.disk
    ensures old(journal.disk.trace) <= journal.disk.trace
    ensures journal.Open() && journal.disk.files == LinksRestored(old(journal.disk.files), owned)
    ensures retained == LinksRetained(old(journal.disk.files), owned)
    ensures restored == LinksReinstated(old(journal.disk.files), owned)
    ensures old(journal.data.ops) == [] && IsDistinctLayout(paths, owned) && WellNamed(wiring, paths) ==>
              && Resting(old(journal.disk.files), paths, owned, wiring, old(journal.disk.files), journal,
                         |old(journal.disk.trace)|)
              && LinkRecordsOnly(old(journal.disk.files), owned, journal.data.ops)
  {
    ghost var fs, from := journal.disk.files, |journal.disk.trace|;
    ghost var watch := journal.data.ops == [] && IsDistinctLayout(paths, owned) && WellNamed(wiring, paths);
    if watch { StartsAtRest(fs, paths, owned, wiring, journal.disk.Now()); }
    retained, restored := {}, {};
    for i := 0 to |owned|
      invariant journal.Open() && journal.disk.files == LinksRestored(fs, owned[..i])
      invariant retained == LinksRetained(fs, owned[..i])
      invariant restored == LinksReinstated(fs, owned[..i]) && old(journal.disk.trace) <= journal.disk.trace
      invariant watch ==>
                  Resting(fs, paths, owned, wiring, fs, journal, from) && LinkRecordsOnly(fs, owned, journal.data.ops)
    {
      hide Resting, LinkRecordsOnly;
      assert owned[..i + 1][..i] == owned[..i];
      var item, files := owned[i], journal.disk.files;
      if item.kind.WiringPath? { continue; }
      if !IsLink(files, item.path) {
        if item.path in files { retained := retained + {item.path}; }
        continue;
      }
      if !LinkUnchanged(files, item) {
        retained := retained + {item.path};
        continue;
      }
      if watch { JudgedAtStart(fs, owned, i); }
      RemoveLink(journal, owned, i, watch, fs, paths, wiring, from);
      if item.predecessor.Some? {
        restored := restored + {item.path};
      }
    }
    assert owned[..|owned|] == owned;
  }

  lemma StartsAtRest(fs: Files, paths: InstallPaths, owned: seq<Owned>, wiring: Wiring, s: State)
    requires s == State(fs, Some(Journal([], false)))
    ensures AtRest(fs, paths, owned, wiring, fs, s)
  {}

  // ---- The host wiring

  /** Records of links and of host files, the latter among the first n items. */
  ghost predicate EarlyRecords(fs: Files, owned: seq<Owned>, wiring: Wiring, ops: seq<Op>, n: nat) {
    forall op | op in ops ::
      || LinkRecord(fs, owned, op) || PutBackRecord(fs, owned, op)
      || (WiringRecord(fs, owned, wiring, op) && exists i :: 0 <= i < n && i < |owned| && owned[i].path == op.target)
  }

  /** A path that no record names holds what it held. */
  lemma UntouchedEntry(fs: Files, paths: InstallPaths, owned: seq<Owned>, wiring: Wiring, base: Files, s: State,
                       p: Path)
    requires AtRest(fs, paths, owned, wiring, base, s) && !Beneath(p, paths.backups)
    requires forall op | op in s.journal.value.ops :: op.target != p
    ensures Entry(s.files, p) == Entry(fs, p)
  {
    assert p !in Targets(s.journal.value.ops);
  }

  /** A host file not yet looked at: no record names it, nor its backup. */
  lemma FreshItem(fs: Files, paths: InstallPaths, owned: seq<Owned>, wiring: Wiring, ops: seq<Op>, i: nat)
    requires IsDistinctLayout(paths, owned) && WellNamed(wiring, paths)
    requires i < |owned| && owned[i].kind.WiringPath? && EarlyRecords(fs, owned, wiring, ops, i)
    ensures forall op | op in ops :: op.target != owned[i].path
    ensures forall op, bytes | op in ops ::
              OnLinks(op.kind) || op.predecessor != Some(wiring.backupOf(owned[i].path, bytes))
    ensures !Beneath(owned[i].path, paths.backups)
  {
    hide Beneath;
  }

  lemma WiringMayFollow(fs: Files, paths: InstallPaths, owned: seq<Owned>, wiring: Wiring, base: Files, s: State,
                        i: nat, post: Rewiring)
    requires Pending(s) && i < |owned| && owned[i].kind.WiringPath?
    requires Entry(s.files, owned[i].path) == Entry(fs, owned[i].path)
    requires owned[i].path in fs && fs[owned[i].path].File?
    requires Entry(base, wiring.backupOf(owned[i].path, fs[owned[i].path].bytes)) == Some(fs[owned[i].path])
    ensures MayFollow(fs, paths, owned, wiring, base, s, WiringOp(wiring, owned[i].path, fs[owned[i].path].bytes, post),
                      PostFile(post))
    ensures WiringRecord(fs, owned, wiring,
                         WiringOp(wiring, owned[i].path, fs[owned[i].path].bytes, post).(applied := true))
  {
    var op := WiringOp(wiring, owned[i].path, fs[owned[i].path].bytes, post);
    assert WiringRecord(fs, owned, wiring, op);
  }

  function WiringOp(wiring: Wiring, p: Path, bytes: string, post: Rewiring): Op {
    Op(FileWrite, p, Some(wiring.backupOf(p, bytes)),
       if post.Rewrite? then Hash(Sha256(post.bytes)) else NoResult, false)
  }

  /** Copy the bytes aside: the copy is truncated first. */
  method BackUp(journal: TransactionJournal, backup: Path, bytes: string, ghost watch: bool, ghost fs: Files,
                ghost paths: InstallPaths, ghost owned: seq<Owned>, ghost wiring: Wiring, ghost base: Files,
                ghost from: nat)
    requires journal.Open()
    requires watch ==> Resting(fs, paths, owned, wiring, base, journal, from) && Beneath(backup, paths.backups)
    requires watch ==> forall op | op in journal.data.ops :: OnLinks(op.kind) || op.predecessor != Some(backup)
    modifies journal.disk
    ensures old(journal.disk.trace) <= journal.disk.trace
    ensures journal.Open() && journal.disk.files == old(journal.disk.files)[backup := File(bytes)]
    ensures watch ==> Resting(fs, paths, owned, wiring, base[backup := File(bytes)], journal, from)
  {
    ghost var s, trace := journal.disk.Now(), journal.disk.trace;
    journal.disk.Change(journal.disk.files[backup := File("")]);
    ghost var half := journal.disk.Now();
    journal.disk.Change(journal.disk.files[backup := File(bytes)]);
    if watch {
      BackupStaysAtRest(fs, paths, owned, wiring, base, s, backup, File(""));
      BackupStaysAtRest(fs, paths, owned, wiring, base, s, backup, File(bytes));
      assert s.files[backup := File("")][backup := File(bytes)] == s.files[backup := File(bytes)];
      assert journal.disk.trace == trace + [half, journal.disk.Now()];
      WatchMore(fs, paths, owned, wiring, trace, [half, journal.disk.Now()], from);
    }
  }

  /** One item of the host-wiring pass; `ok` is false if it raises. */
  method RewireItem(journal: TransactionJournal, owned: seq<Owned>, i: nat, wiring: Wiring, ghost watch: bool,
                    ghost fs: Files, ghost paths: InstallPaths, ghost base: Files, ghost from: nat)
    returns (ok: bool, ghost base': Files)
    requires journal.Open() && IsDistinctLayout(paths, owned) && WellNamed(wiring, paths) && i < |owned|
    requires watch ==>
               Resting(fs, paths, owned, wiring, base, journal, from) &&
               EarlyRecords(fs, owned, wiring, journal.data.ops, i)
    modifies journal, journal.disk
    ensures journal.Open() && old(journal.disk.trace) <= journal.disk.trace
    ensures ok <==> !WiringRaises(old(journal.disk.files), owned[i], wiring)
    ensures journal.disk.files == Rewired(old(journal.disk.files), owned[i], wiring)
    ensures watch ==>
              Resting(fs, paths, owned, wiring, base', journal, from)
                && EarlyRecords(fs, owned, wiring, journal.data.ops, i + 1)
  {
    hide LinkRecord, PutBackRecord, WiringRecord, Beneath, MayFollow, AtRest, Watched;
    ok, base' := true, base;
    var item := owned[i];
    if item.kind.SymlinkPath? || item.path !in journal.disk.files || !journal.disk.files[item.path].File? {
      return;
    }
    var bytes := journal.disk.files[item.path].bytes;
    var rewired := wiring.rewire(item.path, bytes);
    if !Changes(rewired) {
      ok := !rewired.Raise?;
      return;
    }
    var backup := wiring.backupOf(item.path, bytes);
    assert Beneath(backup, paths.backups);
    if watch {
      FreshItem(fs, paths, owned, wiring, journal.data.ops, i);
      UntouchedEntry(fs, paths, owned, wiring, base, journal.disk.Now(), item.path);
    }
    BackUp(journal, backup, bytes, watch, fs, paths, owned, wiring, base, from);
    base' := base[backup := File(bytes)];
    if watch {
      UntouchedEntry(fs, paths, owned, wiring, base', journal.disk.Now(), item.path);
      WiringMayFollow(fs, paths, owned, wiring, base', journal.disk.Now(), i, rewired);
    }
    hide IsDistinctLayout, WellNamed;
    Perform(journal, WiringOp(wiring, item.path, bytes, rewired), PostFile(rewired),
            watch, fs, paths, owned, wiring, base', from);
  }

  /** The host-wiring pass over the receipt's host files: each is backed up and then
      rewritten or removed, as the wiring says of its bytes, up to one that raises. */
  method RemoveHostWiring(journal: TransactionJournal, owned: seq<Owned>, wiring: Wiring, ghost watch: bool,
                          ghost fs: Files, ghost paths: InstallPaths, ghost from: nat)
    returns (ok: bool, ghost base: Files)
    requires journal.Open() && IsDistinctLayout(paths, owned) && WellNamed(wiring, paths)
    requires watch ==>
               Resting(fs, paths, owned, wiring, fs, journal, from) && LinkRecordsOnly(fs, owned, journal.data.ops)
    modifies journal, journal.disk
    ensures old(journal.disk.trace) <= journal.disk.trace
    ensures ok <==> forall i | 0 <= i < |owned| :: !WiringRaises(old(journal.disk.files), owned[i], wiring)
    ensures journal.Open() && (ok ==> journal.disk.files == AfterWiring(old(journal.disk.files), owned, wiring))
    ensures !ok ==> exists n | 0 <= n < |owned| && WiringRaises(old(journal.disk.files), owned[n], wiring) ::
                      journal.disk.files == AfterWiring(old(journal.disk.files), owned[..n], wiring)
    ensures watch ==>
              Resting(fs, paths, owned, wiring, base, journal, from)
                && EarlyRecords(fs, owned, wiring, journal.data.ops, |owned|)
  {
    ok, base := true, fs;
    ghost var fs1 := journal.disk.files;
    for i := 0 to |owned|
      invariant journal.Open() && old(journal.disk.trace) <= journal.disk.trace
      invariant journal.disk.files == AfterWiring(fs1, owned[..i], wiring)
      invariant ok && forall k | 0 <= k < i :: !WiringRaises(fs1, owned[k], wiring)
      invariant watch ==>
                  Resting(fs, paths, owned, wiring, base, journal, from)
                    && EarlyRecords(fs, owned, wiring, journal.data.ops, i)
    {
      AfterOneMore(fs1, owned, wiring, i);
      RaisesAsAtStart(fs1, paths, owned, wiring, i);
      hide *;
      ok, base := RewireItem(journal, owned, i, wiring, watch, fs, paths, base, from);
      if !ok {
        RaisedItemUnchanged(journal.disk.files, fs1, owned, wiring, i);
        if watch { MoreEarlyRecords(fs, owned, wiring, journal.data.ops, i + 1); }
        return;
      }
    }
    assert owned[..|owned|] == owned;
  }

  lemma RaisesAsAtStart(fs: Files, paths: InstallPaths, owned: seq<Owned>, wiring: Wiring, i: nat)
    requires IsDistinctLayout(paths, owned) && WellNamed(wiring, paths) && i < |owned|
    ensures WiringRaises(AfterWiring(fs, owned[..i], wiring), owned[i], wiring) == WiringRaises(fs, owned[i], wiring)
  {
    HostAsAtStart(fs, paths, owned, wiring, i);
    hide AfterWiring;
  }

  lemma RaisedItemUnchanged(fs': Files, fs1: Files, owned: seq<Owned>, wiring: Wiring, i: nat)
    requires i < |owned| && fs' == Rewired(AfterWiring(fs1, owned[..i], wiring), owned[i], wiring)
    requires WiringRaises(AfterWiring(fs1, owned[..i], wiring), owned[i], wiring)
    ensures fs' == AfterWiring(fs1, owned[..i], wiring)
  {
    hide AfterWiring;
  }

  lemma MoreEarlyRecords(fs: Files, owned: seq<Owned>, wiring: Wiring, ops: seq<Op>, n: nat)
    requires EarlyRecords(fs, owned, wiring, ops, n)
    ensures EarlyRecords(fs, owned, wiring, ops, |owned|)
  {
    hide LinkRecord, PutBackRecord, WiringRecord;
  }

  method SecondLook(fs: Files, owned: seq<Owned>, before: set<Path>, restored: set<Path>) returns (retained: set<Path>)
    ensures retained == before + set i | 0 <= i < |owned| && Overlooked(fs, owned[i], before, restored) :: owned[i].path
  {
    retained := before;
    for i := 0 to |owned|
      invariant retained == before + set k | 0 <= k < i && Overlooked(fs, owned[k], before, restored) :: owned[k].path
    {
      var item := owned[i];
      if item.kind.WiringPath? || item.path in retained || item.path in restored || !IsLink(fs, item.path) {
        continue;
      }
      if !LinkUnchanged(fs, item) {
        retained := retained + {item.path};
      }
    }
  }

  /** The link pass, the host wiring and the second look over the receipt: the
      second look retains nothing that the link pass did not. */
  method RemoveOwned(journal: TransactionJournal, paths: InstallPaths, owned: seq<Owned>, wiring: Wiring)
    returns (ok: bool, retained: set<Path>, ghost base: Files)
    requires journal.Open() && IsDistinctLayout(paths, owned) && WellNamed(wiring, paths) && journal.data.ops == []
    modifies journal, journal.disk
    ensures old(journal.disk.trace) <= journal.disk.trace
    ensures journal.Open()
    ensures ok <==> forall i | 0 <= i < |owned| :: !WiringRaises(old(journal.disk.files), owned[i], wiring)
    ensures ok ==> journal.disk.files == AfterWiring(LinksRestored(old(journal.disk.files), owned), owned, wiring)
    ensures ok ==> retained == LinksRetained(old(journal.disk.files), owned)
    ensures Resting(old(journal.disk.files), paths, owned, wiring, base, journal, |old(journal.disk.trace)|)
    ensures EarlyRecords(old(journal.disk.files), owned, wiring, journal.data.ops, |owned|)
  {
    ghost var fs, from := journal.disk.files, |journal.disk.trace|;
    var restored;
    retained, restored := RestoreSkillLinks(journal, owned, paths, wiring);
    hide Resting, EarlyRecords, LinkRecordsOnly;
    forall i | 0 <= i < |owned|
      ensures WiringRaises(journal.disk.files, owned[i], wiring) == WiringRaises(fs, owned[i], wiring)
    {
      if owned[i].kind.WiringPath? { LinksLeaveHosts(fs, owned, wiring, i); }
    }
    hide WiringRaises, LinksRestored;
    ok, base := RemoveHostWiring(journal, owned, wiring, true, fs, paths, from);
    if !ok {
      return;
    }
    ghost var fs2 := journal.disk.files;
    retained := SecondLook(journal.disk.files, owned, retained, restored);
    forall i | 0 <= i < |owned|
      ensures !Overlooked(fs2, owned[i], LinksRetained(fs, owned), restored)
    {
      SecondLookRetainsNothing(fs, paths, owned, wiring, i);
    }
    assert retained == LinksRetained(fs, owned);
  }

  method RemoveTrees(disk: Disk, trees: set<Path>)
    requires disk.Valid()
    modifies disk
    ensures disk.Valid() && disk.files == WithoutTrees(old(disk.files), trees) && disk.journal == old(disk.journal)
    ensures Grew(old(disk.trace), disk.trace, disk.journal)
  {
    var rest := trees;
    ghost var fs := disk.files;
    assert WithoutTrees(fs, {}) == fs;
    while rest != {}
      invariant rest <= trees && disk.Valid() && disk.journal == old(disk.journal)
      invariant disk.files == WithoutTrees(fs, trees - rest)
      invariant Grew(old(disk.trace), disk.trace, disk.journal)
      decreases rest
    {
      var tree :| tree in rest;
      rest := rest - {tree};
      assert trees - rest == (trees - (rest + {tree})) + {tree};
      disk.Change(WithoutTrees(disk.files, {tree}));
    }
    assert trees - rest == trees;
  }

  /** Remove the two directories the releases lived in, while they are empty. */
  method RemoveEmptied(disk: Disk, paths: InstallPaths)
    requires disk.Valid() && paths.releases != paths.root
    modifies disk
    ensures disk.Valid() && disk.journal == old(disk.journal)
    ensures disk.files == old(disk.files) - Emptied(old(disk.files), paths)
    ensures Grew(old(disk.trace), disk.trace, disk.journal)
  {
    var dirs := [paths.releases, paths.root];
    assert disk.files - {} == disk.files;
    for i := 0 to 2
      invariant disk.Valid() && disk.journal == old(disk.journal)
      invariant disk.files == old(disk.files) -
                              (if i == 0 then {} else if i == 1 then {paths.releases} else {paths.releases, paths.root})
      invariant i > 0 ==> IsEmptyDir(old(disk.files), paths.releases)
      invariant i > 1 ==> IsEmptyDir(old(disk.files) - {paths.releases}, paths.root)
      invariant Grew(old(disk.trace), disk.trace, disk.journal)
    {
      var dir := dirs[i];
      if dir !in disk.files || !disk.files[dir].Dir? || !Empty(disk.files, dir) {
        break;
      }
      disk.Change(disk.files - {dir});
    }
  }

  // ---- The uninstall

  lemma CurrentMayFollow(fs: Files, paths: InstallPaths, owned: seq<Owned>, wiring: Wiring, base: Files, s: State)
    requires Pending(s) && IsLink(fs, paths.current) && Entry(s.files, paths.current) == Entry(fs, paths.current)
    ensures MayFollow(fs, paths, owned, wiring, base, s,
                      Op(Unlink, paths.current, Some(fs[paths.current].text), NoResult, false), None)
  {
    assert CurrentRecord(fs, paths, Op(Unlink, paths.current, Some(fs[paths.current].text), NoResult, false));
  }

  lemma ReceiptMayFollow(fs: Files, paths: InstallPaths, owned: seq<Owned>, wiring: Wiring, base: Files, s: State)
    requires Pending(s) && Entry(s.files, paths.receipt) == Entry(fs, paths.receipt) && PlainReceipt(fs, paths)
    ensures MayFollow(fs, paths, owned, wiring, base, s, Op(Receipt, paths.receipt, None, NoResult, false), None)
  {
    assert ReceiptRecord(paths, Op(Receipt, paths.receipt, None, NoResult, false));
  }

  /** The receipt is a regular file, if it is there. */
  predicate PlainReceipt(fs: Files, paths: InstallPaths) {
    paths.receipt in fs ==> fs[paths.receipt].File?
  }

  /** No record yet on `current` or on the receipt. */
  lemma NoneOnLastTargets(fs: Files, paths: InstallPaths, owned: seq<Owned>, wiring: Wiring, ops: seq<Op>)
    requires IsDistinctLayout(paths, owned) && EarlyRecords(fs, owned, wiring, ops, |owned|)
    ensures forall op | op in ops :: op.target != paths.receipt && op.target != paths.current
    ensures !Beneath(paths.receipt, paths.backups) && !Beneath(paths.current, paths.backups)
  {
    assert forall i | 0 <= i < |owned| :: Moves(paths, owned, owned[i].path);
    assert Beneath(paths.current, paths.backups) ==> Moves(paths, owned, paths.current);
    hide Beneath, WouldRemove;
  }

  /** `current`, if it is ours, and then the receipt, which raises on a directory. */
  method RemoveLast(journal: TransactionJournal, paths: InstallPaths, releaseHash: string, ghost fs: Files,
                    ghost owned: seq<Owned>, ghost wiring: Wiring, ghost base: Files, ghost from: nat)
    returns (ok: bool)
    requires journal.Open() && IsDistinctLayout(paths, owned)
    requires Resting(fs, paths, owned, wiring, base, journal, from)
             && EarlyRecords(fs, owned, wiring, journal.data.ops, |owned|)
    modifies journal, journal.disk
    ensures journal.Open() && (ok <==> !(paths.receipt in fs && fs[paths.receipt].Dir?))
    ensures ok ==>
              var fs2 := old(journal.disk.files);
              journal.disk.files ==
              (if CurrentIsOurs(fs2, paths, releaseHash) then fs2 - {paths.current} else fs2) - {paths.receipt}
    ensures PlainReceipt(fs, paths) ==> Watched(fs, paths, owned, wiring, journal.disk.trace, from)
  {
    NoneOnLastTargets(fs, paths, owned, wiring, journal.data.ops);
    UntouchedEntry(fs, paths, owned, wiring, base, journal.disk.Now(), paths.current);
    UntouchedEntry(fs, paths, owned, wiring, base, journal.disk.Now(), paths.receipt);
    hide MayFollow, EarlyRecords, AtRest, Watched;
    if CurrentIsOurs(journal.disk.files, paths, releaseHash) {
      var record := Op(Unlink, paths.current, Some(journal.disk.files[paths.current].text), NoResult, false);
      CurrentMayFollow(fs, paths, owned, wiring, base, journal.disk.Now());
      Perform(journal, record, None, true, fs, paths, owned, wiring, base, from);
    }
    if paths.receipt in journal.disk.files && journal.disk.files[paths.receipt].Dir? {
      ok := journal.Apply(Op(Receipt, paths.receipt, None, NoResult, false), Raises, None);
      return;
    }
    ok := true;
    ghost var watch := PlainReceipt(fs, paths);
    if watch { ReceiptMayFollow(fs, paths, owned, wiring, base, journal.disk.Now()); }
    Perform(journal, Op(Receipt, paths.receipt, None, NoResult, false), None, watch, fs, paths, owned, wiring, base,
            from);
  }

  lemma CommitWatched(fs: Files, paths: InstallPaths, owned: seq<Owned>, wiring: Wiring, trace: seq<State>,
                      trace': seq<State>, committed: State, from: nat)
    requires Watched(fs, paths, owned, wiring, trace, from) && !Pending(committed)
    requires |trace'| > |trace| && trace'[..|trace|] == trace && trace'[|trace|] == committed
    requires forall k | |trace| < k < |trace'| :: trace'[k].journal.None?
    ensures Watched(fs, paths, owned, wiring, trace', from)
  {
    hide CutInside;
    forall k | from <= k < |trace'| && Pending(trace'[k]) ensures CutInside(fs, paths, owned, wiring, trace'[k]) {
      assert k < |trace| && trace'[k] == trace[k];
    }
  }

  /** Uninstall after recovering a journal left behind.  It retains exactly the paths
      and does what the plan of the recovered files says, so what the plan announced on
      the disk as it was, if and only if that plan reads alike after recovery; and it
      does to the host files what the wiring says.  Every pending durable state on the
      way is inside this uninstall, also of one that raises. */
  method UninstallAll(disk: Disk, paths: InstallPaths, releaseHash: string, owned: seq<Owned>, wiring: Wiring)
    returns (ok: bool, retained: set<Path>)
    requires disk.Valid() && IsDistinctLayout(paths, owned) && WellNamed(wiring, paths)
    requires ChainsClear(Recover(disk.Now()).files, paths, releaseHash, owned)
    modifies disk
    ensures ok <==>
            && Recover(old(disk.Now())).journal.None?
            && Completes(Recover(old(disk.Now())).files, paths, owned, wiring,
                         PlanOf(Recover(old(disk.Now())).files, paths, releaseHash, owned))
    ensures ok <==> disk.journal.None?
    ensures ok ==> Follows(Recover(old(disk.Now())).files, disk.files, paths, owned, wiring,
                           PlanOf(Recover(old(disk.Now())).files, paths, releaseHash, owned), retained)
    ensures PlanOf(old(disk.files), paths, releaseHash, owned)
            == PlanOf(Recover(old(disk.Now())).files, paths, releaseHash, owned)
            <==> ReadAlike(old(disk.files), Recover(old(disk.Now())).files, paths, releaseHash, owned)
    ensures ok && ReadAlike(old(disk.files), Recover(old(disk.Now())).files, paths, releaseHash, owned) ==>
              Follows(Recover(old(disk.Now())).files, disk.files, paths, owned, wiring,
                      PlanOf(old(disk.files), paths, releaseHash, owned), retained)
    ensures ok ==>
              var fs := Recover(old(disk.Now())).files;
              var plan := PlanOf(fs, paths, releaseHash, owned);
              TakesWhatIsAnnounced(fs, disk.files, paths, owned, plan) <==>
              NothingElseGoes(fs, paths, owned, wiring, plan)
    ensures ok && retained == {} && IsDir(Recover(old(disk.Now())).files, paths.releases) ==>
              var fs := Recover(old(disk.Now())).files;
              ReleasesGo(fs, disk.files, paths, if CurrentIsOurs(fs, paths, releaseHash) then None else Keep(fs, paths))
    ensures Recover(old(disk.Now())).journal.None? && PlainReceipt(Recover(old(disk.Now())).files, paths) ==>
              Watched(Recover(old(disk.Now())).files, paths, owned, wiring, disk.trace,
                      |old(disk.trace)| + |RecoverTrace(old(disk.Now()))| - 1)
  {
    PlanAgreesIff(disk.files, Recover(disk.Now()).files, paths, releaseHash, owned);
    ok := RecoverDisk(disk);
    retained := {};
    if !ok {
      return;
    }
    ghost var fs := disk.files;
    ghost var plan := PlanOf(fs, paths, releaseHash, owned);
    ok, retained := UninstallRecovered(disk, paths, releaseHash, owned, wiring);
    if ok {
      WhatGoes(fs, disk.files, paths, releaseHash, owned, wiring, retained);
    }
    hide PlanOf, Follows, ReadAlike, TakesWhatIsAnnounced, NothingElseGoes, ReleasesGo, Watched, Keep, CurrentIsOurs;
  }

  lemma SomeRetained(retain: seq<Path>)
    ensures retain != [] ==> (set p | p in retain) != {}
  {
    var members := set p | p in retain;
    if retain != [] {
      assert retain[0] in members;
    }
  }

  lemma WhatGoes(fs: Files, fs': Files, paths: InstallPaths, releaseHash: string, owned: seq<Owned>, wiring: Wiring,
                 retained: set<Path>)
    requires IsDistinctLayout(paths, owned) && WellNamed(wiring, paths)
    requires Follows(fs, fs', paths, owned, wiring, PlanOf(fs, paths, releaseHash, owned), retained)
    ensures var plan := PlanOf(fs, paths, releaseHash, owned);
            TakesWhatIsAnnounced(fs, fs', paths, owned, plan) <==> NothingElseGoes(fs, paths, owned, wiring, plan)
    ensures retained == {} && IsDir(fs, paths.releases) ==>
              ReleasesGo(fs, fs', paths, if CurrentIsOurs(fs, paths, releaseHash) then None else Keep(fs, paths))
  {
    var plan := PlanOf(fs, paths, releaseHash, owned);
    hide PlanOf, CarriedOut, TakesWhatIsAnnounced, NothingElseGoes, ReleasesGo;
    OnlyAnnouncedIff(fs, fs', paths, releaseHash, owned, wiring, plan);
    if retained == {} && IsDir(fs, paths.releases) {
      SomeRetained(plan.retain);
      AllReleasesGo(fs, fs', paths, releaseHash, owned, wiring, plan);
    }
  }

  /** The uninstall retained and did what the plan for the files `fs` says, and to
      the host files, which no plan names, what the wiring says. */
  ghost predicate Follows(fs: Files, fs': Files, paths: InstallPaths, owned: seq<Owned>, wiring: Wiring, plan: Plan,
                          retained: set<Path>)
  {
    retained == (set p | p in plan.retain) && CarriedOut(fs, fs', paths, owned, wiring, plan)
  }

  method UninstallRecovered(disk: Disk, paths: InstallPaths, releaseHash: string, owned: seq<Owned>, wiring: Wiring)
    returns (ok: bool, retained: set<Path>)
    requires disk.Valid() && disk.journal.None? && IsDistinctLayout(paths, owned) && WellNamed(wiring, paths)
    requires ChainsClear(disk.files, paths, releaseHash, owned)
    modifies disk
    ensures ok <==> Completes(old(disk.files), paths, owned, wiring, PlanOf(old(disk.files), paths, releaseHash, owned))
    ensures ok <==> disk.journal.None?
    ensures ok ==> Follows(old(disk.files), disk.files, paths, owned, wiring,
                           PlanOf(old(disk.files), paths, releaseHash, owned), retained)
    ensures PlainReceipt(old(disk.files), paths) ==>
              Watched(old(disk.files), paths, owned, wiring, disk.trace, |old(disk.trace)|)
  {
    ghost var fs, from := disk.files, |disk.trace|;
    ghost var plan := PlanOf(fs, paths, releaseHash, owned);
    var journal := new TransactionJournal(disk);
    journal.Begin();
    ghost var base;
    ok, retained, base := RemoveOwned(journal, paths, owned, wiring);
    ghost var fs2 := disk.files;
    assert disk.trace[from] == State(fs, Some(Journal([], false)));
    BeginWatched(fs, paths, owned, wiring, disk.trace, from);
    if !ok {
      return;
    }
    EarlyMoves(fs, paths, owned, wiring);
    PlanMembers(fs, paths, releaseHash, owned, plan);
    hide LinksRestored, AfterWiring, LinksRetained, SameUnlessMoved, EarlyRecords, AtRest, Watched, CarriedOut, Emptied;
    if retained != {} {
      ghost var trace := disk.trace;
      journal.Commit();
      CommitWatched(fs, paths, owned, wiring, trace, disk.trace, disk.trace[|trace|], from);
      assert WithoutTrees(fs2, {}) == fs2;
      UninstalledCarriesOut(fs, disk.files, paths, releaseHash, owned, wiring, plan);
      return;
    }
    ok := FinishUninstall(journal, paths, releaseHash, owned, wiring, fs, base, from);
    if !ok {
      return;
    }
    LateDecisionsHold(fs, fs2, paths, releaseHash, owned);
    UninstalledCarriesOut(fs, disk.files, paths, releaseHash, owned, wiring, plan);
  }

  /** With nothing retained: the last two operations, the commit, and what needs no journal. */
  method FinishUninstall(journal: TransactionJournal, paths: InstallPaths, releaseHash: string, owned: seq<Owned>,
                         ghost wiring: Wiring, ghost fs: Files, ghost base: Files, ghost from: nat)
    returns (ok: bool)
    requires journal.Open() && IsDistinctLayout(paths, owned)
    requires Resting(fs, paths, owned, wiring, base, journal, from)
             && EarlyRecords(fs, owned, wiring, journal.data.ops, |owned|)
    modifies journal, journal.disk
    ensures journal.disk.Valid() && (ok <==> !(paths.receipt in fs && fs[paths.receipt].Dir?))
    ensures ok <==> journal.disk.journal.None?
    ensures ok ==>
            var end := BeforeTrees(old(journal.disk.files), paths, releaseHash);
            var left := WithoutTrees(end, RemovableReleases(end, paths, Keep(end, paths)));
            journal.disk.files == left - Emptied(left, paths)
    ensures PlainReceipt(fs, paths) ==> Watched(fs, paths, owned, wiring, journal.disk.trace, from)
  {
    hide AtRest, Watched, EarlyRecords;
    ok := RemoveLast(journal, paths, releaseHash, fs, owned, wiring, base, from);
    if !ok {
      return;
    }
    ghost var trace := journal.disk.trace;
    journal.Commit();
    var disk := journal.disk;
    RemoveTrees(disk, RemovableReleases(disk.files, paths, Keep(disk.files, paths)));
    RemoveEmptied(disk, paths);
    if PlainReceipt(fs, paths) {
      CommitWatched(fs, paths, owned, wiring, trace, disk.trace, disk.trace[|trace|], from);
    }
  }

  /** The files once `current` and the receipt are gone. */
  function BeforeTrees(fs: Files, paths: InstallPaths, releaseHash: string): Files {
    (if CurrentIsOurs(fs, paths, releaseHash) then fs - {paths.current} else fs) - {paths.receipt}
  }

  lemma LateDecisionsHold(fs: Files, fs2: Files, paths: InstallPaths, releaseHash: string, owned: seq<Owned>)
    requires IsDistinctLayout(paths, owned) && ChainsClear(fs, paths, releaseHash, owned)
    requires SameUnlessMoved(fs, fs2, paths, owned)
    ensures var end := BeforeTrees(fs2, paths, releaseHash);
            RemovableReleases(end, paths, Keep(end, paths)) ==
            RemovableReleases(fs, paths, if CurrentIsOurs(fs, paths, releaseHash) then None else Keep(fs, paths))
    ensures CurrentIsOurs(fs2, paths, releaseHash) == CurrentIsOurs(fs, paths, releaseHash)
  {
    DecisionsSame(fs, fs2, paths, releaseHash, owned);
    LateDecisions(fs, fs2, BeforeTrees(fs2, paths, releaseHash), paths, releaseHash, owned);
  }

  /** The state that `begin` leaves is inside the uninstall too. */
  lemma BeginWatched(fs: Files, paths: InstallPaths, owned: seq<Owned>, wiring: Wiring, trace: seq<State>, from: nat)
    requires from < |trace| && trace[from] == State(fs, Some(Journal([], false)))
    requires Watched(fs, paths, owned, wiring, trace, from + 1)
    ensures Watched(fs, paths, owned, wiring, trace, from)
  {
    StartsAtRest(fs, paths, owned, wiring, trace[from]);
    assert Inside(fs, paths, owned, wiring, fs, trace[from]);
    hide Inside;
  }
}
