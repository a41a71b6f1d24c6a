/** Uninstalling beside a journal: what a journal left behind does to the plan. */
module UninstallRecovery {
  import opened Options
  import opened FileSystem
  import opened JournalSpec
  import opened JournalClaims
  import opened UninstallSpec

  // ---- The plan beside a journal left behind

  /** Would an uninstall remove the item, were `entry` at its path? */
  predicate RemovesEntry(item: Owned, entry: Option<Node>) {
    item.kind.SymlinkPath? && entry.Some? && entry.value.Link? && item.target == Some(entry.value.text)
  }

  predicate RetainsEntry(item: Owned, entry: Option<Node>) {
    item.kind.SymlinkPath? && entry.Some? && !(entry.value.Link? && item.target == Some(entry.value.text))
  }

  /** The release that a `current` entry names: the receipt's own, or one that is kept for it. */
  function Named(fs: Files, paths: InstallPaths, releaseHash: string, entry: Option<Node>): Option<Path> {
    if entry.Some? && entry.value.Link? &&
       (entry.value.text == paths.releases + "/" + releaseHash || IsRelease(fs, paths, entry.value.text))
    then Some(entry.value.text) else None
  }

  /** `current` is nothing or a link straight to something that is no link. */
  predicate Direct(fs: Files, ops: seq<Op>, entry: Option<Node>) {
    entry.Some? ==>
      entry.value.Link? && !IsLink(fs, entry.value.text) && forall op | op in ops :: op.target != entry.value.text
  }

  /** The journal names nothing at or under the releases, and `current` is direct on disk and after recovery. */
  ghost predicate DirectLayout(fs: Files, ops: seq<Op>, paths: InstallPaths, releaseHash: string) {
    && (forall op | op in ops :: !WithinTree(op.target, paths.releases))
    && paths.releases in fs && fs[paths.releases].Dir? && !IsLink(fs, paths.releases + "/" + releaseHash)
    && Direct(fs, ops, Entry(fs, paths.current))
    && Direct(fs, ops, RecoveredEntry(fs, fs, ops, paths.current))
  }

  /** Judged on one's own reading of the journal: each link by what the first record
      on it claims, and, if none is retained, `current` by the release it names. */
  predicate ReadsAlikeBeside(fs: Files, ops: seq<Op>, paths: InstallPaths, releaseHash: string, owned: seq<Owned>) {
    && (forall i | 0 <= i < |owned| :: EntryJudgedAlike(fs, ops, owned[i]))
    && ((forall i | 0 <= i < |owned| :: !RetainsEntry(owned[i], Entry(fs, owned[i].path))) ==>
          Named(fs, paths, releaseHash, Entry(fs, paths.current)) ==
          Named(fs, paths, releaseHash, RecoveredEntry(fs, fs, ops, paths.current)))
  }

  predicate EntryJudgedAlike(fs: Files, ops: seq<Op>, item: Owned) {
    var entry, entry' := Entry(fs, item.path), RecoveredEntry(fs, fs, ops, item.path);
    RemovesEntry(item, entry) == RemovesEntry(item, entry') && RetainsEntry(item, entry) == RetainsEntry(item, entry')
  }

  /** What the files `f` decide about `current` and the releases is told by the
      release that `current` names, judged by the releases of `fs`. */
  ghost predicate DecidedByName(fs: Files, f: Files, paths: InstallPaths, releaseHash: string) {
    var named, r := Named(fs, paths, releaseHash, Entry(f, paths.current)), paths.releases + "/" + releaseHash;
    && (CurrentIsOurs(f, paths, releaseHash) <==> named == Some(r))
    && (if named.Some? then named != Some(r) ==> Keep(f, paths) == named
        else Keep(f, paths).Some? ==> !IsRelease(fs, paths, Keep(f, paths).value))
    && (forall keep ::
          RemovableReleases(f, paths, keep) == set p | p in fs && IsRelease(fs, paths, p) && keep != Some(p))
  }

  /** A direct `current` is ours if it names the receipt's release, and else keeps the one it names. */
  lemma DirectDecides(fs: Files, f: Files, ops: seq<Op>, paths: InstallPaths, releaseHash: string)
    requires DirectLayout(fs, ops, paths, releaseHash)
    requires forall p | (forall op | op in ops :: op.target != p) :: Entry(f, p) == Entry(fs, p)
    requires Direct(fs, ops, Entry(f, paths.current))
    ensures DecidedByName(fs, f, paths, releaseHash)
  {
    var r := paths.releases + "/" + releaseHash;
    assert Beneath(r, paths.releases);
    assert Entry(f, r) == Entry(fs, r) && Entry(f, paths.releases) == Entry(fs, paths.releases);
    var e := Entry(f, paths.current);
    if e.Some? {
      assert Entry(f, e.value.text) == Entry(fs, e.value.text);
      assert Resolve(f, e.value.text) == Some(e.value.text);
    }
    forall p ensures (p in f && IsRelease(f, paths, p)) <==> (p in fs && IsRelease(fs, paths, p)) {
      if Beneath(p, paths.releases) {
        assert Entry(f, p) == Entry(fs, p);
      }
    }
  }

  lemma NamedDecides(fs: Files, fs': Files, paths: InstallPaths, releaseHash: string)
    requires DecidedByName(fs, fs, paths, releaseHash) && DecidedByName(fs, fs', paths, releaseHash)
    ensures ReleasesAlike(fs, fs', paths, releaseHash) <==>
            Named(fs, paths, releaseHash, Entry(fs, paths.current)) ==
            Named(fs, paths, releaseHash, Entry(fs', paths.current))
  {
    var r := paths.releases + "/" + releaseHash;
    var named := Named(fs, paths, releaseHash, Entry(fs, paths.current));
    var named' := Named(fs, paths, releaseHash, Entry(fs', paths.current));
    hide CurrentIsOurs, Keep, RemovableReleases;
    var all := set p | p in fs && IsRelease(fs, paths, p);
    forall f | f == fs || f == fs'
      ensures CurrentIsOurs(f, paths, releaseHash) ==> RemovableReleases(f, paths, None) == all
      ensures !CurrentIsOurs(f, paths, releaseHash) ==>
                RemovableReleases(f, paths, Keep(f, paths)) ==
                all - (var n := Named(fs, paths, releaseHash, Entry(f, paths.current));
                       if n.Some? then {n.value} else {})
    {
    }
    if named != named' && named != Some(r) && named' != Some(r) {
      if named.Some? { assert named.value in all; }
      if named'.Some? { assert named'.value in all; }
    }
  }

  /** What recovery leaves at each path that no record names is what is there. */
  lemma RecoveredBeside(s: State, p: Path)
    requires Pending(s) && Shaped(s.files, s.files, s.journal.value.ops)
    ensures Entry(Recover(s).files, p) == RecoveredEntry(s.files, s.files, s.journal.value.ops, p)
    ensures (forall op | op in s.journal.value.ops :: op.target != p) ==>
              Entry(Recover(s).files, p) == Entry(s.files, p)
  {
    RecoverGivesClaims(s.files, s);
    var ops := s.journal.value.ops;
    hide Recover, Shaped;
    if forall op | op in ops :: op.target != p {
      forall i | 0 <= i < |ops| ensures ops[i].target != p { assert ops[i] in ops; }
      RecoveredElsewhere(s.files, s.files, ops, p);
    }
  }

  /** With no journal left behind, or a committed one, recovery changes no file and the plan is the uninstall's. */
  lemma SettledDiskAgrees(s: State, paths: InstallPaths, releaseHash: string, owned: seq<Owned>)
    requires !Pending(s)
    ensures PlanOf(s.files, paths, releaseHash, owned) == PlanOf(Recover(s).files, paths, releaseHash, owned)
  {
    assert Recover(s).files == s.files;
  }

  /** Beside a pending journal the plan of the disk is the plan of what recovery
      leaves if and only if the records on the links and on `current` read alike. */
  lemma PlanBesideJournalIff(s: State, paths: InstallPaths, releaseHash: string, owned: seq<Owned>)
    requires Pending(s) && Shaped(s.files, s.files, s.journal.value.ops) && Distinct(owned)
    requires DirectLayout(s.files, s.journal.value.ops, paths, releaseHash)
    ensures PlanOf(s.files, paths, releaseHash, owned) == PlanOf(Recover(s).files, paths, releaseHash, owned) <==>
            ReadsAlikeBeside(s.files, s.journal.value.ops, paths, releaseHash, owned)
  {
    hide PlanOf, Recover, RecoveredEntry, JudgedAlike, EntryJudgedAlike, WouldRetain, RetainsEntry, ReleasesAlike,
         Named, Shaped;
    var fs, ops := s.files, s.journal.value.ops;
    var fs' := Recover(s).files;
    forall p ensures Entry(fs', p) == RecoveredEntry(fs, fs, ops, p)
             ensures (forall op | op in ops :: op.target != p) ==> Entry(fs', p) == Entry(fs, p)
    {
      RecoveredBeside(s, p);
    }
    forall i | 0 <= i < |owned|
      ensures JudgedAlike(fs, fs', owned[i]) <==> EntryJudgedAlike(fs, ops, owned[i])
      ensures WouldRetain(fs, owned[i]) <==> RetainsEntry(owned[i], Entry(fs, owned[i].path))
    {
      JudgedByEntry(fs, fs', ops, owned[i]);
    }
    PlanAgreesIff(fs, fs', paths, releaseHash, owned);
    DirectDecides(fs, fs, ops, paths, releaseHash);
    DirectDecides(fs, fs', ops, paths, releaseHash);
    NamedDecides(fs, fs', paths, releaseHash);
  }

  lemma JudgedByEntry(fs: Files, fs': Files, ops: seq<Op>, item: Owned)
    requires Entry(fs', item.path) == RecoveredEntry(fs, fs, ops, item.path)
    ensures JudgedAlike(fs, fs', item) <==> EntryJudgedAlike(fs, ops, item)
    ensures WouldRetain(fs, item) <==> RetainsEntry(item, Entry(fs, item.path))
  {}

  /** An upgrade that crashed after `current` was moved and before the receipt was
      written: the plan keeps `current` and the new release, the uninstall removes both. */
  lemma CrashedUpgradeDisagrees(s: State, paths: InstallPaths, releaseHash: string, owned: seq<Owned>, i: nat,
                                latest: Path)
    requires Pending(s) && Shaped(s.files, s.files, s.journal.value.ops) && Distinct(owned)
    requires DirectLayout(s.files, s.journal.value.ops, paths, releaseHash)
    requires forall k | 0 <= k < |owned| ::
               EntryJudgedAlike(s.files, s.journal.value.ops, owned[k]) && !WouldRetain(s.files, owned[k])
    requires i < |s.journal.value.ops| && FirstOp(s.journal.value.ops, i)
    requires var op := s.journal.value.ops[i];
             op.kind.Symlink? && op.target == paths.current && op.applied
               && op.predecessor == Some(paths.releases + "/" + releaseHash)
    requires Entry(s.files, paths.current) == Some(Link(latest)) && latest != paths.releases + "/" + releaseHash
    requires IsRelease(s.files, paths, latest)
    ensures var before := PlanOf(s.files, paths, releaseHash, owned);
            var after := PlanOf(Recover(s).files, paths, releaseHash, owned);
            before != after && !before.current && latest !in before.releases && after.current
              && latest in after.releases
  {
    var fs, ops := s.files, s.journal.value.ops;
    var fs' := Recover(s).files;
    var r := paths.releases + "/" + releaseHash;
    forall p ensures Entry(fs', p) == RecoveredEntry(fs, fs, ops, p)
             ensures (forall op | op in ops :: op.target != p) ==> Entry(fs', p) == Entry(fs, p)
    {
      RecoveredBeside(s, p);
    }
    RecoveredFirst(fs, fs, ops, i);
    assert Entry(fs', paths.current) == Some(Link(r));
    DirectDecides(fs, fs, ops, paths, releaseHash);
    DirectDecides(fs, fs', ops, paths, releaseHash);
    forall k | 0 <= k < |owned| ensures !WouldRetain(fs', owned[k]) {
      assert EntryJudgedAlike(fs, ops, owned[k]) && !WouldRetain(fs, owned[k]);
    }
    NothingRetained(fs, owned);
    NothingRetained(fs', owned);
    hide Recover, RecoveredEntry, WouldRetain, CurrentIsOurs, Keep, RemovableReleases, Selected;
    assert Named(fs, paths, releaseHash, Entry(fs, paths.current)) == Some(latest);
    assert Named(fs, paths, releaseHash, Entry(fs', paths.current)) == Some(r);
  }
}
