/** What an uninstall takes away, beside what its plan announces: host files that
    held only our block, and the directories it empties. */
module UninstallHosts {
  import opened Options
  import opened FileSystem
  import opened UninstallSpec
  import opened HostBlocks
  import opened Texts

  // ---- The paths that vanish

  /** A link whose predecessor is put back is announced and stays. */
  predicate IsPutBack(owned: seq<Owned>, plan: Plan, p: Path) {
    p in plan.links && exists i :: 0 <= i < |owned| && owned[i].path == p && owned[i].predecessor.Some?
  }

  /** The path is a host file that the wiring pass removes. */
  predicate HostGoes(fs: Files, owned: seq<Owned>, wiring: Wiring, p: Path) {
    && p in fs && fs[p].File? && wiring.rewire(p, fs[p].bytes).Delete?
    && exists i :: 0 <= i < |owned| && owned[i].path == p && owned[i].kind.WiringPath?
  }

  /** The announced paths, without the links that come back. */
  predicate Goes(owned: seq<Owned>, paths: InstallPaths, plan: Plan, p: Path) {
    Announced(paths, plan, p) && !IsPutBack(owned, plan, p)
  }

  /** An owned path is announced exactly if it is a link to remove, and is neither directory. */
  lemma OwnedAnnounced(fs: Files, paths: InstallPaths, releaseHash: string, owned: seq<Owned>, plan: Plan, i: nat)
    requires IsDistinctLayout(paths, owned) && plan == PlanOf(fs, paths, releaseHash, owned) && i < |owned|
    ensures Announced(paths, plan, owned[i].path) <==> owned[i].path in plan.links
    ensures owned[i].path in plan.links <==> WouldRemove(fs, owned[i])
    ensures owned[i].path != paths.releases && owned[i].path != paths.root
    ensures forall k | 0 <= k < |owned| && owned[k].path == owned[i].path :: k == i
  {
    PlanMembers(fs, paths, releaseHash, owned, plan);
    AnnouncedApart(fs, paths, releaseHash, owned, plan, owned[i].path);
    assert Moves(paths, owned, owned[i].path);
    hide PlanOf, LinksRetained, WouldRemove, Beneath;
  }

  lemma OwnedVanishes(fs: Files, fs': Files, paths: InstallPaths, releaseHash: string, owned: seq<Owned>,
                      wiring: Wiring, plan: Plan, i: nat)
    requires IsDistinctLayout(paths, owned) && WellNamed(wiring, paths) && plan == PlanOf(fs, paths, releaseHash, owned)
    requires CarriedOut(fs, fs', paths, owned, wiring, plan) && i < |owned| && owned[i].path in fs
    ensures owned[i].path !in fs' <==>
            Goes(owned, paths, plan, owned[i].path) || HostGoes(fs, owned, wiring, owned[i].path)
  {
    OwnedAnnounced(fs, paths, releaseHash, owned, plan, i);
    var p := owned[i].path;
    if owned[i].kind.SymlinkPath? {
      LinkIsNoHost(fs, paths, owned, wiring, i);
    }
    hide PlanOf, IsDistinctLayout, WellNamed, EmptiesReleases, EmptiesRoot, Written, Announced;
    if owned[i].kind.WiringPath? {
      assert Entry(fs', p) == HostAfter(wiring, p, Entry(fs, p));
    } else if p in plan.links {
      assert p in fs' <==> owned[i].predecessor.Some?;
    } else {
      assert Entry(fs', p) == Entry(fs, p);
    }
  }

  /** A path that is neither owned nor one of the two directories vanishes only if it is announced. */
  lemma OtherVanishes(fs: Files, fs': Files, paths: InstallPaths, releaseHash: string, owned: seq<Owned>,
                      wiring: Wiring, plan: Plan, p: Path)
    requires IsDistinctLayout(paths, owned) && WellNamed(wiring, paths) && plan == PlanOf(fs, paths, releaseHash, owned)
    requires CarriedOut(fs, fs', paths, owned, wiring, plan) && p in fs && p != paths.releases && p != paths.root
    requires forall i | 0 <= i < |owned| :: owned[i].path != p
    ensures p !in plan.links && (p !in fs' <==> Announced(paths, plan, p))
  {
    PlanMembers(fs, paths, releaseHash, owned, plan);
    AnnouncedApart(fs, paths, releaseHash, owned, plan, p);
    hide PlanOf, LinksRetained, WouldRemove, EmptiesReleases, EmptiesRoot, WithinTree;
    if Written(fs, owned, wiring, p) {
      var i :| 0 <= i < |owned| && Rewires(fs, owned[i], wiring) && BackupFor(fs, owned[i], wiring) == p;
      assert Beneath(p, paths.backups);
      assert Moves(paths, owned, p);
      hide Beneath;
      assert Entry(fs', p) == Some(fs[owned[i].path]);
    } else if !Announced(paths, plan, p) {
      assert Entry(fs', p) == Entry(fs, p);
    }
  }

  /** An uninstall that carries out its plan: of the paths there were, exactly these are gone. */
  lemma VanishedIff(fs: Files, fs': Files, paths: InstallPaths, releaseHash: string, owned: seq<Owned>,
                    wiring: Wiring, plan: Plan, p: Path)
    requires IsDistinctLayout(paths, owned) && WellNamed(wiring, paths) && plan == PlanOf(fs, paths, releaseHash, owned)
    requires CarriedOut(fs, fs', paths, owned, wiring, plan) && p in fs
    ensures p !in fs' <==>
            || Goes(owned, paths, plan, p) || HostGoes(fs, owned, wiring, p)
            || (p == paths.releases && EmptiesReleases(fs, paths, plan))
            || (p == paths.root && EmptiesRoot(fs, fs', paths, plan))
  {
    if i :| 0 <= i < |owned| && owned[i].path == p {
      OwnedVanishes(fs, fs', paths, releaseHash, owned, wiring, plan, i);
      OwnedAnnounced(fs, paths, releaseHash, owned, plan, i);
    } else if p != paths.releases && p != paths.root {
      OtherVanishes(fs, fs', paths, releaseHash, owned, wiring, plan, p);
    } else {
      AnnouncedApart(fs, paths, releaseHash, owned, plan, p);
      assert Beneath(paths.releases, paths.root);
    }
    hide *;
  }

  ghost predicate TakesWhatIsAnnounced(fs: Files, fs': Files, paths: InstallPaths, owned: seq<Owned>, plan: Plan) {
    forall p | p in fs :: p !in fs' <==> Goes(owned, paths, plan, p)
  }

  /** What can be read off before: no host file would go, and the releases directory keeps something or is not there. */
  ghost predicate NothingElseGoes(fs: Files, paths: InstallPaths, owned: seq<Owned>, wiring: Wiring, plan: Plan) {
    (forall p :: !HostGoes(fs, owned, wiring, p)) && !EmptiesReleases(fs, paths, plan)
  }

  /** The uninstall takes away exactly what the plan announced, if and only if no host
      file goes and the releases directory is not emptied. */
  lemma OnlyAnnouncedIff(fs: Files, fs': Files, paths: InstallPaths, releaseHash: string, owned: seq<Owned>,
                         wiring: Wiring, plan: Plan)
    requires IsDistinctLayout(paths, owned) && WellNamed(wiring, paths) && plan == PlanOf(fs, paths, releaseHash, owned)
    requires CarriedOut(fs, fs', paths, owned, wiring, plan)
    ensures TakesWhatIsAnnounced(fs, fs', paths, owned, plan) <==> NothingElseGoes(fs, paths, owned, wiring, plan)
  {
    forall p | p in fs
      ensures p !in fs' <==>
              || Goes(owned, paths, plan, p) || HostGoes(fs, owned, wiring, p)
              || (p == paths.releases && EmptiesReleases(fs, paths, plan))
              || (p == paths.root && EmptiesRoot(fs, fs', paths, plan))
    {
      VanishedIff(fs, fs', paths, releaseHash, owned, wiring, plan, p);
    }
    AnnouncedApart(fs, paths, releaseHash, owned, plan, paths.releases);
    forall p | HostGoes(fs, owned, wiring, p) ensures !Goes(owned, paths, plan, p) {
      HostUnannounced(fs, paths, releaseHash, owned, wiring, plan, p);
    }
    hide CarriedOut, PlanOf, HostGoes, IsDistinctLayout, WellNamed, Announced;
    if p :| HostGoes(fs, owned, wiring, p) {
      assert p in fs by { hide *; HostIsThere(fs, owned, wiring, p); }
    }
  }

  lemma HostIsThere(fs: Files, owned: seq<Owned>, wiring: Wiring, p: Path)
    requires HostGoes(fs, owned, wiring, p)
    ensures p in fs
  {}

  /** No plan names a host file. */
  lemma HostUnannounced(fs: Files, paths: InstallPaths, releaseHash: string, owned: seq<Owned>, wiring: Wiring,
                        plan: Plan, p: Path)
    requires IsDistinctLayout(paths, owned) && plan == PlanOf(fs, paths, releaseHash, owned)
             && HostGoes(fs, owned, wiring, p)
    ensures !Announced(paths, plan, p)
  {
    var i :| 0 <= i < |owned| && owned[i].path == p && owned[i].kind.WiringPath?;
    OwnedAnnounced(fs, paths, releaseHash, owned, plan, i);
  }

  // ---- The releases

  /** Of the directories named like a release, with the releases directory there, all go but the kept one. */
  ghost predicate ReleasesGo(fs: Files, fs': Files, paths: InstallPaths, kept: Option<Path>) {
    forall digest: seq<Nibble> | |digest| == 64 ::
      var dir := ReleaseDir(paths, digest);
      dir in fs && fs[dir].Dir? ==> (dir !in fs' <==> kept != Some(dir))
  }

  /** If nothing is retained, every release goes but the one that a foreign `current` keeps. */
  lemma AllReleasesGo(fs: Files, fs': Files, paths: InstallPaths, releaseHash: string, owned: seq<Owned>,
                      wiring: Wiring, plan: Plan)
    requires IsDistinctLayout(paths, owned) && WellNamed(wiring, paths) && plan == PlanOf(fs, paths, releaseHash, owned)
    requires CarriedOut(fs, fs', paths, owned, wiring, plan) && plan.retain == [] && IsDir(fs, paths.releases)
    ensures ReleasesGo(fs, fs', paths, if CurrentIsOurs(fs, paths, releaseHash) then None else Keep(fs, paths))
  {
    var kept := if CurrentIsOurs(fs, paths, releaseHash) then None else Keep(fs, paths);
    forall digest: seq<Nibble> | |digest| == 64 && ReleaseDir(paths, digest) in fs && fs[ReleaseDir(paths, digest)].Dir?
      ensures ReleaseDir(paths, digest) !in fs' <==> kept != Some(ReleaseDir(paths, digest))
    {
      ReleaseGoes(fs, fs', paths, releaseHash, owned, wiring, plan, digest);
    }
  }

  lemma ReleaseGoes(fs: Files, fs': Files, paths: InstallPaths, releaseHash: string, owned: seq<Owned>,
                    wiring: Wiring, plan: Plan, digest: seq<Nibble>)
    requires IsDistinctLayout(paths, owned) && WellNamed(wiring, paths) && plan == PlanOf(fs, paths, releaseHash, owned)
    requires CarriedOut(fs, fs', paths, owned, wiring, plan) && plan.retain == [] && IsDir(fs, paths.releases)
    requires |digest| == 64 && ReleaseDir(paths, digest) in fs && fs[ReleaseDir(paths, digest)].Dir?
    ensures ReleaseDir(paths, digest) !in fs' <==>
            (if CurrentIsOurs(fs, paths, releaseHash) then None else Keep(fs, paths)) != Some(ReleaseDir(paths, digest))
  {
    var dir := ReleaseDir(paths, digest);
    IsReleaseIff(fs, paths, dir);
    assert Beneath(dir, paths.releases) && |dir| == |paths.releases| + 65;
    assert !Moves(paths, owned, dir) && dir != paths.current && dir != paths.receipt by {
      assert Moves(paths, owned, paths.receipt);
    }
    assert forall e | e in plan.releases && WithinTree(dir, e) :: e == dir by {
      SameLength(paths, plan.releases, dir);
    }
    hide ReleaseDir, CurrentIsOurs, Keep, IsDir, IsRelease, Beneath;
    assert dir in plan.releases <==>
           (if CurrentIsOurs(fs, paths, releaseHash) then None else Keep(fs, paths)) != Some(dir);
    assert forall i | 0 <= i < |owned| :: owned[i].path != dir;
    VanishedIff(fs, fs', paths, releaseHash, owned, wiring, plan, dir);
    PlanMembers(fs, paths, releaseHash, owned, plan);
    assert WithinTree(dir, dir);
  }

  /** No release lies within another. */
  lemma SameLength(paths: InstallPaths, dirs: set<Path>, dir: Path)
    requires |dir| == |paths.releases| + 65 && forall e | e in dirs :: |e| == |dir|
    ensures forall e | e in dirs && WithinTree(dir, e) :: e == dir
  {}

  // ---- Instruction files

  predicate IsBlank(s: string) {
    forall k | 0 <= k < |s| :: IsSpace(s[k])
  }

  /** What the pass does to an instruction file: nothing, if it has no block; remove
      it, if nothing but blanks would be left; else write what is left. */
  function RewireBlock(text: string): Rewiring {
    var stripped := RemoveBlock(text);
    if stripped == text then Leave else if IsBlank(stripped) then Delete else Rewrite(stripped)
  }

  lemma NewlinesAreBlank(s: string)
    requires forall k | 0 <= k < |s| :: s[k] == '\n'
    ensures IsBlank(s)
  {}

  lemma BlankRStrip(s: string)
    ensures IsBlank(RStrip(s)) <==> IsBlank(s)
  {
    hide BEGIN, END, IsBlank, RStrip;
    var n := |RStrip(s)|;
    assert RStrip(s) == s[..n];
    NewlinesAreBlank(s[n..]);
    hide *;
    assert s == s[..n] + s[n..];
    BlankJoin(s[..n], s[n..]);
  }

  lemma BlankLStrip(s: string)
    ensures IsBlank(LStrip(s)) <==> IsBlank(s)
  {
    hide BEGIN, END, IsBlank, LStrip;
    var n := |s| - |LStrip(s)|;
    assert LStrip(s) == s[n..];
    NewlinesAreBlank(s[..n]);
    hide *;
    assert s == s[..n] + s[n..];
    BlankJoin(s[..n], s[n..]);
  }

  lemma BlankParts(head: string, rest: string)
    ensures IsBlank(Joined(RStrip(head), LStrip(rest))) <==> IsBlank(head) && IsBlank(rest)
  {
    hide BEGIN, END, IsBlank, RStrip, LStrip;
    var h, t := RStrip(head), LStrip(rest);
    BlankRStrip(head);
    BlankLStrip(rest);
    var middle, last := if h != "" && t != "" then "\n\n" else "", if h != "" || t != "" then "\n" else "";
    NewlinesAreBlank(middle);
    NewlinesAreBlank(last);
    BlankJoin(h, middle);
    BlankJoin(h + middle, t);
    BlankJoin(h + middle + t, last);
  }

  lemma BlankJoin(a: string, b: string)
    ensures IsBlank(a + b) <==> IsBlank(a) && IsBlank(b)
  {
    hide IsSpace, BEGIN, END;
    assert forall k | 0 <= k < |b| :: (a + b)[|a| + k] == b[k];
    assert forall k | 0 <= k < |a| :: (a + b)[k] == a[k];
  }

  /** Removing a block makes a text shorter. */
  lemma RemovedIsShorter(text: string)
    requires HasBlock(text)
    ensures |RemoveBlock(text)| < |text|
  {
    var start, end := Find(text, BEGIN), Find(text, END);
    assert |END| > 3 by { assert END[3] == '-'; }
    hide BEGIN, END;
    assert end + |END| <= |text| && |TailOf(text)| <= |text| - end - |END|;
    hide TailOf, LStrip, RStrip, Find;
    JoinedLength(RStrip(text[..start]), TailOf(text));
    hide Joined;
  }

  lemma JoinedLength(head: string, tail: string)
    ensures |Joined(head, tail)| <= |head| + |tail| + 3
  {}

  /** Exactly the files that hold a block and otherwise only blanks are removed. */
  lemma BlockFileGoesIff(text: string)
    ensures RewireBlock(text).Delete? <==>
            HasBlock(text) && IsBlank(text[..Find(text, BEGIN)]) && IsBlank(text[Find(text, END) + |END|..])
  {
    hide BEGIN, END, IsBlank;
    if Find(text, BEGIN) != -1 { MarksDiffer(text); }
    if HasBlock(text) {
      RemovedIsShorter(text);
      BlankParts(text[..Find(text, BEGIN)], text[Find(text, END) + |END|..]);
    }
    hide Joined, LStrip, RStrip, Find;
  }

  /** The uninstall leaves an instruction file without its block, byte for byte, or without
      a file where only blanks would be left, or as it was; what it held is in its backup. */
  lemma InstructionFileEnds(fs: Files, fs': Files, paths: InstallPaths, owned: seq<Owned>, wiring: Wiring, plan: Plan,
                            i: nat, text: string)
    requires CarriedOut(fs, fs', paths, owned, wiring, plan) && i < |owned| && owned[i].kind.WiringPath?
    requires Entry(fs, owned[i].path) == Some(File(text))
    requires forall t :: wiring.rewire(owned[i].path, t) == RewireBlock(t)
    ensures RemoveBlock(text) == text ==> Entry(fs', owned[i].path) == Some(File(text))
    ensures RemoveBlock(text) != text && IsBlank(RemoveBlock(text)) ==> owned[i].path !in fs'
    ensures RemoveBlock(text) != text && !IsBlank(RemoveBlock(text)) ==>
              Entry(fs', owned[i].path) == Some(File(RemoveBlock(text)))
    ensures RemoveBlock(text) != text ==> Entry(fs', wiring.backupOf(owned[i].path, text)) == Some(File(text))
  {
    hide RemoveBlock, IsBlank, EmptiesReleases, EmptiesRoot, AnnouncedDone;
    assert HostsDone(fs, fs', owned, wiring);
    assert Entry(fs', owned[i].path) == HostAfter(wiring, owned[i].path, Entry(fs, owned[i].path));
  }

  /** A text that holds just a block is one of them. */
  lemma FirstInstallsText(body: string)
    requires Find(body, END) == -1
    ensures RewireBlock(UpsertBlock("", BlockText(body))).Delete?
  {
    hide BEGIN, END;
    MarksAreLines();
    BlockTextIsBlock(body);
    assert Unmarked("");
    RemoveUndoesUpsert("", BlockText(body));
    assert UpsertBlock("", BlockText(body)) == BlockText(body);
    assert |BlockText(body)| > 0;
    hide BlockText, UpsertBlock, RemoveBlock;
  }

  /** A first install wrote the file to hold its block, and nothing was added since:
      the uninstall removes it, and the plan does not say so. */
  lemma FirstInstallsFileGoes(fs: Files, fs': Files, paths: InstallPaths, releaseHash: string, owned: seq<Owned>,
                              wiring: Wiring, plan: Plan, i: nat, body: string)
    requires IsDistinctLayout(paths, owned) && WellNamed(wiring, paths) && plan == PlanOf(fs, paths, releaseHash, owned)
    requires CarriedOut(fs, fs', paths, owned, wiring, plan)
    requires i < |owned| && owned[i].kind.WiringPath? && Find(body, END) == -1
    requires Entry(fs, owned[i].path) == Some(File(UpsertBlock("", BlockText(body))))
    requires forall text :: wiring.rewire(owned[i].path, text) == RewireBlock(text)
    ensures owned[i].path !in fs' && !Announced(paths, plan, owned[i].path)
  {
    FirstInstallsText(body);
    hide *;
    var p := owned[i].path;
    assert HostGoes(fs, owned, wiring, p) by { HoldsJustBlock(fs, owned, wiring, i, UpsertBlock("", BlockText(body))); }
    HostUnannounced(fs, paths, releaseHash, owned, wiring, plan, p);
    HostIsThere(fs, owned, wiring, p);
    OwnedVanishes(fs, fs', paths, releaseHash, owned, wiring, plan, i);
  }

  lemma HoldsJustBlock(fs: Files, owned: seq<Owned>, wiring: Wiring, i: nat, text: string)
    requires i < |owned| && owned[i].kind.WiringPath? && Entry(fs, owned[i].path) == Some(File(text))
    requires wiring.rewire(owned[i].path, text).Delete?
    ensures HostGoes(fs, owned, wiring, owned[i].path)
  {}
}
