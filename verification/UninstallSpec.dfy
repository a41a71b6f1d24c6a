/** Uninstalling, and the read-only plan that announces it: what each decides. */
module UninstallSpec {
  import opened Options
  import opened FileSystem

  datatype OwnedKind = SymlinkPath | WiringPath

  /** A path the receipt owns: a link with its recorded target and
      predecessor, or a host file that carries our block or hooks. */
  datatype Owned = Owned(path: Path, kind: OwnedKind, predecessor: Option<string>, target: Option<string>)

  datatype InstallPaths = InstallPaths(current: Path, receipt: Path, releases: Path, root: Path, backups: Path)

  // ---- What is ours

  predicate LinkUnchanged(fs: Files, item: Owned)
    requires IsLink(fs, item.path)
  {
    item.target == Some(fs[item.path].text)
  }

  predicate WouldRetain(fs: Files, item: Owned) {
    && item.kind.SymlinkPath?
    && if IsLink(fs, item.path) then !LinkUnchanged(fs, item) else item.path in fs
  }

  predicate WouldRemove(fs: Files, item: Owned) {
    item.kind.SymlinkPath? && IsLink(fs, item.path) && LinkUnchanged(fs, item)
  }

  predicate CurrentIsOurs(fs: Files, paths: InstallPaths, releaseHash: string) {
    && IsLink(fs, paths.current)
    && Resolve(fs, fs[paths.current].text).Some?
    && Resolve(fs, fs[paths.current].text) == Resolve(fs, paths.releases + "/" + releaseHash)
  }

  predicate IsHex(c: char) {
    '0' <= c <= '9' || 'a' <= c <= 'f'
  }

  /** A content-addressed release: a real directory with a 64-digit hexadecimal name. */
  predicate IsRelease(fs: Files, paths: InstallPaths, p: Path) {
    && Beneath(p, paths.releases)
    && |p| == |paths.releases| + 65
    && (forall i | |paths.releases| < i < |p| :: IsHex(p[i]))
    && p in fs && fs[p].Dir?
  }

  function RemovableReleases(fs: Files, paths: InstallPaths, keep: Option<Path>): set<Path> {
    if !IsDir(fs, paths.releases) then {}
    else set p | p in fs && IsRelease(fs, paths, p) && keep != Some(p)
  }

  type Nibble = n: nat | n < 16

  /** A digest as the installer names a release after it. */
  function Hexadecimal(nibbles: seq<Nibble>): (s: string)
    ensures |s| == |nibbles|
  {
    seq(|nibbles|, i requires 0 <= i < |nibbles| => "0123456789abcdef"[nibbles[i]])
  }

  function ReleaseDir(paths: InstallPaths, digest: seq<Nibble>): Path {
    paths.releases + "/" + Hexadecimal(digest)
  }

  lemma HexDigit(c: char) returns (n: Nibble)
    requires IsHex(c)
    ensures "0123456789abcdef"[n] == c
  {
    n := if c <= '9' then c as int - '0' as int else c as int - 'a' as int + 10;
  }

  lemma NibbleIsHex(n: Nibble)
    ensures IsHex("0123456789abcdef"[n])
  {}

  lemma {:induction false} DigestOf(s: string) returns (digest: seq<Nibble>)
    requires forall i | 0 <= i < |s| :: IsHex(s[i])
    ensures Hexadecimal(digest) == s
    decreases |s|
  {
    if s == "" {
      digest := [];
    } else {
      var n := |s| - 1;
      var front := DigestOf(s[..n]);
      var last := HexDigit(s[n]);
      digest := front + [last];
      assert Hexadecimal(digest)[..n] == s[..n];
    }
  }

  /** The releases are exactly the real directories directly under `releases` that
      are named by 64 nibbles in lower-case hexadecimal. */
  lemma IsReleaseIff(fs: Files, paths: InstallPaths, p: Path)
    ensures IsRelease(fs, paths, p) <==>
            exists digest: seq<Nibble> :: |digest| == 64 && p == ReleaseDir(paths, digest) && p in fs && fs[p].Dir?
  {
    var n := |paths.releases| + 1;
    if IsRelease(fs, paths, p) {
      hide IsHex;
      assert p == p[..n] + p[n..] && p[..n] == paths.releases + "/";
      var digest := DigestOf(p[n..]);
      assert p == ReleaseDir(paths, digest);
    }
    forall digest: seq<Nibble> | |digest| == 64 && p == ReleaseDir(paths, digest) && p in fs && fs[p].Dir?
      ensures IsRelease(fs, paths, p)
    {
      forall i | |paths.releases| < i < |p| ensures IsHex(p[i]) {
        assert p[i] == Hexadecimal(digest)[i - n];
        NibbleIsHex(digest[i - n]);
      }
      hide IsHex, Hexadecimal;
    }
  }

  /** The release `current` still resolves to. */
  function Keep(fs: Files, paths: InstallPaths): Option<Path> {
    if Exists(fs, paths.current) then Resolve(fs, paths.current) else None
  }

  // ---- The plan

  /** `links` and `retain` in receipt order; the rest is announced only when nothing is retained. */
  datatype Plan = Plan(links: seq<Path>, retain: seq<Path>, current: bool, receipt: bool, releases: set<Path>)

  function Selected(items: seq<Owned>, pick: Owned -> bool): seq<Path> {
    if items == [] then []
    else Selected(items[..|items| - 1], pick) + (if pick(items[|items| - 1]) then [items[|items| - 1].path] else [])
  }

  /** What the read-only mirror announces for the files `fs`. */
  function PlanOf(fs: Files, paths: InstallPaths, releaseHash: string, owned: seq<Owned>): Plan {
    var links, retain := Selected(owned, item => WouldRemove(fs, item)), Selected(owned, item => WouldRetain(fs, item));
    if retain != [] then Plan(links, retain, false, false, {})
    else
      var current := CurrentIsOurs(fs, paths, releaseHash);
      Plan(links, retain, current, true, RemovableReleases(fs, paths, if current then None else Keep(fs, paths)))
  }

  // ---- Removing the links

  /** The files after the link pass over `items`, whatever the receipt holds. */
  function LinksRestored(fs: Files, items: seq<Owned>): Files {
    if items == [] then fs
    else
      var fs', item := LinksRestored(fs, items[..|items| - 1]), items[|items| - 1];
      if WouldRemove(fs', item)
      then Put(fs', item.path, if item.predecessor.Some? then Some(Link(item.predecessor.value)) else None) else fs'
  }

  function LinksRetained(fs: Files, items: seq<Owned>): set<Path> {
    if items == [] then {}
    else
      var n := |items| - 1;
      LinksRetained(fs, items[..n]) +
      (if WouldRetain(LinksRestored(fs, items[..n]), items[n]) then {items[n].path} else {})
  }

  /** The links the pass put back from a recorded predecessor. */
  function LinksReinstated(fs: Files, items: seq<Owned>): set<Path> {
    if items == [] then {}
    else
      var n := |items| - 1;
      LinksReinstated(fs, items[..n]) +
      (if WouldRemove(LinksRestored(fs, items[..n]), items[n]) && items[n].predecessor.Some?
       then {items[n].path} else {})
  }

  predicate Distinct(items: seq<Owned>) {
    forall i, j | 0 <= i < j < |items| :: items[i].path != items[j].path
  }

  /** An entry that no removable item names is as it was. */
  lemma {:induction false} LinksElsewhere(fs: Files, items: seq<Owned>, p: Path)
    requires Distinct(items)
    requires forall i | 0 <= i < |items| && items[i].path == p :: !WouldRemove(fs, items[i])
    ensures Entry(LinksRestored(fs, items), p) == Entry(fs, p)
    decreases |items|
  {
    if items != [] {
      var n := |items| - 1;
      assert forall i | 0 <= i < n :: items[..n][i] == items[i];
      LinksElsewhere(fs, items[..n], p);
      if items[n].path == p {
        var fs' := LinksRestored(fs, items[..n]);
        assert WouldRemove(fs', items[n]) == WouldRemove(fs, items[n]);
      }
    }
  }

  /** An item is judged against the files at the start. */
  lemma JudgedAtStart(fs: Files, items: seq<Owned>, n: nat)
    requires Distinct(items) && n < |items|
    ensures var fs' := LinksRestored(fs, items[..n]);
            && Entry(fs', items[n].path) == Entry(fs, items[n].path)
            && WouldRetain(fs', items[n]) == WouldRetain(fs, items[n])
            && WouldRemove(fs', items[n]) == WouldRemove(fs, items[n])
  {
    assert forall i | 0 <= i < n :: items[..n][i] == items[i];
    LinksElsewhere(fs, items[..n], items[n].path);
    hide LinksRestored;
  }

  /** With distinct owned paths the retained and the put-back links are those that
      the files at the start say. */
  lemma {:induction false} LinkPass(fs: Files, items: seq<Owned>)
    requires Distinct(items)
    ensures LinksRetained(fs, items) == set i | 0 <= i < |items| && WouldRetain(fs, items[i]) :: items[i].path
    ensures LinksReinstated(fs, items)
         == set i | 0 <= i < |items| && WouldRemove(fs, items[i]) && items[i].predecessor.Some? :: items[i].path
    decreases |items|
  {
    if items != [] {
      var n := |items| - 1;
      assert forall i | 0 <= i < n :: items[..n][i] == items[i];
      LinkPass(fs, items[..n]);
      JudgedAtStart(fs, items, n);
      hide WouldRetain, WouldRemove, LinksRestored;
    }
  }

  /** Only the unchanged links move, each to its recorded predecessor. */
  lemma LinksMoved(fs: Files, items: seq<Owned>)
    requires Distinct(items)
    ensures forall i | 0 <= i < |items| && WouldRemove(fs, items[i]) ::
              Entry(LinksRestored(fs, items), items[i].path)
              == if items[i].predecessor.Some? then Some(Link(items[i].predecessor.value)) else None
    ensures forall p | (forall i | 0 <= i < |items| :: items[i].path == p ==> !WouldRemove(fs, items[i])) ::
              Entry(LinksRestored(fs, items), p) == Entry(fs, p)
  {
    forall i | 0 <= i < |items| && WouldRemove(fs, items[i])
      ensures Entry(LinksRestored(fs, items), items[i].path)
           == if items[i].predecessor.Some? then Some(Link(items[i].predecessor.value)) else None
    {
      LinkMoves(fs, items, i);
    }
    hide WouldRemove;
    forall p | forall i | 0 <= i < |items| :: items[i].path == p ==> !WouldRemove(fs, items[i])
      ensures Entry(LinksRestored(fs, items), p) == Entry(fs, p)
    {
      LinksElsewhere(fs, items, p);
    }
  }

  lemma {:induction false} LinkMoves(fs: Files, items: seq<Owned>, i: nat)
    requires Distinct(items) && i < |items| && WouldRemove(fs, items[i])
    ensures Entry(LinksRestored(fs, items), items[i].path)
         == if items[i].predecessor.Some? then Some(Link(items[i].predecessor.value)) else None
    decreases |items|
  {
    var n := |items| - 1;
    assert forall k | 0 <= k < n :: items[..n][k] == items[k];
    if i == n {
      JudgedAtStart(fs, items, n);
      hide WouldRemove;
    } else {
      LinkMoves(fs, items[..n], i);
      assert items[n].path != items[i].path;
      hide WouldRemove;
    }
  }

  // ---- The host wiring

  /** What there is to do to a host file; a file that cannot be read as what it should be raises. */
  datatype Rewiring = Leave | Delete | Rewrite(bytes: string) | Raise

  /** How the host-wiring pass rewrites a host file, and where it keeps the backup of a file's bytes. */
  datatype Wiring = Wiring(rewire: (Path, string) -> Rewiring, backupOf: (Path, string) -> Path)

  /** Backups lie in their directory, under names that tell the files apart. */
  ghost predicate WellNamed(wiring: Wiring, paths: InstallPaths) {
    && (forall p, bytes :: Beneath(wiring.backupOf(p, bytes), paths.backups))
    && (forall p, bytes, q, bytes' :: p != q ==> wiring.backupOf(p, bytes) != wiring.backupOf(q, bytes'))
  }

  predicate Changes(r: Rewiring) {
    r.Delete? || r.Rewrite?
  }

  function PostFile(r: Rewiring): Option<Node> {
    if r.Rewrite? then Some(File(r.bytes)) else None
  }

  /** The item is a host file that the pass cannot read. */
  predicate WiringRaises(fs: Files, item: Owned, wiring: Wiring) {
    && item.kind.WiringPath? && item.path in fs && fs[item.path].File?
    && wiring.rewire(item.path, fs[item.path].bytes).Raise?
  }

  /** The item is a host file there is something to take out of. */
  predicate Rewires(fs: Files, item: Owned, wiring: Wiring) {
    && item.kind.WiringPath? && item.path in fs && fs[item.path].File?
    && Changes(wiring.rewire(item.path, fs[item.path].bytes))
  }

  function BackupFor(fs: Files, item: Owned, wiring: Wiring): Path
    requires Rewires(fs, item, wiring)
  {
    wiring.backupOf(item.path, fs[item.path].bytes)
  }

  /** One host file: its backup, then its new bytes or its removal. */
  function Rewired(fs: Files, item: Owned, wiring: Wiring): Files {
    if !Rewires(fs, item, wiring) then fs
    else
      var bytes := fs[item.path].bytes;
      Put(fs[wiring.backupOf(item.path, bytes) := File(bytes)], item.path,
          PostFile(wiring.rewire(item.path, bytes)))
  }

  /** The files after the host-wiring pass over `items`. */
  function AfterWiring(fs: Files, items: seq<Owned>, wiring: Wiring): Files {
    if items == [] then fs
    else Rewired(AfterWiring(fs, items[..|items| - 1], wiring), items[|items| - 1], wiring)
  }

  lemma AfterOneMore(fs: Files, items: seq<Owned>, wiring: Wiring, n: nat)
    requires n < |items|
    ensures AfterWiring(fs, items[..n + 1], wiring) == Rewired(AfterWiring(fs, items[..n], wiring), items[n], wiring)
  {
    assert items[..n + 1][..n] == items[..n];
  }

  /** The pass changes nothing but the host files it has something to take out of, and their backups. */
  lemma {:induction false} WiringElsewhere(fs: Files, paths: InstallPaths, items: seq<Owned>, wiring: Wiring, n: nat,
                                           p: Path)
    requires Distinct(items) && WellNamed(wiring, paths) && n <= |items|
    requires forall k | 0 <= k < |items| :: !Beneath(items[k].path, paths.backups)
    requires forall i | 0 <= i < n && Rewires(fs, items[i], wiring) ::
               items[i].path != p && BackupFor(fs, items[i], wiring) != p
    ensures Entry(AfterWiring(fs, items[..n], wiring), p) == Entry(fs, p)
    decreases n, 0
  {
    if n > 0 {
      AfterOneMore(fs, items, wiring, n - 1);
      WiringElsewhere(fs, paths, items, wiring, n - 1, p);
      HostAsAtStart(fs, paths, items, wiring, n - 1);
      hide AfterWiring, Beneath, Distinct, WellNamed;
    }
  }

  /** An item is rewired by what the pass found there. */
  lemma HostAsAtStart(fs: Files, paths: InstallPaths, items: seq<Owned>, wiring: Wiring, n: nat)
    requires Distinct(items) && WellNamed(wiring, paths) && n < |items|
    requires forall k | 0 <= k < |items| :: !Beneath(items[k].path, paths.backups)
    ensures Entry(AfterWiring(fs, items[..n], wiring), items[n].path) == Entry(fs, items[n].path)
    decreases n, 1
  {
    forall i | 0 <= i < n && Rewires(fs, items[i], wiring)
      ensures items[i].path != items[n].path && BackupFor(fs, items[i], wiring) != items[n].path
    {
      assert Beneath(BackupFor(fs, items[i], wiring), paths.backups);
    }
    WiringElsewhere(fs, paths, items, wiring, n, items[n].path);
  }

  /** What the pass makes of an entry. */
  function HostAfter(wiring: Wiring, p: Path, entry: Option<Node>): Option<Node> {
    if entry.Some? && entry.value.File? && Changes(wiring.rewire(p, entry.value.bytes))
    then PostFile(wiring.rewire(p, entry.value.bytes)) else entry
  }

  /** One host file of the pass, path by path. */
  lemma RewiredAt(fs: Files, paths: InstallPaths, item: Owned, wiring: Wiring, p: Path)
    requires WellNamed(wiring, paths) && !Beneath(item.path, paths.backups)
    ensures Entry(Rewired(fs, item, wiring), p) ==
            if item.kind.WiringPath? && p == item.path then HostAfter(wiring, p, Entry(fs, p))
            else if Rewires(fs, item, wiring) && p == BackupFor(fs, item, wiring) then Some(fs[item.path])
            else Entry(fs, p)
  {
    hide Beneath;
  }

  /** A host file ends as its own bytes decide, and its backup holds them. */
  lemma {:induction false} HostEnds(fs: Files, paths: InstallPaths, items: seq<Owned>, wiring: Wiring, i: nat, n: nat)
    requires Distinct(items) && WellNamed(wiring, paths) && i < n <= |items|
    requires forall k | 0 <= k < |items| :: !Beneath(items[k].path, paths.backups)
    requires items[i].kind.WiringPath?
    ensures Entry(AfterWiring(fs, items[..n], wiring), items[i].path)
         == HostAfter(wiring, items[i].path, Entry(fs, items[i].path))
    ensures Rewires(fs, items[i], wiring) ==>
              Entry(AfterWiring(fs, items[..n], wiring), BackupFor(fs, items[i], wiring)) == Some(fs[items[i].path])
    decreases n
  {
    AfterOneMore(fs, items, wiring, n - 1);
    HostAsAtStart(fs, paths, items, wiring, n - 1);
    if i < n - 1 {
      HostEnds(fs, paths, items, wiring, i, n - 1);
      assert items[i].path != items[n - 1].path;
    }
    var fs' := AfterWiring(fs, items[..n - 1], wiring);
    assert items[i] == items[n - 1] || items[i].path != items[n - 1].path;
    OneMoreHost(fs, fs', AfterWiring(fs, items[..n], wiring), paths, items[i], items[n - 1], wiring);
  }

  /** A step of the pass: at its own item, or past another. */
  lemma OneMoreHost(fs: Files, fs': Files, fs'': Files, paths: InstallPaths, item: Owned, last: Owned, wiring: Wiring)
    requires WellNamed(wiring, paths) && !Beneath(item.path, paths.backups) && !Beneath(last.path, paths.backups)
    requires fs'' == Rewired(fs', last, wiring) && Entry(fs', last.path) == Entry(fs, last.path)
    requires item.kind.WiringPath?
    requires item == last ||
             (item.path != last.path && Entry(fs', item.path) == HostAfter(wiring, item.path, Entry(fs, item.path)) &&
              (Rewires(fs, item, wiring) ==> Entry(fs', BackupFor(fs, item, wiring)) == Some(fs[item.path])))
    ensures Entry(fs'', item.path) == HostAfter(wiring, item.path, Entry(fs, item.path))
    ensures Rewires(fs, item, wiring) ==> Entry(fs'', BackupFor(fs, item, wiring)) == Some(fs[item.path])
  {
    RewiredAt(fs', paths, last, wiring, item.path);
    if Rewires(fs, item, wiring) {
      RewiredAt(fs', paths, last, wiring, BackupFor(fs, item, wiring));
    }
    hide Rewired, Beneath;
  }

  /** Every host file can be read, and the receipt, if it comes to that, can be unlinked. */
  predicate Completes(fs: Files, paths: InstallPaths, owned: seq<Owned>, wiring: Wiring, plan: Plan) {
    && (forall i | 0 <= i < |owned| :: !WiringRaises(fs, owned[i], wiring))
    && (plan.receipt && paths.receipt in fs ==> !fs[paths.receipt].Dir?)
  }

  /** The link pass leaves the host files as they are. */
  lemma LinksLeaveHosts(fs: Files, owned: seq<Owned>, wiring: Wiring, i: nat)
    requires Distinct(owned) && i < |owned| && owned[i].kind.WiringPath?
    ensures Entry(LinksRestored(fs, owned), owned[i].path) == Entry(fs, owned[i].path)
    ensures WiringRaises(LinksRestored(fs, owned), owned[i], wiring) == WiringRaises(fs, owned[i], wiring)
  {
    LinksElsewhere(fs, owned, owned[i].path);
    hide LinksRestored;
  }

  /** The path is a host file that the pass rewrites, or the backup of one. */
  ghost predicate Written(fs: Files, owned: seq<Owned>, wiring: Wiring, p: Path) {
    exists i :: 0 <= i < |owned| && Rewires(fs, owned[i], wiring)
      && (owned[i].path == p || BackupFor(fs, owned[i], wiring) == p)
  }

  /** Each host file ends as the wiring says of its own bytes: as it was, with new
      bytes, or gone; and the bytes of one that changed are in its backup. */
  ghost predicate HostsDone(fs: Files, fs': Files, owned: seq<Owned>, wiring: Wiring) {
    forall i | 0 <= i < |owned| && owned[i].kind.WiringPath? ::
      && Entry(fs', owned[i].path) == HostAfter(wiring, owned[i].path, Entry(fs, owned[i].path))
      && (Rewires(fs, owned[i], wiring) ==> Entry(fs', BackupFor(fs, owned[i], wiring)) == Some(fs[owned[i].path]))
  }

  /** After the links were moved, the pass finds and leaves the host files that the start decides. */
  lemma WiringAfterLinks(fs: Files, paths: InstallPaths, owned: seq<Owned>, wiring: Wiring)
    requires Distinct(owned) && WellNamed(wiring, paths)
    requires forall k | 0 <= k < |owned| :: !Beneath(owned[k].path, paths.backups)
    ensures HostsDone(fs, AfterWiring(LinksRestored(fs, owned), owned, wiring), owned, wiring)
    ensures forall p | !Written(fs, owned, wiring, p) ::
              Entry(AfterWiring(LinksRestored(fs, owned), owned, wiring), p) == Entry(LinksRestored(fs, owned), p)
  {
    var fs1 := LinksRestored(fs, owned);
    assert owned[..|owned|] == owned;
    forall i | 0 <= i < |owned| && owned[i].kind.WiringPath?
      ensures Entry(fs1, owned[i].path) == Entry(fs, owned[i].path)
      ensures Rewires(fs1, owned[i], wiring) == Rewires(fs, owned[i], wiring)
    {
      LinksElsewhere(fs, owned, owned[i].path);
      hide LinksRestored;
    }
    hide LinksRestored, AfterWiring, Beneath, Distinct;
    forall i | 0 <= i < |owned| && owned[i].kind.WiringPath?
      ensures HostsDone(fs1, AfterWiring(fs1, owned, wiring), [owned[i]], wiring)
    {
      HostEnds(fs1, paths, owned, wiring, i, |owned|);
    }
    forall p | !Written(fs, owned, wiring, p) ensures Entry(AfterWiring(fs1, owned, wiring), p) == Entry(fs1, p) {
      WiringElsewhere(fs1, paths, owned, wiring, |owned|, p);
    }
    forall i | 0 <= i < |owned| && owned[i].kind.WiringPath?
      ensures HostsDone(fs, AfterWiring(fs1, owned, wiring), [owned[i]], wiring)
    {
      assert HostsDone(fs1, AfterWiring(fs1, owned, wiring), [owned[i]], wiring);
      assert [owned[i]][0] == owned[i];
    }
    forall i | 0 <= i < |owned| && owned[i].kind.WiringPath?
      ensures Entry(AfterWiring(fs1, owned, wiring), owned[i].path)
              == HostAfter(wiring, owned[i].path, Entry(fs, owned[i].path))
      ensures Rewires(fs, owned[i], wiring) ==>
                Entry(AfterWiring(fs1, owned, wiring), BackupFor(fs, owned[i], wiring)) == Some(fs[owned[i].path])
    {
      assert [owned[i]][0] == owned[i];
    }
  }

  // ---- The rest of the uninstall

  predicate WithinTree(p: Path, dir: Path) {
    p == dir || Beneath(p, dir)
  }

  function WithoutTrees(fs: Files, trees: set<Path>): Files {
    map p | p in fs && (forall e | e in trees :: !WithinTree(p, e)) :: fs[p]
  }

  ghost predicate InWiring(paths: InstallPaths, owned: seq<Owned>, p: Path) {
    Beneath(p, paths.backups) || exists i :: 0 <= i < |owned| && owned[i].kind.WiringPath? && owned[i].path == p
  }

  /** The paths that move before `current` is looked at. */
  ghost predicate Moves(paths: InstallPaths, owned: seq<Owned>, p: Path) {
    p == paths.receipt || InWiring(paths, owned, p) || exists i :: 0 <= i < |owned| && owned[i].path == p
  }

  /** The chain of links from `p` meets no path that moves. */
  ghost predicate Clear(fs: Files, paths: InstallPaths, owned: seq<Owned>, p: Path, hops: nat := MAX_HOPS)
    decreases hops
  {
    && !Moves(paths, owned, p)
    && (IsLink(fs, p) && hops > 0 ==> Clear(fs, paths, owned, fs[p].text, hops - 1))
  }

  ghost predicate IsDistinctLayout(paths: InstallPaths, owned: seq<Owned>) {
    && Distinct(owned)
    && paths.receipt != paths.current && !WithinTree(paths.current, paths.releases)
    && Beneath(paths.releases, paths.root) && paths.current != paths.root
    && (forall p | Moves(paths, owned, p) :: p != paths.current && p != paths.root && !WithinTree(p, paths.releases))
    && (forall i | 0 <= i < |owned| :: owned[i].path != paths.receipt && !Beneath(owned[i].path, paths.backups))
    && !Beneath(paths.receipt, paths.backups)
  }

  /** Resolving `current` and the receipt's release never goes through a
      path that moves, and the releases directory is not itself a link. */
  ghost predicate ChainsClear(fs: Files, paths: InstallPaths, releaseHash: string, owned: seq<Owned>) {
    && Clear(fs, paths, owned, paths.current)
    && (IsLink(fs, paths.current) ==> Clear(fs, paths, owned, fs[paths.current].text))
    && Clear(fs, paths, owned, paths.releases + "/" + releaseHash)
    && !IsLink(fs, paths.releases)
  }

  ghost predicate SameUnlessMoved(fs: Files, fs': Files, paths: InstallPaths, owned: seq<Owned>) {
    forall p | !Moves(paths, owned, p) :: Entry(fs', p) == Entry(fs, p)
  }

  lemma {:induction false} ResolveSame(fs: Files, fs': Files, paths: InstallPaths, owned: seq<Owned>, p: Path,
                                       hops: nat)
    requires Clear(fs, paths, owned, p, hops) && SameUnlessMoved(fs, fs', paths, owned)
    ensures Resolve(fs', p, hops) == Resolve(fs, p, hops)
    ensures Resolve(fs, p, hops).Some? ==> !Moves(paths, owned, Resolve(fs, p, hops).value)
    decreases hops
  {
    assert Entry(fs', p) == Entry(fs, p);
    if IsLink(fs, p) && hops > 0 {
      ResolveSame(fs, fs', paths, owned, fs[p].text, hops - 1);
    }
  }

  /** What moves early does not change what is decided later. */
  lemma DecisionsSame(fs: Files, fs': Files, paths: InstallPaths, releaseHash: string, owned: seq<Owned>)
    requires IsDistinctLayout(paths, owned) && ChainsClear(fs, paths, releaseHash, owned)
    requires SameUnlessMoved(fs, fs', paths, owned)
    ensures CurrentIsOurs(fs', paths, releaseHash) == CurrentIsOurs(fs, paths, releaseHash)
    ensures Keep(fs', paths) == Keep(fs, paths)
    ensures forall keep :: RemovableReleases(fs', paths, keep) == RemovableReleases(fs, paths, keep)
  {
    ResolveSame(fs, fs', paths, owned, paths.current, MAX_HOPS);
    ResolveSame(fs, fs', paths, owned, paths.releases + "/" + releaseHash, MAX_HOPS);
    assert Entry(fs', paths.releases) == Entry(fs, paths.releases);
    assert Entry(fs', paths.current) == Entry(fs, paths.current);
    if IsLink(fs, paths.current) {
      ResolveSame(fs, fs', paths, owned, fs[paths.current].text, MAX_HOPS);
    }
    var q := Resolve(fs, paths.current);
    assert q.Some? ==> Entry(fs', q.value) == Entry(fs, q.value);
    forall p
      ensures (p in fs' && IsRelease(fs', paths, p)) <==> (p in fs && IsRelease(fs, paths, p))
    {
      if Beneath(p, paths.releases) {
        assert !Moves(paths, owned, p);
        assert Entry(fs', p) == Entry(fs, p);
      }
    }
  }

  /** The plan announces the removal of this path. */
  predicate Announced(paths: InstallPaths, plan: Plan, p: Path) {
    || p in plan.links || (plan.current && p == paths.current) || (plan.receipt && p == paths.receipt)
    || exists e :: e in plan.releases && WithinTree(p, e)
  }

  /** With the announced removals nothing is left under the releases directory. */
  predicate EmptiesReleases(fs: Files, paths: InstallPaths, plan: Plan) {
    && plan.receipt && paths.releases in fs && fs[paths.releases].Dir?
    && forall p | p in fs && Beneath(p, paths.releases) :: exists e :: e in plan.releases && WithinTree(p, e)
  }

  /** Nor under the directory it lies in. */
  predicate EmptiesRoot(fs: Files, fs': Files, paths: InstallPaths, plan: Plan) {
    EmptiesReleases(fs, paths, plan) && paths.root in fs && fs[paths.root].Dir? && Empty(fs', paths.root)
  }

  /** What was announced happened: links are gone or their predecessors back, and the rest is gone. */
  ghost predicate AnnouncedDone(fs': Files, paths: InstallPaths, owned: seq<Owned>, plan: Plan) {
    && (forall i | 0 <= i < |owned| && owned[i].path in plan.links ::
          Entry(fs', owned[i].path)
          == if owned[i].predecessor.Some? then Some(Link(owned[i].predecessor.value)) else None)
    && forall p | p in fs' && p !in plan.links :: !Announced(paths, plan, p)
  }

  /** The uninstall did to the files `fs` what the plan for `fs` announces and to the
      host files what the wiring says, removed the two directories if that emptied
      them, and left every other path as it was. */
  ghost predicate CarriedOut(fs: Files, fs': Files, paths: InstallPaths, owned: seq<Owned>, wiring: Wiring, plan: Plan)
  {
    && AnnouncedDone(fs', paths, owned, plan) && HostsDone(fs, fs', owned, wiring)
    && Entry(fs', paths.releases) == (if EmptiesReleases(fs, paths, plan) then None else Entry(fs, paths.releases))
    && Entry(fs', paths.root) == (if EmptiesRoot(fs, fs', paths, plan) then None else Entry(fs, paths.root))
    && (forall p | !Announced(paths, plan, p) && !Written(fs, owned, wiring, p) &&
                   p != paths.releases && p != paths.root ::
          Entry(fs', p) == Entry(fs, p))
  }

  lemma {:induction false} SelectedMembers(items: seq<Owned>, pick: Owned -> bool, p: Path)
    ensures p in Selected(items, pick) <==> exists i :: 0 <= i < |items| && pick(items[i]) && items[i].path == p
  {
    if items != [] {
      var n := |items| - 1;
      SelectedMembers(items[..n], pick, p);
      assert forall i | 0 <= i < n :: items[..n][i] == items[i];
    }
  }

  /** A link the first pass neither retained nor put back, and that is not the receipt's own. */
  predicate Overlooked(fs: Files, item: Owned, retained: set<Path>, restored: set<Path>) {
    && item.kind.SymlinkPath? && item.path !in retained && item.path !in restored
    && IsLink(fs, item.path) && !LinkUnchanged(fs, item)
  }

  /** With distinct owned paths the first pass overlooks no link. */
  lemma SecondLookRetainsNothing(fs: Files, paths: InstallPaths, owned: seq<Owned>, wiring: Wiring, i: nat)
    requires IsDistinctLayout(paths, owned) && WellNamed(wiring, paths) && i < |owned|
    ensures !Overlooked(AfterWiring(LinksRestored(fs, owned), owned, wiring), owned[i],
                        LinksRetained(fs, owned), LinksReinstated(fs, owned))
  {
    LinkPass(fs, owned);
    LinksMoved(fs, owned);
    WiringAfterLinks(fs, paths, owned, wiring);
    var item, fs1 := owned[i], LinksRestored(fs, owned);
    hide LinksRestored, AfterWiring, LinksRetained, LinksReinstated;
    if item.kind.SymlinkPath? {
      NotWritten(fs, paths, owned, wiring, item.path);
      assert Entry(AfterWiring(fs1, owned, wiring), item.path) == Entry(fs1, item.path);
      if !WouldRemove(fs, item) {
        forall j | 0 <= j < |owned| && owned[j].path == item.path ensures !WouldRemove(fs, owned[j]) {}
        assert Entry(fs1, item.path) == Entry(fs, item.path);
      }
    }
  }

  /** Only host files and backups are written by the wiring pass. */
  lemma NotWritten(fs: Files, paths: InstallPaths, owned: seq<Owned>, wiring: Wiring, p: Path)
    requires WellNamed(wiring, paths) && !InWiring(paths, owned, p)
    ensures !Written(fs, owned, wiring, p)
  {
    hide Beneath;
  }

  /** The link pass and the wiring pass move nothing but paths that may move. */
  lemma EarlyMoves(fs: Files, paths: InstallPaths, owned: seq<Owned>, wiring: Wiring)
    requires IsDistinctLayout(paths, owned) && WellNamed(wiring, paths)
    ensures SameUnlessMoved(fs, AfterWiring(LinksRestored(fs, owned), owned, wiring), paths, owned)
  {
    LinksMoved(fs, owned);
    WiringAfterLinks(fs, paths, owned, wiring);
    hide LinksRestored, AfterWiring;
    forall p | !Moves(paths, owned, p)
      ensures Entry(AfterWiring(LinksRestored(fs, owned), owned, wiring), p) == Entry(fs, p)
    {
      NotWritten(fs, paths, owned, wiring, p);
      assert forall i | 0 <= i < |owned| :: owned[i].path != p;
    }
  }

  /** The files an uninstall ends with, before the emptied directories go. */
  function Uninstalled(fs: Files, paths: InstallPaths, owned: seq<Owned>, wiring: Wiring, plan: Plan): Files {
    var fs2 := AfterWiring(LinksRestored(fs, owned), owned, wiring);
    var fs3 := if plan.current then fs2 - {paths.current} else fs2;
    var fs4 := if plan.receipt then fs3 - {paths.receipt} else fs3;
    WithoutTrees(fs4, plan.releases)
  }

  predicate IsEmptyDir(fs: Files, dir: Path) {
    dir in fs && fs[dir].Dir? && Empty(fs, dir)
  }

  /** The directories that go last: the releases directory if it is empty, and then its parent. */
  function Emptied(fs: Files, paths: InstallPaths): set<Path> {
    if !IsEmptyDir(fs, paths.releases) then {}
    else if !IsEmptyDir(fs - {paths.releases}, paths.root) then {paths.releases}
    else {paths.releases, paths.root}
  }

  lemma PlanMembers(fs: Files, paths: InstallPaths, releaseHash: string, owned: seq<Owned>, plan: Plan)
    requires IsDistinctLayout(paths, owned) && plan == PlanOf(fs, paths, releaseHash, owned)
    ensures LinksRetained(fs, owned) == set p | p in plan.retain
    ensures plan.retain == [] <==> LinksRetained(fs, owned) == {}
    ensures forall p :: p in plan.links <==>
              exists i :: 0 <= i < |owned| && WouldRemove(fs, owned[i]) && owned[i].path == p
  {
    LinkPass(fs, owned);
    LinksMoved(fs, owned);
    forall p
      ensures p in plan.retain <==> p in LinksRetained(fs, owned)
      ensures p in plan.links <==> exists i :: 0 <= i < |owned| && WouldRemove(fs, owned[i]) && owned[i].path == p
    {
      SelectedMembers(owned, item => WouldRetain(fs, item), p);
      SelectedMembers(owned, item => WouldRemove(fs, item), p);
    }
    if plan.retain != [] {
      assert plan.retain[0] in plan.retain;
    }
  }

  /** Where the link pass and the wiring pass leave path `p`, seen through the later steps. */
  lemma UninstalledAt(fs: Files, paths: InstallPaths, owned: seq<Owned>, wiring: Wiring, plan: Plan, p: Path)
    ensures Entry(Uninstalled(fs, paths, owned, wiring, plan), p) ==
            if (plan.current && p == paths.current) || (plan.receipt && p == paths.receipt)
               || (exists e :: e in plan.releases && WithinTree(p, e))
            then None else Entry(AfterWiring(LinksRestored(fs, owned), owned, wiring), p)
  {
    hide AfterWiring, LinksRestored, WithinTree;
  }

  /** Paths apart: what the plan announces beside the links is no owned path and no backup. */
  lemma AnnouncedApart(fs: Files, paths: InstallPaths, releaseHash: string, owned: seq<Owned>, plan: Plan, p: Path)
    requires IsDistinctLayout(paths, owned) && plan == PlanOf(fs, paths, releaseHash, owned)
    ensures (exists i :: 0 <= i < |owned| && owned[i].path == p) || Beneath(p, paths.backups) || p == paths.root ==>
              p != paths.current && p != paths.receipt && forall e | e in plan.releases :: !WithinTree(p, e)
    ensures Announced(paths, plan, p) ==> p != paths.releases && p != paths.root
    ensures forall e | e in plan.releases && WithinTree(p, e) :: Beneath(p, paths.releases)
  {
    assert (exists i :: 0 <= i < |owned| && owned[i].path == p) || Beneath(p, paths.backups) ==> Moves(paths, owned, p);
    assert Moves(paths, owned, paths.receipt);
    PlanMembers(fs, paths, releaseHash, owned, plan);
    if p in plan.links { assert Moves(paths, owned, p); }
    assert forall e | e in plan.releases :: Beneath(e, paths.releases);
    assert forall e | e in plan.releases && WithinTree(p, e) :: Beneath(p, paths.releases);
    assert !Beneath(paths.root, paths.releases);
  }

  /** A link item names no host file and no backup. */
  lemma LinkIsNoHost(fs: Files, paths: InstallPaths, owned: seq<Owned>, wiring: Wiring, i: nat)
    requires IsDistinctLayout(paths, owned) && WellNamed(wiring, paths) && i < |owned| && owned[i].kind.SymlinkPath?
    ensures !Written(fs, owned, wiring, owned[i].path)
  {
    assert !InWiring(paths, owned, owned[i].path);
    NotWritten(fs, paths, owned, wiring, owned[i].path);
  }

  /** Before the emptied directories go: the announced paths, the host files, and all else. */
  ghost predicate BeforeDirectories(fs: Files, end: Files, paths: InstallPaths, owned: seq<Owned>, wiring: Wiring,
                                    plan: Plan)
  {
    && AnnouncedDone(end, paths, owned, plan) && HostsDone(fs, end, owned, wiring)
    && forall p | !Announced(paths, plan, p) && !Written(fs, owned, wiring, p) :: Entry(end, p) == Entry(fs, p)
  }

  lemma UninstalledLinks(fs: Files, paths: InstallPaths, releaseHash: string, owned: seq<Owned>, wiring: Wiring,
                         plan: Plan)
    requires IsDistinctLayout(paths, owned) && WellNamed(wiring, paths) && plan == PlanOf(fs, paths, releaseHash, owned)
    ensures AnnouncedDone(Uninstalled(fs, paths, owned, wiring, plan), paths, owned, plan)
  {
    var end, fs1 := Uninstalled(fs, paths, owned, wiring, plan), LinksRestored(fs, owned);
    PlanMembers(fs, paths, releaseHash, owned, plan);
    LinksMoved(fs, owned);
    WiringAfterLinks(fs, paths, owned, wiring);
    hide LinksRestored, AfterWiring, Uninstalled, WithinTree, HostsDone, Written;
    forall i | 0 <= i < |owned| && owned[i].path in plan.links
      ensures Entry(end, owned[i].path)
           == if owned[i].predecessor.Some? then Some(Link(owned[i].predecessor.value)) else None
    {
      assert WouldRemove(fs, owned[i]);
      LinkIsNoHost(fs, paths, owned, wiring, i);
      AnnouncedApart(fs, paths, releaseHash, owned, plan, owned[i].path);
      UninstalledAt(fs, paths, owned, wiring, plan, owned[i].path);
    }
    forall p | p in end && p !in plan.links ensures !Announced(paths, plan, p) {
      UninstalledAt(fs, paths, owned, wiring, plan, p);
    }
  }

  lemma UninstalledRest(fs: Files, paths: InstallPaths, releaseHash: string, owned: seq<Owned>, wiring: Wiring,
                        plan: Plan)
    requires IsDistinctLayout(paths, owned) && WellNamed(wiring, paths) && plan == PlanOf(fs, paths, releaseHash, owned)
    ensures BeforeDirectories(fs, Uninstalled(fs, paths, owned, wiring, plan), paths, owned, wiring, plan)
  {
    UninstalledLinks(fs, paths, releaseHash, owned, wiring, plan);
    var end, fs1 := Uninstalled(fs, paths, owned, wiring, plan), LinksRestored(fs, owned);
    PlanMembers(fs, paths, releaseHash, owned, plan);
    LinksMoved(fs, owned);
    WiringAfterLinks(fs, paths, owned, wiring);
    hide LinksRestored, AfterWiring, Uninstalled, WithinTree, AnnouncedDone, WouldRemove, LinksRetained, PlanOf;
    forall p | (exists i :: 0 <= i < |owned| && owned[i].path == p) || Beneath(p, paths.backups)
      ensures Entry(end, p) == Entry(AfterWiring(fs1, owned, wiring), p)
    {
      AnnouncedApart(fs, paths, releaseHash, owned, plan, p);
      UninstalledAt(fs, paths, owned, wiring, plan, p);
    }
    assert HostsDone(fs, end, owned, wiring) by {
      hide IsDistinctLayout, Beneath;
      forall i | 0 <= i < |owned| && Rewires(fs, owned[i], wiring)
        ensures Beneath(BackupFor(fs, owned[i], wiring), paths.backups) {}
    }
    forall p | !Announced(paths, plan, p) && !Written(fs, owned, wiring, p) ensures Entry(end, p) == Entry(fs, p) {
      UninstalledAt(fs, paths, owned, wiring, plan, p);
    }
  }

  /** The releases directory is emptied exactly if the plan clears everything beneath it. */
  lemma EmptiedIff(fs: Files, end: Files, paths: InstallPaths, releaseHash: string, owned: seq<Owned>, wiring: Wiring,
                   plan: Plan)
    requires IsDistinctLayout(paths, owned) && WellNamed(wiring, paths) && plan == PlanOf(fs, paths, releaseHash, owned)
    requires BeforeDirectories(fs, end, paths, owned, wiring, plan)
    ensures Entry(end, paths.releases) == Entry(fs, paths.releases) && Entry(end, paths.root) == Entry(fs, paths.root)
    ensures plan.receipt ==> (IsEmptyDir(end, paths.releases) <==> EmptiesReleases(fs, paths, plan))
  {
    forall p | !Moves(paths, owned, p) ensures !Written(fs, owned, wiring, p) {
      NotWritten(fs, paths, owned, wiring, p);
    }
    AnnouncedApart(fs, paths, releaseHash, owned, plan, paths.root);
    AnnouncedApart(fs, paths, releaseHash, owned, plan, paths.releases);
    PlanMembers(fs, paths, releaseHash, owned, plan);
    assert !Moves(paths, owned, paths.root) && !Moves(paths, owned, paths.releases);
    forall p | Beneath(p, paths.releases)
      ensures p in end <==> p in fs && !exists e :: e in plan.releases && WithinTree(p, e)
    {
      assert !Moves(paths, owned, p);
      assert p in plan.links ==> Moves(paths, owned, p);
      assert Announced(paths, plan, p) <==> exists e :: e in plan.releases && WithinTree(p, e);
      hide Moves, Written, HostsDone;
      if !Announced(paths, plan, p) { assert Entry(end, p) == Entry(fs, p); }
    }
  }

  /** The uninstall with its last step, path by path. */
  lemma UninstalledCarriesOut(fs: Files, fs': Files, paths: InstallPaths, releaseHash: string, owned: seq<Owned>,
                              wiring: Wiring, plan: Plan)
    requires IsDistinctLayout(paths, owned) && WellNamed(wiring, paths) && plan == PlanOf(fs, paths, releaseHash, owned)
    requires var end := Uninstalled(fs, paths, owned, wiring, plan);
             fs' == if plan.receipt then end - Emptied(end, paths) else end
    ensures CarriedOut(fs, fs', paths, owned, wiring, plan)
  {
    var end := Uninstalled(fs, paths, owned, wiring, plan);
    UninstalledRest(fs, paths, releaseHash, owned, wiring, plan);
    hide Uninstalled, PlanOf;
    EmptiedIff(fs, end, paths, releaseHash, owned, wiring, plan);
    DirectoriesGo(fs, end, fs', paths, releaseHash, owned, wiring, plan);
  }

  lemma DirectoriesGo(fs: Files, end: Files, fs': Files, paths: InstallPaths, releaseHash: string, owned: seq<Owned>,
                      wiring: Wiring, plan: Plan)
    requires IsDistinctLayout(paths, owned) && WellNamed(wiring, paths)
    requires BeforeDirectories(fs, end, paths, owned, wiring, plan)
    requires fs' == if plan.receipt then end - Emptied(end, paths) else end
    requires Entry(end, paths.releases) == Entry(fs, paths.releases) && Entry(end, paths.root) == Entry(fs, paths.root)
    requires plan.receipt ==> (IsEmptyDir(end, paths.releases) <==> EmptiesReleases(fs, paths, plan))
    ensures CarriedOut(fs, fs', paths, owned, wiring, plan)
  {
    forall p | p != paths.releases && p != paths.root ensures Entry(fs', p) == Entry(end, p) {}
    forall i | 0 <= i < |owned| ensures owned[i].path != paths.releases && owned[i].path != paths.root {
      assert Moves(paths, owned, owned[i].path);
    }
    forall i | 0 <= i < |owned| && Rewires(fs, owned[i], wiring)
      ensures BackupFor(fs, owned[i], wiring) != paths.releases && BackupFor(fs, owned[i], wiring) != paths.root
    {
      assert Moves(paths, owned, BackupFor(fs, owned[i], wiring));
    }
    assert plan.receipt && IsEmptyDir(end, paths.releases) ==>
             (Empty(fs', paths.root) <==> Empty(end - {paths.releases}, paths.root)) by {
      assert !Beneath(paths.root, paths.root);
    }
  }

  /** With `current` and the receipt gone, the release that is kept and the ones that go are still the planned ones. */
  lemma LateDecisions(fs: Files, fs2: Files, fs': Files, paths: InstallPaths, releaseHash: string, owned: seq<Owned>)
    requires IsDistinctLayout(paths, owned) && ChainsClear(fs, paths, releaseHash, owned)
    requires SameUnlessMoved(fs, fs2, paths, owned)
    requires fs' == (if CurrentIsOurs(fs, paths, releaseHash) then fs2 - {paths.current} else fs2) - {paths.receipt}
    ensures RemovableReleases(fs', paths, Keep(fs', paths))
         == RemovableReleases(fs, paths, if CurrentIsOurs(fs, paths, releaseHash) then None else Keep(fs, paths))
  {
    var fs3 := fs2 - {paths.receipt};
    assert Moves(paths, owned, paths.receipt);
    assert forall p | !Moves(paths, owned, p) :: Entry(fs3, p) == Entry(fs2, p);
    DecisionsSame(fs, fs3, paths, releaseHash, owned);
    if CurrentIsOurs(fs, paths, releaseHash) {
      assert fs' == fs3 - {paths.current};
      assert Keep(fs', paths) == None;
      assert Entry(fs3, paths.releases) == Entry(fs, paths.releases);
      assert IsDir(fs', paths.releases) == IsDir(fs3, paths.releases);
    }
  }

  /** A path recorded twice: the uninstall retains what the plan retains unless the
      link is the receipt's own and a different predecessor is put back, which the second record then finds. */
  lemma RepeatedPathIff(fs: Files, item: Owned)
    ensures (forall p :: p in LinksRetained(fs, [item, item]) <==>
                         p in Selected([item, item], i => WouldRetain(fs, i))) <==>
            !(WouldRemove(fs, item) && item.predecessor.Some? && item.predecessor != item.target)
  {
    var items := [item, item];
    assert items[..1] == [item] && items[..0] == [] && [item][..0] == [];
    assert LinksRestored(fs, []) == fs && LinksRetained(fs, []) == {};
    assert LinksRetained(fs, [item]) == if WouldRetain(fs, item) then {item.path} else {};
    assert LinksRetained(fs, items) ==
           LinksRetained(fs, [item]) + if WouldRetain(LinksRestored(fs, [item]), item) then {item.path} else {};
    assert Selected([item], i => WouldRetain(fs, i)) == if WouldRetain(fs, item) then [item.path] else [];
    assert Selected(items, i => WouldRetain(fs, i)) == if WouldRetain(fs, item) then [item.path, item.path] else [];
    var fs' := LinksRestored(fs, [item]);
    assert fs' == if WouldRemove(fs, item)
                  then Put(fs, item.path, if item.predecessor.Some? then Some(Link(item.predecessor.value)) else None)
                  else fs;
  }

  // ---- Plans of two disks

  /** The plan reads the same on both disks: every link is judged alike, and, if
      none is retained, `current` is ours alike and the same releases go. */
  predicate ReadAlike(fs: Files, fs': Files, paths: InstallPaths, releaseHash: string, owned: seq<Owned>) {
    && (forall i | 0 <= i < |owned| :: JudgedAlike(fs, fs', owned[i]))
    && ((forall i | 0 <= i < |owned| :: !WouldRetain(fs, owned[i])) ==> ReleasesAlike(fs, fs', paths, releaseHash))
  }

  predicate JudgedAlike(fs: Files, fs': Files, item: Owned) {
    WouldRemove(fs, item) == WouldRemove(fs', item) && WouldRetain(fs, item) == WouldRetain(fs', item)
  }

  predicate ReleasesAlike(fs: Files, fs': Files, paths: InstallPaths, releaseHash: string) {
    var ours := CurrentIsOurs(fs, paths, releaseHash);
    && ours == CurrentIsOurs(fs', paths, releaseHash)
    && RemovableReleases(fs, paths, if ours then None else Keep(fs, paths))
       == RemovableReleases(fs', paths, if ours then None else Keep(fs', paths))
  }

  lemma {:induction false} SelectedSame(items: seq<Owned>, pick: Owned -> bool, pick': Owned -> bool)
    requires forall i | 0 <= i < |items| :: pick(items[i]) == pick'(items[i])
    ensures Selected(items, pick) == Selected(items, pick')
  {
    if items != [] {
      var n := |items| - 1;
      assert forall i | 0 <= i < n :: items[..n][i] == items[i];
      SelectedSame(items[..n], pick, pick');
      assert pick(items[n]) == pick'(items[n]);
    }
  }

  /** With distinct paths, a path is selected exactly if its own item is. */
  lemma SelectedItem(items: seq<Owned>, pick: Owned -> bool, i: nat)
    requires Distinct(items) && i < |items|
    ensures items[i].path in Selected(items, pick) <==> pick(items[i])
  {
    SelectedMembers(items, pick, items[i].path);
  }

  /** Two disks give one plan if and only if the plan reads alike on them. */
  lemma PlanAgreesIff(fs: Files, fs': Files, paths: InstallPaths, releaseHash: string, owned: seq<Owned>)
    requires Distinct(owned)
    ensures PlanOf(fs, paths, releaseHash, owned) == PlanOf(fs', paths, releaseHash, owned) <==>
            ReadAlike(fs, fs', paths, releaseHash, owned)
  {
    var remove, remove' := (item: Owned) => WouldRemove(fs, item), (item: Owned) => WouldRemove(fs', item);
    var retain, retain' := (item: Owned) => WouldRetain(fs, item), (item: Owned) => WouldRetain(fs', item);
    forall i | 0 <= i < |owned|
      ensures owned[i].path in Selected(owned, remove) <==> WouldRemove(fs, owned[i])
      ensures owned[i].path in Selected(owned, remove') <==> WouldRemove(fs', owned[i])
      ensures owned[i].path in Selected(owned, retain) <==> WouldRetain(fs, owned[i])
      ensures owned[i].path in Selected(owned, retain') <==> WouldRetain(fs', owned[i])
    {
      SelectedItem(owned, remove, i);
      SelectedItem(owned, remove', i);
      SelectedItem(owned, retain, i);
      SelectedItem(owned, retain', i);
    }
    if forall i | 0 <= i < |owned| :: JudgedAlike(fs, fs', owned[i]) {
      SelectedSame(owned, remove, remove');
      SelectedSame(owned, retain, retain');
      NothingRetained(fs, owned);
    }
    hide WouldRemove, WouldRetain, CurrentIsOurs, Keep, RemovableReleases, Selected;
  }

  lemma NothingRetained(fs: Files, owned: seq<Owned>)
    ensures Selected(owned, item => WouldRetain(fs, item)) == [] <==>
            forall i | 0 <= i < |owned| :: !WouldRetain(fs, owned[i])
  {
    var retained := Selected(owned, item => WouldRetain(fs, item));
    if i :| 0 <= i < |owned| && WouldRetain(fs, owned[i]) {
      SelectedMembers(owned, item => WouldRetain(fs, item), owned[i].path);
    } else if retained != [] {
      SelectedMembers(owned, item => WouldRetain(fs, item), retained[0]);
    }
  }
}
