/** The file system as the installer sees it: a finite map from absolute path
    to what is stored there.  A path that is not a key is absent. */
module FileSystem {
  import opened Options

  type Path = string
  datatype Node = Link(text: string) | File(bytes: string) | Dir
  type Files = map<Path, Node>

  /** SHA-256, as an injective function of the bytes it was computed from. */
  datatype Digest = Sha256(of: string)

  /** A chain of more links than this fails to resolve (ELOOP). */
  const MAX_HOPS: nat := 40

  function Entry(fs: Files, p: Path): Option<Node> {
    if p in fs then Some(fs[p]) else None
  }

  function Put(fs: Files, p: Path, node: Option<Node>): Files {
    if node.Some? then fs[p := node.value] else fs - {p}
  }

  /** Where a chain of links starting at `p` ends. */
  function Resolve(fs: Files, p: Path, hops: nat := MAX_HOPS): Option<Path>
    decreases hops
  {
    if !IsLink(fs, p) then Some(p)
    else if hops == 0 then None
    else Resolve(fs, fs[p].text, hops - 1)
  }

  predicate IsLink(fs: Files, p: Path) {
    p in fs && fs[p].Link?
  }

  predicate Exists(fs: Files, p: Path) {
    var q := Resolve(fs, p);
    q.Some? && q.value in fs
  }

  predicate IsFile(fs: Files, p: Path) {
    var q := Resolve(fs, p);
    q.Some? && q.value in fs && fs[q.value].File?
  }

  predicate IsDir(fs: Files, p: Path) {
    var q := Resolve(fs, p);
    q.Some? && q.value in fs && fs[q.value].Dir?
  }

  function Bytes(fs: Files, p: Path): string
    requires IsFile(fs, p)
  {
    fs[Resolve(fs, p).value].bytes
  }

  predicate Beneath(p: Path, dir: Path) {
    dir + "/" <= p
  }

  predicate Empty(fs: Files, dir: Path) {
    forall p | p in fs :: !Beneath(p, dir)
  }

  /** The last component of a path. */
  function BaseName(p: Path): Path {
    if p == [] then p
    else if p[|p| - 1] == '/' then []
    else BaseName(p[..|p| - 1]) + [p[|p| - 1]]
  }

  /** The file a copy onto `dst` opens for writing: links are followed, and a
      copy onto a directory lands inside it. */
  function CopyTarget(fs: Files, src: Path, dst: Path): Option<Path> {
    var q := Resolve(fs, dst);
    if q.Some? && q.value in fs && fs[q.value].Dir?
    then Resolve(fs, q.value + "/" + BaseName(src))
    else q
  }

  /** Each path is a link to the next. */
  predicate Chain(fs: Files, c: seq<Path>) {
    && c != []
    && forall i | 0 <= i < |c| - 1 :: c[i] in fs && fs[c[i]] == Link(c[i + 1])
  }

  ghost predicate LeadsTo(fs: Files, p: Path, q: Path, hops: nat) {
    exists c :: Chain(fs, c) && c[0] == p && c[|c| - 1] == q && |c| <= hops + 1
  }

  lemma FirstIsLink(fs: Files)
    ensures forall c | Chain(fs, c) && |c| > 1 :: IsLink(fs, c[0])
  {
    forall c | Chain(fs, c) && |c| > 1 ensures IsLink(fs, c[0]) {
      assert fs[c[0]] == Link(c[0 + 1]);
    }
  }

  /** A path resolves to the end of its chain of links, if the chain has one and is not too long. */
  lemma {:induction false} ResolveIff(fs: Files, p: Path, q: Path, hops: nat)
    ensures Resolve(fs, p, hops) == Some(q) <==> LeadsTo(fs, p, q, hops) && !(q in fs && fs[q].Link?)
    decreases hops
  {
    FirstIsLink(fs);
    if !IsLink(fs, p) {
      assert Chain(fs, [p]);
    } else if hops > 0 {
      var next := fs[p].text;
      ResolveIff(fs, next, q, hops - 1);
      if LeadsTo(fs, p, q, hops) && p != q {
        var c :| Chain(fs, c) && c[0] == p && c[|c| - 1] == q && |c| <= hops + 1;
        assert Chain(fs, c[1..]) && c[1] == next;
      }
      if LeadsTo(fs, next, q, hops - 1) {
        var c :| Chain(fs, c) && c[0] == next && c[|c| - 1] == q && |c| <= hops;
        assert Chain(fs, [p] + c);
      }
    }
  }

  lemma {:induction false} BaseNameIs(dir: Path, name: Path)
    requires '/' !in name
    ensures BaseName(dir + "/" + name) == name
  {
    var p := dir + "/" + name;
    if name == [] {
      assert p[|p| - 1] == '/';
    } else {
      BaseNameIs(dir, name[..|name| - 1]);
      assert p[..|p| - 1] == dir + "/" + name[..|name| - 1];
    }
  }

  lemma SameEntries(fs: Files, fs': Files)
    requires forall p :: Entry(fs, p) == Entry(fs', p)
    ensures fs == fs'
  {
    forall p
      ensures p in fs <==> p in fs'
      ensures p in fs ==> fs[p] == fs'[p]
    {
      assert Entry(fs, p) == Entry(fs', p);
    }
  }
}
