/** The managed block in a host's instruction file: put in, refreshed, taken out. */
module HostBlocks {
  const BEGIN_PARTS := ["<!-- agents-inc:begin ", "(managed by `agents-inc ", "install`; edits inside ",
                        "this block are ", "overwritten) -->"]
  const BEGIN := BEGIN_PARTS[0] + BEGIN_PARTS[1] + BEGIN_PARTS[2] + BEGIN_PARTS[3] + BEGIN_PARTS[4]
  const END := "<!-- agents-inc:end -->"

  predicate OccursAt(text: string, mark: string, i: nat) {
    i + |mark| <= |text| && text[i..i + |mark|] == mark
  }

  function FindFrom(text: string, mark: string, i: nat): (r: int)
    requires i <= |text|
    ensures r == -1 || i <= r <= |text|
    ensures r != -1 ==> OccursAt(text, mark, r)
    ensures forall k: nat | i <= k && (r == -1 || k < r) :: !OccursAt(text, mark, k)
    decreases |text| - i
  {
    if OccursAt(text, mark, i) then i
    else if i == |text| then -1
    else FindFrom(text, mark, i + 1)
  }

  /** The first place of the mark, or -1. */
  function Find(text: string, mark: string): (r: int)
    ensures r == -1 || 0 <= r <= |text|
    ensures r != -1 ==> OccursAt(text, mark, r)
    ensures forall k: nat | r == -1 || k < r :: !OccursAt(text, mark, k)
  {
    FindFrom(text, mark, 0)
  }

  function RStrip(s: string): (r: string)
    ensures r <= s && (r != "" ==> r[|r| - 1] != '\n')
    ensures forall k | |r| <= k < |s| :: s[k] == '\n'
  {
    if s != "" && s[|s| - 1] == '\n' then RStrip(s[..|s| - 1]) else s
  }

  function LStrip(s: string): (r: string)
    ensures |r| <= |s| && r == s[|s| - |r|..] && (r != "" ==> r[0] != '\n')
    ensures forall k | 0 <= k < |s| - |r| :: s[k] == '\n'
  {
    if s != "" && s[0] == '\n' then LStrip(s[1..]) else s
  }

  /** What follows the block: the text's own tail on a line of its own. */
  function Rest(tail: string): string {
    if tail != "" then "\n" + tail else ""
  }

  function UpsertBlock(text: string, block: string): string {
    var start, end := Find(text, BEGIN), Find(text, END);
    if start != -1 && end > start then text[..start] + block + Rest(TailOf(text))
    else if text == "" then block
    else RStrip(text) + "\n\n" + block
  }

  /** The text around a block: head and tail apart by an empty line, and a last newline. */
  function Joined(head: string, tail: string): string {
    head + (if head != "" && tail != "" then "\n\n" else "") + tail + if head != "" || tail != "" then "\n" else ""
  }

  function RemoveBlock(text: string): string {
    var start, end := Find(text, BEGIN), Find(text, END);
    if start == -1 || end < start then text
    else
      Joined(RStrip(text[..start]), TailOf(text))
  }

  /** BEGIN occurs, and the first END after the first BEGIN. */
  predicate HasBlock(text: string) {
    Find(text, BEGIN) != -1 && Find(text, END) > Find(text, BEGIN)
  }

  predicate Unmarked(text: string) {
    Find(text, BEGIN) == -1 && Find(text, END) == -1
  }

  /** What follows the first END. */
  function TailOf(text: string): string
    requires Find(text, END) != -1
  {
    LStrip(text[Find(text, END) + |END|..])
  }

  // ---- The marks

  lemma MarksAreLines()
    ensures forall k | 0 <= k < |BEGIN| :: BEGIN[k] != '\n'
    ensures forall k | 0 <= k < |END| :: END[k] != '\n'
    ensures 0 < |END| < |BEGIN|
  {
    PartsAreLines();
    assert PartHas(0) && PartHas(1) && PartHas(2) && PartHas(3) && PartHas(4);
    hide BEGIN_PARTS;
  }

  lemma PartsAreLines()
    ensures forall i | 0 <= i < 5 :: PartHas(i)
    ensures |BEGIN_PARTS| == 5 && |BEGIN_PARTS[0]| == 22 && |BEGIN_PARTS[1]| == 24
  {
    assert PartHas(0);
    assert PartHas(1);
    assert PartHas(2);
    assert PartHas(3);
    assert PartHas(4);
  }

  /** The part is on one line, and only the first begins a comment. */
  predicate PartHas(i: nat)
    requires i < |BEGIN_PARTS|
  {
    forall k | 0 <= k < |BEGIN_PARTS[i]| :: BEGIN_PARTS[i][k] != '\n' && (BEGIN_PARTS[i][k] == '<' ==> i == 0 && k == 0)
  }

  lemma OneCommentStart(k: nat)
    requires 0 < k < |BEGIN|
    ensures BEGIN[k] != '<'
  {
    PartsAreLines();
    assert PartHas(0) && PartHas(1) && PartHas(2) && PartHas(3) && PartHas(4);
    hide BEGIN_PARTS;
  }

  /** No END inside BEGIN. */
  lemma MarksAreApart(k: nat)
    ensures !OccursAt(BEGIN, END, k)
  {
    assert BEGIN[16] == BEGIN_PARTS[0][16] == 'b' && END[16] == 'e' && END[0] == '<';
    if k + |END| <= |BEGIN| {
      var piece := BEGIN[k..k + |END|];
      assert piece[0] == BEGIN[k] && piece[16] == BEGIN[k + 16];
      if k > 0 { OneCommentStart(k); }
      assert piece != END;
    }
  }

  /** A managed block: from BEGIN to the first END, and a newline. */
  ghost predicate IsBlock(block: string) {
    && BEGIN <= block
    && var e := Find(block, END); e != -1 && block == block[..e] + END + "\n"
  }

  lemma FindIs(text: string, mark: string, i: nat)
    requires OccursAt(text, mark, i) && forall k: nat | k < i :: !OccursAt(text, mark, k)
    ensures Find(text, mark) == i
  {}

  /** A mark read in one text is read in another that agrees with it there. */
  lemma Agree(a: string, b: string, n: nat, mark: string, k: nat)
    requires n <= |a| && n <= |b| && a[..n] == b[..n] && k + |mark| <= n
    ensures OccursAt(a, mark, k) <==> OccursAt(b, mark, k)
  {
    hide BEGIN, END;
    assert a[k..k + |mark|] == a[..n][k..k + |mark|];
    assert b[k..k + |mark|] == b[..n][k..k + |mark|];
  }

  lemma Slices(a: string, b: string, c: string, i: nat, j: nat)
    requires i <= j <= |b|
    ensures (a + b + c)[..|a|] == a
    ensures (a + b + c)[|a| + i..|a| + j] == b[i..j]
    ensures (a + b + c)[|a| + i..] == b[i..] + c
  {}

  lemma Shifted(head: string, s: string, rest: string, mark: string, k: nat)
    requires k + |mark| <= |s|
    ensures OccursAt(head + s + rest, mark, |head| + k) <==> OccursAt(s, mark, k)
  {
    hide BEGIN, END;
    Slices(head, s, rest, k, k + |mark|);
  }

  /** No mark begins before `head` ends. */
  ghost predicate NoneBefore(text: string, n: nat) {
    forall k: nat | k < n :: !OccursAt(text, BEGIN, k) && !OccursAt(text, END, k)
  }

  /** Where the END of a block is found that no other precedes. */
  lemma EndIsFound(head: string, block: string, rest: string)
    requires IsBlock(block)
    requires forall k: nat | k < |head| :: !OccursAt(head + block + rest, END, k)
    ensures Find(head + block + rest, END) == |head| + |block| - |END| - 1
  {
    hide BEGIN, END;
    BlockEnds(block);
    var text := head + block + rest;
    var e := Find(block, END);
    Shifted(head, block, rest, END, e);
    forall k: nat | k < |head| + e ensures !OccursAt(text, END, k) {
      if k >= |head| {
        Shifted(head, block, rest, END, k - |head|);
      }
    }
    FindIs(text, END, |head| + e);
  }

  /** Where a block that nothing precedes is found. */
  lemma BlockIsFound(head: string, block: string, rest: string)
    requires IsBlock(block)
    requires forall k: nat | k < |head| :: !OccursAt(head + block + rest, BEGIN, k)
    ensures Find(head + block + rest, BEGIN) == |head|
    ensures NoneBefore(head + block + rest, |head|) ==>
              Find(head + block + rest, END) == |head| + |block| - |END| - 1
  {
    hide BEGIN, END;
    MarksAreLines();
    BlockEnds(block);
    assert OccursAt(block, BEGIN, 0);
    Shifted(head, block, rest, BEGIN, 0);
    FindIs(head + block + rest, BEGIN, |head|);
    hide IsBlock;
    if NoneBefore(head + block + rest, |head|) {
      EndIsFound(head, block, rest);
    }
  }

  /** What follows a block: nothing, or a newline and a text that begins with none. */
  ghost predicate IsRest(rest: string, tail: string) {
    rest == Rest(tail) && (tail != "" ==> tail[0] != '\n')
  }

  lemma BlockEnds(block: string)
    requires IsBlock(block)
    ensures |block| - |END| - 1 > 0 && Find(block, END) == |block| - |END| - 1
    ensures block[|block| - 1..] == "\n"
  {
    hide BEGIN, END;
    MarksAreLines();
    MarksAreApart(0);
    Agree(BEGIN, block, |BEGIN|, END, 0);
  }

  lemma BlockSlices(head: string, block: string, rest: string, tail: string)
    requires IsBlock(block) && IsRest(rest, tail)
    ensures var text, end := head + block + rest, |head| + |block| - |END| - 1;
            && end > |head| && end + |END| <= |text|
            && text[..|head|] == head && LStrip(text[end + |END|..]) == tail
  {
    hide *;
    BlockEnds(block);
    Slices(head, block, rest, |block| - 1, |block|);
    LStripRest(rest, tail);
  }

  lemma LStripRest(rest: string, tail: string)
    requires IsRest(rest, tail)
    ensures LStrip("\n" + rest) == tail
  {
    assert ("\n" + rest)[1..] == rest;
    if rest != "" { assert rest[1..] == tail; }
  }

  /** A block with its surroundings, and no mark before it. */
  ghost predicate Placed(text: string, head: string, block: string, tail: string) {
    && text == head + block + Rest(tail) && (tail != "" ==> tail[0] != '\n')
    && IsBlock(block) && NoneBefore(text, |head|)
  }

  lemma PlacedIsFound(text: string, head: string, block: string, tail: string)
    requires Placed(text, head, block, tail)
    ensures HasBlock(text) && Find(text, BEGIN) == |head| && text[..|head|] == head && TailOf(text) == tail
  {
    hide BEGIN, END, LStrip, Rest, Find, OccursAt;
    BlockIsFound(head, block, Rest(tail));
    BlockSlices(head, block, Rest(tail), tail);
  }

  /** A placed block is found again: refreshing leaves the text as it is. */
  lemma UpsertPlaced(text: string, head: string, block: string, tail: string)
    requires Placed(text, head, block, tail)
    ensures UpsertBlock(text, block) == text
  {
    hide BEGIN, END;
    PlacedIsFound(text, head, block, tail);
    hide IsBlock, NoneBefore, Find, Rest;
  }

  /** Removing keeps what stands around a placed block. */
  lemma RemovePlaced(text: string, head: string, block: string, tail: string)
    requires Placed(text, head, block, tail)
    ensures RemoveBlock(text) == Joined(RStrip(head), tail)
  {
    hide BEGIN, END;
    PlacedIsFound(text, head, block, tail);
    hide Placed, Find, Joined;
  }

  /** The block the installer writes: BEGIN, the instructions and END, each on its own lines. */
  function BlockText(body: string): string {
    BEGIN + ("\n" + body + "\n") + (END + "\n")
  }

  /** It is a managed block, if the instructions do not themselves contain END. */
  lemma BlockTextIsBlock(body: string)
    requires Find(body, END) == -1
    ensures IsBlock(BlockText(body))
  {
    hide BEGIN, END;
    MarksAreLines();
    var text, e := BlockText(body), |BEGIN| + |body| + 2;
    Slices(BEGIN + ("\n" + body + "\n"), END + "\n", "", 0, |END|);
    assert text == (BEGIN + ("\n" + body + "\n")) + (END + "\n") + "";
    assert (END + "\n")[..|END|] == END;
    assert OccursAt(text, END, e);
    forall k: nat | k < e ensures !OccursAt(text, END, k) {
      NoEarlyEnd(body, k);
    }
    FindIs(text, END, e);
    assert text[..|BEGIN|] == BEGIN;
    assert text == text[..e] + END + "\n";
  }

  lemma NoEarlyEnd(body: string, k: nat)
    requires Find(body, END) == -1 && k < |BEGIN| + |body| + 2
    ensures !OccursAt(BlockText(body), END, k)
  {
    hide BEGIN, END;
    MarksAreLines();
    var text, n := BlockText(body), |BEGIN|;
    if k + |END| <= n {
      assert text[..n] == BEGIN == BEGIN[..n];
      Agree(text, BEGIN, n, END, k);
      MarksAreApart(k);
    } else if n < k && k + |END| <= n + 1 + |body| {
      assert text == (BEGIN + "\n") + body + ("\n" + (END + "\n"));
      hide BlockText;
      Shifted(BEGIN + "\n", body, "\n" + (END + "\n"), END, k - n - 1);
    } else if k + |END| <= |text| {
      var i := if k <= n then n else n + 1 + |body|;
      assert text[i] == '\n' && END[i - k] != '\n';
      hide *;
      BrokenMark(text, END, k, i);
    }
  }

  // ---- Refreshing

  /** A text with a block keeps what stands before it and after it. */
  lemma RefreshForm(text: string, block: string)
    requires HasBlock(text) && IsBlock(block)
    ensures Placed(UpsertBlock(text, block), text[..Find(text, BEGIN)], block, TailOf(text))
  {
    hide BEGIN, END;
    var head := text[..Find(text, BEGIN)];
    SameBefore(text, head, block, Rest(TailOf(text)));
    hide IsBlock, Find, NoneBefore, Rest;
  }

  lemma SameBefore(text: string, head: string, block: string, rest: string)
    requires HasBlock(text) && IsBlock(block) && head == text[..Find(text, BEGIN)]
    ensures NoneBefore(head + block + rest, |head|)
  {
    hide BEGIN, END;
    MarksAreLines();
    var made := head + block + rest;
    var n := |head| + |BEGIN|;
    assert made[..n] == head + BEGIN == text[..n] by {
      assert text[|head|..n] == BEGIN;
    }
    forall k: nat | k < |head| ensures !OccursAt(made, BEGIN, k) && !OccursAt(made, END, k) {
      Agree(text, made, n, BEGIN, k);
      Agree(text, made, n, END, k);
    }
  }

  /** The marks of a text stand before its trailing newlines. */
  lemma MarkInBody(text: string, mark: string, k: nat)
    requires mark == BEGIN || mark == END
    requires OccursAt(text, mark, k)
    ensures k + |mark| <= |RStrip(text)|
  {
    hide BEGIN, END;
    MarksAreLines();
    assert text[k..k + |mark|][|mark| - 1] == mark[|mark| - 1];
  }

  lemma BrokenMark(text: string, mark: string, k: nat, i: nat)
    requires k <= i < k + |mark| <= |text| && text[i] != mark[i - k]
    ensures !OccursAt(text, mark, k)
  {
    assert text[k..k + |mark|][i - k] == text[i];
  }

  /** An appended block adds no mark before itself. */
  lemma AppendForm(text: string, block: string, mark: string, k: nat)
    requires mark == BEGIN || mark == END
    requires k < |RStrip(text)| + 2
    ensures OccursAt(RStrip(text) + "\n\n" + block, mark, k) <==> OccursAt(text, mark, k)
  {
    hide BEGIN, END;
    MarksAreLines();
    var h := RStrip(text);
    var made := h + "\n\n" + block;
    if k + |mark| <= |h| {
      Agree(text, made, |h|, mark, k);
    } else {
      if OccursAt(text, mark, k) { MarkInBody(text, mark, k); }
      if k + |mark| <= |made| {
        var i := if k <= |h| then |h| else |h| + 1;
        assert made[i] == '\n' && mark[i - k] != '\n';
        BrokenMark(made, mark, k, i);
      }
    }
  }

  lemma UnmarkedForm(text: string, block: string)
    requires Unmarked(text) && text != "" && IsBlock(block)
    ensures Placed(UpsertBlock(text, block), RStrip(text) + "\n\n", block, "")
    ensures RStrip(RStrip(text) + "\n\n") == RStrip(text)
  {
    hide BEGIN, END;
    var h := RStrip(text);
    var head := h + "\n\n";
    assert head + block + Rest("") == h + "\n\n" + block;
    forall k: nat | k < |head|
      ensures !OccursAt(h + "\n\n" + block, BEGIN, k) && !OccursAt(h + "\n\n" + block, END, k)
    {
      AppendForm(text, block, BEGIN, k);
      AppendForm(text, block, END, k);
    }
    assert head[..|head| - 1] == h + "\n" && (h + "\n")[..|h|] == h;
    assert RStrip(h) == h;
  }

  lemma FirstForm(block: string)
    requires IsBlock(block)
    ensures Placed(UpsertBlock("", block), "", block, "")
  {
    hide BEGIN, END;
    MarksAreLines();
    assert Find("", BEGIN) == -1 by { assert !OccursAt("", BEGIN, 0); }
    assert "" + block + Rest("") == block;
  }

  /** Refreshing twice is refreshing once, exactly for the empty text, a text
      without marks, and one whose first END follows its first BEGIN. */
  lemma UpsertIdempotentIff(text: string, block: string)
    requires IsBlock(block)
    ensures UpsertBlock(UpsertBlock(text, block), block) == UpsertBlock(text, block) <==>
            text == "" || Unmarked(text) || HasBlock(text)
  {
    hide BEGIN, END;
    if HasBlock(text) {
      RefreshForm(text, block);
      UpsertPlaced(UpsertBlock(text, block), text[..Find(text, BEGIN)], block, TailOf(text));
    } else if text == "" {
      FirstForm(block);
      UpsertPlaced(UpsertBlock(text, block), "", block, "");
    } else if Unmarked(text) {
      UnmarkedForm(text, block);
      UpsertPlaced(UpsertBlock(text, block), RStrip(text) + "\n\n", block, "");
    } else if Find(text, END) != -1 {
      StrayEndAppends(text, block);
    } else {
      StrayBeginCuts(text, block);
    }
  }

  /** Behind an END with no BEGIN before it, a block is appended and not found. */
  lemma StrayEndForm(text: string, block: string)
    requires IsBlock(block) && !HasBlock(text) && Find(text, END) != -1
    ensures var made := UpsertBlock(text, block);
            && made == RStrip(text) + "\n\n" + block
            && Find(made, END) == Find(text, END) && (Find(made, BEGIN) == -1 || Find(made, BEGIN) > Find(made, END))
  {
    hide BEGIN, END;
    MarksAreLines();
    var h := RStrip(text);
    var made := h + "\n\n" + block;
    var end := Find(text, END);
    MarkInBody(text, END, end);
    assert UpsertBlock(text, block) == made;
    forall k: nat | k <= end
      ensures (OccursAt(made, END, k) <==> OccursAt(text, END, k))
              && (OccursAt(made, BEGIN, k) <==> OccursAt(text, BEGIN, k))
    {
      AppendForm(text, block, END, k);
      AppendForm(text, block, BEGIN, k);
    }
    FindIs(made, END, end);
    assert Find(made, BEGIN) == -1 || Find(made, BEGIN) >= end;
    if Find(made, BEGIN) != -1 { MarksDiffer(made); }
  }

  /** The first BEGIN and the first END are at different places. */
  lemma MarksDiffer(text: string)
    requires Find(text, BEGIN) != -1
    ensures Find(text, BEGIN) != Find(text, END)
  {
    hide BEGIN, END;
    MarksAreLines();
    var i := Find(text, BEGIN);
    if i == Find(text, END) {
      assert BEGIN[..|END|] == text[i..i + |BEGIN|][..|END|] == text[i..i + |END|] == END;
      MarksAreApart(0);
    }
  }

  /** An END with no BEGIN before it makes every refresh append one more block. */
  lemma StrayEndAppends(text: string, block: string)
    requires IsBlock(block) && !HasBlock(text) && Find(text, END) != -1
    ensures |UpsertBlock(UpsertBlock(text, block), block)| > |UpsertBlock(text, block)|
  {
    hide BEGIN, END;
    MarksAreLines();
    StrayEndForm(text, block);
    var made := RStrip(text) + "\n\n" + block;
    assert |RStrip(made)| >= |made| - 1 by {
      var e := Find(block, END);
      assert made[|made| - 2] == block[|block| - 2] == END[|END| - 1];
    }
  }

  /** Where the marks are found when a block is appended after a BEGIN with no END. */
  lemma StrayBeginFound(text: string, block: string)
    requires IsBlock(block) && Find(text, BEGIN) != -1 && Find(text, END) == -1
    ensures var head := RStrip(text) + "\n\n";
            && Find(head + block + "", BEGIN) == Find(text, BEGIN)
            && Find(head + block + "", END) == |head| + |block| - |END| - 1
            && Find(text, BEGIN) + |BEGIN| <= |RStrip(text)|
  {
    hide BEGIN, END;
    MarksAreLines();
    var h := RStrip(text);
    var head := h + "\n\n";
    var made := head + block + "";
    MarkInBody(text, BEGIN, Find(text, BEGIN));
    assert made == h + "\n\n" + block;
    forall k: nat | k < |head|
      ensures (OccursAt(made, BEGIN, k) <==> OccursAt(text, BEGIN, k)) && !OccursAt(made, END, k)
    {
      AppendForm(text, block, BEGIN, k);
      AppendForm(text, block, END, k);
    }
    FindIs(made, BEGIN, Find(text, BEGIN));
    EndIsFound(head, block, "");
  }

  lemma Prefix(h: string, text: string, block: string, n: nat)
    requires h <= text && n <= |h|
    ensures (h + "\n\n" + block + "")[..n] == text[..n]
  {}

  /** After a BEGIN with no END, what is appended closes it. */
  lemma StrayBeginForm(text: string, block: string)
    requires IsBlock(block) && Find(text, BEGIN) != -1 && Find(text, END) == -1
    ensures var made, start := UpsertBlock(text, block), Find(text, BEGIN);
            && made == RStrip(text) + "\n\n" + block && start + |BEGIN| <= |RStrip(text)|
            && HasBlock(made) && Find(made, BEGIN) == start && made[..start] == text[..start] && TailOf(made) == ""
  {
    hide BEGIN, END;
    MarksAreLines();
    StrayBeginFound(text, block);
    assert text != "" by { hide *; }
    Appended(text, block);
    BlockSlices(RStrip(text) + "\n\n", block, "", "");
    Prefix(RStrip(text), text, block, Find(text, BEGIN));
    hide IsBlock, Find, LStrip, RStrip, UpsertBlock;
  }

  lemma Appended(text: string, block: string)
    requires !HasBlock(text) && text != ""
    ensures UpsertBlock(text, block) == RStrip(text) + "\n\n" + block == RStrip(text) + "\n\n" + block + ""
  {
    hide BEGIN, END;
    hide Find, RStrip;
  }

  /** A BEGIN with no END makes the second refresh cut what followed it. */
  lemma StrayBeginCuts(text: string, block: string)
    requires IsBlock(block) && Find(text, BEGIN) != -1 && Find(text, END) == -1
    ensures |UpsertBlock(UpsertBlock(text, block), block)| < |UpsertBlock(text, block)|
  {
    hide BEGIN, END;
    MarksAreLines();
    StrayBeginForm(text, block);
    hide IsBlock, Find, LStrip, RStrip, OccursAt, TailOf;
    var made, start := UpsertBlock(text, block), Find(text, BEGIN);
    assert UpsertBlock(made, block) == made[..start] + block + "";
  }

  // ---- Taking the block out

  /** Removing an inserted block gives a text without marks back, up to its
      trailing newlines: one remains, unless nothing else does. */
  lemma RemoveUndoesUpsert(text: string, block: string)
    requires Unmarked(text) && IsBlock(block)
    ensures RemoveBlock(UpsertBlock(text, block)) == if RStrip(text) == "" then "" else RStrip(text) + "\n"
  {
    hide BEGIN, END;
    hide IsBlock, Placed, RemoveBlock, UpsertBlock, Find;
    if text == "" {
      FirstForm(block);
      RemovePlaced(UpsertBlock(text, block), "", block, "");
    } else {
      UnmarkedForm(text, block);
      RemovePlaced(UpsertBlock(text, block), RStrip(text) + "\n\n", block, "");
    }
  }

  /** Where a block stood already, refreshing it does not change what removing it leaves. */
  lemma RemoveIgnoresRefresh(text: string, block: string)
    requires HasBlock(text) && IsBlock(block)
    ensures RemoveBlock(UpsertBlock(text, block)) == RemoveBlock(text)
  {
    hide BEGIN, END;
    RefreshForm(text, block);
    hide IsBlock, Placed, UpsertBlock, Joined;
    RemovePlaced(UpsertBlock(text, block), text[..Find(text, BEGIN)], block, TailOf(text));
  }

  /** The text on its own: one newline at its end, unless it is empty. */
  function Alone(text: string): string {
    if RStrip(text) == "" then "" else RStrip(text) + "\n"
  }

  lemma JoinedAlone(s: string)
    ensures Joined(RStrip(s), "") == Alone(s)
    ensures |RStrip(s)| <= |Alone(s)| <= |s| + 1 && (RStrip(s) != "" ==> |Alone(s)| == |RStrip(s)| + 1)
  {
    hide RStrip;
  }

  /** A block inserted into a text that had none is taken out again without a trace, up to
      trailing newlines, if and only if the text had no mark at all. */
  lemma RemoveUndoesUpsertIff(text: string, block: string)
    requires !HasBlock(text) && IsBlock(block)
    ensures RemoveBlock(UpsertBlock(text, block)) == Alone(text) <==> Unmarked(text)
  {
    hide BEGIN, END;
    if Unmarked(text) {
      RemoveUndoesUpsert(text, block);
    } else if Find(text, END) != -1 {
      StrayEndStays(text, block);
    } else {
      StrayBeginLoses(text, block);
    }
  }

  /** After an END with no BEGIN before it the block is never taken out. */
  lemma StrayEndStays(text: string, block: string)
    requires IsBlock(block) && !HasBlock(text) && Find(text, END) != -1
    ensures RemoveBlock(UpsertBlock(text, block)) == UpsertBlock(text, block)
            && |UpsertBlock(text, block)| > |Alone(text)|
  {
    hide BEGIN, END;
    StrayEndForm(text, block);
    hide IsBlock, Find, HasBlock;
  }

  /** After a BEGIN with no END all that followed the BEGIN goes with the block. */
  lemma StrayBeginLoses(text: string, block: string)
    requires IsBlock(block) && Find(text, BEGIN) != -1 && Find(text, END) == -1
    ensures RemoveBlock(UpsertBlock(text, block)) == Alone(text[..Find(text, BEGIN)])
    ensures |RemoveBlock(UpsertBlock(text, block))| < |Alone(text)|
  {
    hide BEGIN, END;
    MarksAreLines();
    StrayBeginForm(text, block);
    hide IsBlock, Find, LStrip, TailOf, RStrip;
    JoinedAlone(text[..Find(text, BEGIN)]);
    JoinedAlone(text);
  }
}
