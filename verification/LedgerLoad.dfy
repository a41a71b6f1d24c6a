/** Loading the ledger: one node per id, merged from its rows by timestamp. */
module LedgerLoad {
  import opened Options
  import opened JsonValues

  type Id = Json

  /** Fields a later row replaces only with a value that is true. */
  datatype Text = RunId | Model | Tier | Task | Provider | ParentId | EdgeType | Status | GateReason

  /** Fields a later row replaces with any value that is not null. */
  datatype Datum = Seconds | SubscriptionCalls | Effort | InputTokens | OutputTokens | CacheRead | CacheWrite
                 | FilesCreated | Verdict | Cwd | Source

  /** A row of the log: a missing id or stamp is the empty string, a missing text is
      no key, and a datum that is null or missing is none either. */
  datatype Row = Row(id: Id, stamp: Json, texts: map<Text, Json>, data: map<Datum, Json>)

  datatype Node = Node(stamp: Json, texts: map<Text, Json>, data: map<Datum, Json>)

  datatype Line = Blank | NotJson | Undecodable | NotObject | Record(row: Row)

  datatype Loaded = Loaded(nodes: map<Id, Node>, warnings: nat) | Raised

  /** Is a new stamp later than the one a node has?  None where the comparison raises. */
  function Later(stamp: Json, was: Json): Option<bool> {
    Greater(OrEmpty(stamp), OrEmpty(was))
  }

  function Get(texts: map<Text, Json>, f: Text): Json {
    if f in texts then texts[f] else Null
  }

  /** `tuple(v)`: the characters of a text, the items of a list, the keys of an object, which stands for them. */
  function AsTuple(v: Json): Json {
    if v.Word? then Items(seq(|v.s|, i requires 0 <= i < |v.s| => Word([v.s[i]]))) else v
  }

  /** A number has no items to make a tuple of. */
  predicate Readable(row: Row) {
    FilesCreated in row.data ==> !row.data[FilesCreated].Number?
  }

  /** A datum of the row as the node keeps it. */
  function Read(row: Row, f: Datum): Json
    requires f in row.data
  {
    if f.FilesCreated? then AsTuple(row.data[f]) else row.data[f]
  }

  /** The node of an id's first row: only a missing status has a default. */
  function First(row: Row): Node {
    Node(row.stamp, if Status in row.texts then row.texts else row.texts[Status := Word("unknown")],
         map f | f in row.data :: Read(row, f))
  }

  /** The node after a later row. */
  function Merge(row: Row, node: Node): Node {
    Node(row.stamp,
         map f | f in node.texts.Keys + row.texts.Keys ::
           if Truthy(Get(row.texts, f)) then row.texts[f] else Get(node.texts, f),
         map f | f in node.data.Keys + row.data.Keys :: if f in row.data then Read(row, f) else node.data[f])
  }

  /** The nodes after one more row; None where adding it raises. */
  function AddRow(nodes: map<Id, Node>, row: Row): Option<map<Id, Node>> {
    if !Hashable(row.id) then None
    else if row.id !in nodes then if Readable(row) then Some(nodes[row.id := First(row)]) else None
    else
      var later := Later(row.stamp, nodes[row.id].stamp);
      if later.None? then None
      else if !later.value then Some(nodes)
      else if Readable(row) then Some(nodes[row.id := Merge(row, nodes[row.id])])
      else None
  }

  function Fold(rows: seq<Row>): Option<map<Id, Node>> {
    if rows == [] then Some(map[])
    else
      var nodes := Fold(rows[..|rows| - 1]);
      if nodes.None? then None else AddRow(nodes.value, rows[|rows| - 1])
  }

  function Rows(lines: seq<Line>): seq<Row> {
    if lines == [] then []
    else Rows(lines[..|lines| - 1]) +
         if lines[|lines| - 1].Record? then [lines[|lines| - 1].row] else []
  }

  function BadLines(lines: seq<Line>): nat {
    if lines == [] then 0
    else BadLines(lines[..|lines| - 1]) + if lines[|lines| - 1].NotJson? then 1 else 0
  }

  lemma LineNext(lines: seq<Line>, i: nat)
    requires i < |lines|
    ensures Rows(lines[..i + 1]) == if lines[i].Record? then Rows(lines[..i]) + [lines[i].row] else Rows(lines[..i])
    ensures BadLines(lines[..i + 1]) == BadLines(lines[..i]) + if lines[i].NotJson? then 1 else 0
    ensures forall line :: line in lines[..i + 1] <==> line in lines[..i] || line == lines[i]
  {
    assert lines[..i + 1][..i] == lines[..i];
    assert lines[..i + 1] == lines[..i] + [lines[i]];
    assert Rows(lines[..i]) + [] == Rows(lines[..i]);
  }

  lemma FoldNext(rows: seq<Row>, row: Row)
    ensures Fold(rows + [row]) == if Fold(rows).None? then None else AddRow(Fold(rows).value, row)
  {
    assert (rows + [row])[..|rows|] == rows;
    hide AddRow;
  }

  lemma {:induction false} FoldStops(rows: seq<Row>, more: seq<Row>)
    requires Fold(rows).None?
    ensures Fold(rows + more).None?
    decreases |more|
  {
    if more == [] {
      assert rows + more == rows;
    } else {
      FoldStops(rows, more[..|more| - 1]);
      assert (rows + more)[..|rows + more| - 1] == rows + more[..|more| - 1];
      hide AddRow;
    }
  }

  lemma {:induction false} RowsOn(lines: seq<Line>, i: nat) returns (more: seq<Row>)
    requires i <= |lines|
    ensures Rows(lines) == Rows(lines[..i]) + more
    decreases |lines|
  {
    if i == |lines| {
      more := [];
      assert lines[..i] == lines;
    } else {
      var front := lines[..|lines| - 1];
      more := RowsOn(front, i);
      assert front[..i] == lines[..i];
      var last := if lines[|lines| - 1].Record? then [lines[|lines| - 1].row] else [];
      assert Rows(lines) == Rows(front) + last == Rows(lines[..i]) + (more + last);
      more := more + last;
    }
  }

  predicate Raises(line: Line) {
    line.Undecodable? || line.NotObject?
  }

  /** One record; None when it raises. */
  method AddRecord(nodes: map<Id, Node>, row: Row) returns (r: Option<map<Id, Node>>)
    ensures r == AddRow(nodes, row)
  {
    if !Hashable(row.id) || (row.id in nodes && Later(row.stamp, nodes[row.id].stamp).None?) {
      return None;
    }
    if row.id in nodes && !Later(row.stamp, nodes[row.id].stamp).value {
      return Some(nodes);
    }
    if !Readable(row) {
      return None;
    }
    return Some(nodes[row.id := if row.id in nodes then Merge(row, nodes[row.id]) else First(row)]);
  }

  /** Bad JSON is counted and skipped.  A line that is no text or no object ends the
      load with an exception, and so does a row that cannot be added. */
  method Load(lines: seq<Line>) returns (r: Loaded)
    ensures r.Raised? <==>
            (exists line :: line in lines && (line.Undecodable? || line.NotObject?)) || Fold(Rows(lines)).None?
    ensures r.Loaded? ==> Fold(Rows(lines)) == Some(r.nodes)
    ensures r.Loaded? ==> r.warnings == |set i | 0 <= i < |lines| && lines[i].NotJson?|
  {
    hide Rows, BadLines, Fold, AddRow;
    var nodes: map<Id, Node> := map[];
    var warnings := 0;
    NothingLoaded(lines);
    for i := 0 to |lines|
      invariant forall line | line in lines[..i] :: !Raises(line)
      invariant Fold(Rows(lines[..i])) == Some(nodes) && warnings == BadLines(lines[..i])
    {
      LineNext(lines, i);
      assert lines[i] in lines;
      match lines[i] {
        case Blank =>
        case NotJson =>
          warnings := warnings + 1;
        case Undecodable =>
          return Raised;
        case NotObject =>
          return Raised;
        case Record(row) =>
          FoldNext(Rows(lines[..i]), row);
          var added := AddRecord(nodes, row);
          if added.None? {
            StopsForGood(lines, i + 1);
            return Raised;
          }
          nodes := added.value;
      }
    }
    assert lines[..|lines|] == lines;
    BadLinesCount(lines);
    r := Loaded(nodes, warnings);
  }

  lemma NothingLoaded(lines: seq<Line>)
    ensures Fold(Rows(lines[..0])) == Some(map[]) && BadLines(lines[..0]) == 0
  {}

  lemma {:induction false} BadLinesCount(lines: seq<Line>)
    ensures BadLines(lines) == |set i | 0 <= i < |lines| && lines[i].NotJson?|
  {
    if lines != [] {
      var n := |lines| - 1;
      BadLinesCount(lines[..n]);
      var bad, front := set i | 0 <= i < |lines| && lines[i].NotJson?, set i | 0 <= i < n && lines[..n][i].NotJson?;
      assert bad == front + if lines[n].NotJson? then {n} else {};
    }
  }

  lemma StopsForGood(lines: seq<Line>, i: nat)
    requires i <= |lines| && Fold(Rows(lines[..i])).None?
    ensures Fold(Rows(lines)).None?
  {
    var more := RowsOn(lines, i);
    FoldStops(Rows(lines[..i]), more);
  }

  // ---- Replaying

  /** An id has a node exactly when a row bears it, with the stamp of one of its rows,
      and no other row of it is later. */
  lemma {:induction false} LatestStamp(rows: seq<Row>, id: Id)
    requires Fold(rows).Some?
    ensures id in Fold(rows).value <==> exists row :: row in rows && row.id == id
    ensures id in Fold(rows).value ==>
              exists row :: row in rows && row.id == id && row.stamp == Fold(rows).value[id].stamp
    ensures forall row | row in rows && row.id == id ::
              row.stamp == Fold(rows).value[id].stamp || Later(row.stamp, Fold(rows).value[id].stamp) == Some(false)
  {
    if rows != [] {
      var front, last := rows[..|rows| - 1], rows[|rows| - 1];
      LatestStamp(front, id);
      assert forall row :: row in rows <==> row in front || row == last;
      hide First, Greater, OrEmpty;
      if last.id == id && id in Fold(front).value {
        var was, now := Fold(front).value[id].stamp, Fold(rows).value[id].stamp;
        if Later(last.stamp, was) == Some(true) {
          forall row | row in front && row.id == id ensures Later(row.stamp, now) == Some(false) {
            LaterThrough(row.stamp, was, last.stamp);
          }
        }
      }
    }
  }

  lemma LaterThrough(x: Json, was: Json, now: Json)
    requires Later(now, was) == Some(true) && (x == was || Later(x, was) == Some(false))
    ensures Later(now, x) == Some(true) && Later(x, now) == Some(false)
  {
    if x != was {
      GreaterThrough(OrEmpty(x), OrEmpty(was), OrEmpty(now));
    }
    GreaterOneWay(OrEmpty(now), OrEmpty(x));
  }

  /** Appending rows the log already has changes no node, whatever their stamps and
      order, if and only if none of those rows has an object for a stamp; then it raises. */
  lemma {:induction false} ReplayChangesNothing(rows: seq<Row>, again: seq<Row>)
    requires Fold(rows).Some? && forall row | row in again :: row in rows
    ensures Fold(rows + again) == Fold(rows) <==> forall row | row in again :: !OrEmpty(row.stamp).Object?
    ensures Fold(rows + again) == Fold(rows) || Fold(rows + again).None?
    decreases |again|
  {
    if again == [] {
      assert rows + again == rows;
    } else {
      var front, last := again[..|again| - 1], again[|again| - 1];
      ReplayChangesNothing(rows, front);
      assert (rows + again)[..|rows + again| - 1] == rows + front;
      assert last in again && forall row :: row in again <==> row in front || row == last;
      LatestStamp(rows, last.id);
      LoadedAreHashable(rows, last);
      GreaterItself(OrEmpty(last.stamp));
      hide First, Merge;
    }
  }

  lemma {:induction false} LoadedAreHashable(rows: seq<Row>, row: Row)
    requires Fold(rows).Some? && row in rows
    ensures Hashable(row.id)
  {
    if row != rows[|rows| - 1] {
      LoadedAreHashable(rows[..|rows| - 1], row);
    }
  }

  // ---- When adding the rows raises

  /** The row is the first of its id, or later than all before it. */
  predicate Counts(rows: seq<Row>, i: nat)
    requires i < |rows|
  {
    forall j | 0 <= j < i && rows[j].id == rows[i].id :: Later(rows[i].stamp, rows[j].stamp) == Some(true)
  }

  /** A row counts exactly when the merge takes it. */
  lemma CountsIsTaken(rows: seq<Row>)
    requires rows != [] && Fold(rows[..|rows| - 1]).Some?
    ensures var nodes, last := Fold(rows[..|rows| - 1]).value, rows[|rows| - 1];
            Counts(rows, |rows| - 1) <==> last.id !in nodes || Later(last.stamp, nodes[last.id].stamp) == Some(true)
  {
    var n := |rows| - 1;
    var front, last := rows[..n], rows[n];
    LatestStamp(front, last.id);
    assert forall j | 0 <= j < n :: front[j] == rows[j] && rows[j] in front;
    if last.id in Fold(front).value {
      var was := Fold(front).value[last.id].stamp;
      if Later(last.stamp, was) == Some(true) {
        forall j | 0 <= j < n && rows[j].id == last.id ensures Later(last.stamp, rows[j].stamp) == Some(true) {
          LaterThrough(rows[j].stamp, was, last.stamp);
        }
      }
    }
    hide Later, First, Merge;
  }

  /** Row j is the last one of the id among the first n that counts. */
  predicate Deciding(rows: seq<Row>, n: nat, id: Id, j: nat)
    requires n <= |rows|
  {
    j < n && rows[j].id == id && Counts(rows, j) && forall k | j < k < n && rows[k].id == id :: !Counts(rows, k)
  }

  lemma CountsInFront(rows: seq<Row>, n: nat)
    requires n <= |rows|
    ensures forall i | 0 <= i < n :: Counts(rows[..n], i) == Counts(rows, i)
  {
    hide Later;
  }

  /** A node's stamp is that of its id's last row that counts. */
  lemma {:induction false} DecidingStamp(rows: seq<Row>, id: Id) returns (j: nat)
    requires Fold(rows).Some? && id in Fold(rows).value
    ensures Deciding(rows, |rows|, id, j) && rows[j].stamp == Fold(rows).value[id].stamp
  {
    var n := |rows| - 1;
    CountsInFront(rows, n);
    CountsIsTaken(rows);
    hide Later, First, Merge, Counts;
    if rows[n].id == id && Counts(rows, n) {
      j := n;
    } else {
      j := DecidingStamp(rows[..n], id);
    }
  }

  /** Adding row i after those before it raises: its id cannot be a key, its stamp
      cannot be compared with the one that decides, or it is taken and its files cannot be read. */
  predicate Spoils(rows: seq<Row>, i: nat)
    requires i < |rows|
  {
    || rows[i].id.Items? || rows[i].id.Object?
    || (exists j :: 0 <= j < i && Deciding(rows, i, rows[i].id, j) && Later(rows[i].stamp, rows[j].stamp).None?)
    || (Counts(rows, i) && FilesCreated in rows[i].data && rows[i].data[FilesCreated].Number?)
  }

  /** At most one row decides. */
  lemma OneDecides(rows: seq<Row>, n: nat, id: Id, j: nat)
    requires n <= |rows| && Deciding(rows, n, id, j)
    ensures forall k | 0 <= k < n && Deciding(rows, n, id, k) :: k == j
  {
    hide Counts;
  }

  /** For the first row that could spoil the load. */
  lemma LastSpoils(rows: seq<Row>)
    requires rows != [] && Fold(rows[..|rows| - 1]).Some?
    ensures Fold(rows).None? <==> Spoils(rows, |rows| - 1)
  {
    var n := |rows| - 1;
    var front, last := rows[..n], rows[n];
    CountsIsTaken(rows);
    CountsInFront(rows, n);
    assert rows == front + [last];
    FoldNext(front, last);
    LatestStamp(front, last.id);
    hide Fold, Later, First, Merge, Counts;
    if last.id in Fold(front).value {
      var j := DecidingStamp(front, last.id);
      assert Deciding(rows, n, last.id, j);
      OneDecides(rows, n, last.id, j);
      hide Deciding;
    } else {
      forall k: nat ensures !Deciding(rows, n, last.id, k) {
        assert k < n ==> front[k] == rows[k] && rows[k] in front;
      }
      hide Deciding;
    }
  }

  lemma SpoilsInFront(rows: seq<Row>, n: nat)
    requires n <= |rows|
    ensures forall i | 0 <= i < n :: Spoils(rows[..n], i) == Spoils(rows, i)
  {
    CountsInFront(rows, n);
    hide Later, Counts, Readable;
    forall i, j | 0 <= j < i < n ensures Deciding(rows[..n], i, rows[i].id, j) == Deciding(rows, i, rows[i].id, j) {}
  }

  /** For every log: adding the rows raises if and only if one of them spoils it. */
  lemma {:induction false} FoldRaisesIff(rows: seq<Row>)
    ensures Fold(rows).None? <==> exists i :: 0 <= i < |rows| && Spoils(rows, i)
  {
    hide Spoils, Fold;
    if rows == [] {
      FoldNothing();
    } else {
      var n := |rows| - 1;
      var front := rows[..n];
      FoldRaisesIff(front);
      SpoilsInFront(rows, n);
      if Fold(front).Some? {
        LastSpoils(rows);
      } else {
        FoldStops(front, [rows[n]]);
        assert front + [rows[n]] == rows;
      }
      if i :| 0 <= i < n && Spoils(front, i) {
        assert Spoils(rows, i);
      }
    }
  }

  lemma FoldNothing()
    ensures Fold([]).Some?
  {}

  /** Two rows of an id, one with a number for a stamp and one with a text or none, cannot be compared. */
  predicate Clash(a: Row, b: Row) {
    a.id == b.id && OrEmpty(a.stamp).Number? != OrEmpty(b.stamp).Number?
  }

  /** No stamp is a list or an object. */
  predicate ScalarStamps(rows: seq<Row>) {
    forall row | row in rows :: !row.stamp.Items? && !row.stamp.Object?
  }

  lemma ScalarsCompare(a: Json, b: Json)
    requires !a.Items? && !a.Object? && !b.Items? && !b.Object?
    ensures Later(a, b).None? <==> OrEmpty(a).Number? != OrEmpty(b).Number?
  {}

  /** With stamps that are texts, numbers, null or missing: if and only if some id is a list or
      an object, two rows of one id clash, or a row that counts has files that cannot be read. */
  lemma ScalarsRaiseIff(rows: seq<Row>)
    requires ScalarStamps(rows)
    ensures Fold(rows).None? <==>
            || (exists row :: row in rows && !Hashable(row.id))
            || (exists a, b :: a in rows && b in rows && Clash(a, b))
            || (exists i :: 0 <= i < |rows| && Counts(rows, i) && !Readable(rows[i]))
  {
    FoldRaisesIff(rows);
    hide Later, Counts, Fold, OrEmpty;
    forall i | 0 <= i < |rows| && Spoils(rows, i)
      ensures || (exists row :: row in rows && !Hashable(row.id))
              || (exists a, b :: a in rows && b in rows && Clash(a, b))
              || (exists i :: 0 <= i < |rows| && Counts(rows, i) && !Readable(rows[i]))
    {
      if j :| 0 <= j < i && Deciding(rows, i, rows[i].id, j) && Later(rows[i].stamp, rows[j].stamp).None? {
        ScalarsCompare(rows[i].stamp, rows[j].stamp);
        assert Clash(rows[i], rows[j]);
      }
    }
    forall row | row in rows && !Hashable(row.id) ensures exists i :: 0 <= i < |rows| && Spoils(rows, i) {
      var i :| 0 <= i < |rows| && rows[i] == row;
      assert Spoils(rows, i);
    }
    assert forall i | 0 <= i < |rows| && Counts(rows, i) && !Readable(rows[i]) :: Spoils(rows, i);
    if Fold(rows).Some? {
      forall a, b | a in rows && b in rows ensures !Clash(a, b) { NoClash(rows, a, b); }
    }
  }

  /** What loads has no clash. */
  lemma NoClash(rows: seq<Row>, a: Row, b: Row)
    requires Fold(rows).Some? && ScalarStamps(rows) && a in rows && b in rows
    ensures !Clash(a, b)
  {
    if a.id == b.id {
      LatestStamp(rows, a.id);
      hide Later, OrEmpty, Fold;
      var stamp := Fold(rows).value[a.id].stamp;
      var row :| row in rows && row.id == a.id && row.stamp == stamp;
      ScalarsCompare(a.stamp, stamp);
      ScalarsCompare(b.stamp, stamp);
    }
  }

  // ---- What a merged field is

  /** The last text that is true among the rows of the id that count, or what its
      first row had; a status that its first row lacks is unknown. */
  function LastText(rows: seq<Row>, id: Id, f: Text): Json {
    if rows == [] then Null
    else
      var n := |rows| - 1;
      if rows[n].id != id || !Counts(rows, n) then LastText(rows[..n], id, f)
      else if forall j | 0 <= j < n :: rows[j].id != id then
        if f.Status? && f !in rows[n].texts then Word("unknown") else Get(rows[n].texts, f)
      else if Truthy(Get(rows[n].texts, f)) then rows[n].texts[f]
      else LastText(rows[..n], id, f)
  }

  /** The last non-null value among the rows of the id that count. */
  function LastDatum(rows: seq<Row>, id: Id, f: Datum): Option<Json> {
    if rows == [] then None
    else
      var n := |rows| - 1;
      if rows[n].id != id || !Counts(rows, n) || f !in rows[n].data then LastDatum(rows[..n], id, f)
      else Some(Read(rows[n], f))
  }

  function DatumOf(node: Node, f: Datum): Option<Json> {
    if f in node.data then Some(node.data[f]) else None
  }

  /** A row's value is kept as it is, but that a text for the files is kept as its letters. */
  lemma KeptAs(row: Row, f: Datum)
    requires f in row.data
    ensures f != FilesCreated || !row.data[f].Word? ==> Read(row, f) == row.data[f]
    ensures f == FilesCreated && row.data[f].Word? ==>
              var s := row.data[f].s;
              && Read(row, f).Items? && |Read(row, f).items| == |s|
              && forall i | 0 <= i < |s| :: Read(row, f).items[i] == Word(s[i..i + 1])
  {}

  lemma MergeFields(row: Row, node: Node)
    ensures forall f :: Get(Merge(row, node).texts, f) ==
                        if Truthy(Get(row.texts, f)) then row.texts[f] else Get(node.texts, f)
    ensures forall f :: DatumOf(Merge(row, node), f) == if f in row.data then Some(Read(row, f)) else DatumOf(node, f)
  {}

  /** For every log, in any stamp order, each field of a loaded node is the last
      true, or non-null, value among the rows that count. */
  lemma {:induction false} FieldsAreLast(rows: seq<Row>, id: Id)
    requires Fold(rows).Some? && id in Fold(rows).value
    ensures forall f :: Get(Fold(rows).value[id].texts, f) == LastText(rows, id, f)
    ensures forall f :: DatumOf(Fold(rows).value[id], f) == LastDatum(rows, id, f)
  {
    var n := |rows| - 1;
    var front, last := rows[..n], rows[n];
    CountsIsTaken(rows);
    LatestStamp(front, id);
    assert forall j | 0 <= j < n :: front[j] == rows[j] && rows[j] in front;
    assert id in Fold(front).value <==> exists j :: 0 <= j < n && rows[j].id == id;
    hide Later, Counts;
    if rows[n].id in Fold(front).value {
      MergeFields(rows[n], Fold(front).value[rows[n].id]);
    }
    hide Merge;
    if id in Fold(front).value {
      FieldsAreLast(front, id);
    } else {
      NoneYet(front, id);
    }
  }

  lemma {:induction false} NoneYet(rows: seq<Row>, id: Id)
    requires forall row | row in rows :: row.id != id
    ensures forall f :: LastDatum(rows, id, f) == None
  {
    if rows != [] {
      assert rows[|rows| - 1] in rows;
      NoneYet(rows[..|rows| - 1], id);
    }
  }

  ghost predicate Increasing(rows: seq<Row>) {
    forall j, k | 0 <= j < k < |rows| && rows[j].id == rows[k].id :: Later(rows[k].stamp, rows[j].stamp) == Some(true)
  }

  /** Rows whose stamps grow for each id load if and only if the ids can be keys and all files can be read. */
  lemma IncreasingLoadsIff(rows: seq<Row>)
    requires Increasing(rows)
    ensures Fold(rows).Some? <==> forall row | row in rows :: Hashable(row.id) && Readable(row)
  {
    FoldRaisesIff(rows);
    forall i | 0 <= i < |rows| ensures Spoils(rows, i) <==> !Hashable(rows[i].id) || !Readable(rows[i]) {
      hide Later;
    }
    hide Spoils, Fold, Readable, Hashable, Increasing;
    forall i | 0 <= i < |rows| ensures rows[i] in rows {}
  }

  /** When the stamps grow for each id, the last row of an id with a value for a
      field decides it, wherever the rows of other ids stand. */
  lemma {:induction false} LastWriterWins(rows: seq<Row>, i: nat)
    requires Increasing(rows) && i < |rows| && Fold(rows).Some?
    ensures rows[i].id in Fold(rows).value
    ensures forall f | f in rows[i].data &&
                       (forall j | i < j < |rows| && rows[j].id == rows[i].id :: f !in rows[j].data) ::
              DatumOf(Fold(rows).value[rows[i].id], f) == Some(Read(rows[i], f))
    ensures forall f | Truthy(Get(rows[i].texts, f)) &&
                       (forall j | i < j < |rows| && rows[j].id == rows[i].id :: !Truthy(Get(rows[j].texts, f))) ::
              Get(Fold(rows).value[rows[i].id].texts, f) == rows[i].texts[f]
    decreases |rows|
  {
    var n := |rows| - 1;
    var front := rows[..n];
    CountsIsTaken(rows);
    assert Counts(rows, n);
    assert Increasing(front) && forall j | 0 <= j < n :: front[j] == rows[j];
    hide Later, Counts, Increasing;
    if i < n {
      LastWriterWins(front, i);
      assert rows[i].id in Fold(front).value;
      if rows[n].id == rows[i].id {
        MergeFields(rows[n], Fold(front).value[rows[i].id]);
      }
      hide Get, DatumOf, Truthy, Merge;
    } else {
      NewestRowWins(rows);
    }
  }

  lemma NewestRowWins(rows: seq<Row>)
    requires rows != [] && Fold(rows).Some? && Counts(rows, |rows| - 1)
    ensures var last := rows[|rows| - 1];
            && last.id in Fold(rows).value
            && (forall f | f in last.data :: DatumOf(Fold(rows).value[last.id], f) == Some(Read(last, f)))
            && (forall f | Truthy(Get(last.texts, f)) :: Get(Fold(rows).value[last.id].texts, f) == last.texts[f])
  {
    CountsIsTaken(rows);
    hide Later, Counts;
    var front, last := rows[..|rows| - 1], rows[|rows| - 1];
    if last.id in Fold(front).value {
      MergeFields(last, Fold(front).value[last.id]);
      hide Merge;
    }
  }
}
