/** The comparison of two annotated files: the ids of both files are merged
    into one de-duplicated list, split into common and exclusive ids, counted,
    and written as a two-column KEGG Mapper colour file. */
module Compare {
  import opened Text
  import opened Seqs
  import opened Extract
  import opened Wrappers

  /** KEGG Mapper colour of an id: yellow for ids in both files, blue for ids
      only in the first, red for ids only in the second. */
  datatype Color = Yellow | Blue | Red

  /** The colour's name as written in the map file; it reads back as the same
      colour and holds no tab or line break. */
  function ColorName(c: Color): (name: string)
    ensures ParseColor(name) == Some(c)
    ensures Tab !in name && '\n' !in name
  {
    match c
    case Yellow => "yellow"
    case Blue => "blue"
    case Red => "red"
  }

  /** Reads a colour name back; any other text is not a colour. */
  function ParseColor(name: string): Option<Color>
  {
    if name == "yellow" then Some(Yellow)
    else if name == "blue" then Some(Blue)
    else if name == "red" then Some(Red)
    else None
  }

  /** First line of every map file. */
  const Header: string := "KEGG_ID\tcolor"

  /** The sets `set1`, `set2`, `both`, `only1` and `only2` of the comparison. */
  datatype Partition = Partition(
    set1: set<string>, set2: set<string>,
    both: set<string>, only1: set<string>, only2: set<string>)

  /** Splits the ids of both files into common ids and the ids exclusive to
      each file. The three parts are disjoint, cover every id of either file,
      and their sizes add up to the sizes of the two files' sets. */
  function Classify(cid1: seq<string>, cid2: seq<string>): (p: Partition)
    ensures forall x :: x in p.both <==> x in cid1 && x in cid2
    ensures forall x :: x in p.only1 <==> x in cid1 && x !in cid2
    ensures forall x :: x in p.only2 <==> x in cid2 && x !in cid1
    ensures p.only1 !! p.only2 && p.only1 !! p.both && p.only2 !! p.both
    ensures p.only1 + p.only2 + p.both == Elems(cid1) + Elems(cid2)
    ensures |p.only1| + |p.both| == |Elems(cid1)|
    ensures |p.only2| + |p.both| == |Elems(cid2)|
    ensures |p.only1| + |p.only2| + |p.both| == |Elems(cid1) + Elems(cid2)|
  {
    var set1 := Elems(cid1);
    var set2 := Elems(cid2);
    var both := set1 * set2;
    var only1 := set1 - both;
    var only2 := set2 - both;
    PartitionSizes(set1, set2);
    Partition(set1, set2, both, only1, only2)
  }

  /** Sizes of the three parts of two sets: the part only in the first, the
      part only in the second, and the common part. */
  lemma {:induction false} PartitionSizes<T>(set1: set<T>, set2: set<T>)
    ensures |set1 - set1 * set2| + |set1 * set2| == |set1|
    ensures |set2 - set1 * set2| + |set1 * set2| == |set2|
    ensures |set1 - set1 * set2| + |set2 - set1 * set2| + |set1 * set2| == |set1 + set2|
  {
    var both := set1 * set2;
    var only1 := set1 - both;
    var only2 := set2 - both;
    assert set1 == only1 + both;
    assert set2 == only2 + both;
    assert set1 + set2 == (only1 + only2) + both;
    assert (only1 + only2) * both == {};
    assert only1 * only2 == {};
  }

  /** The colour of one id, tried in the order of the source's branches. */
  function ColorOf(p: Partition, id: string): Color
  {
    if id in p.both then Yellow
    else if id in p.set1 then Blue
    else Red
  }

  /** The colour of an id of either file says exactly where the id occurs:
      yellow in both files, blue in the first only, red in the second only. */
  lemma {:induction false} ColorOfClassifies(cid1: seq<string>, cid2: seq<string>, id: string)
    requires id in cid1 || id in cid2
    ensures ColorOf(Classify(cid1, cid2), id) == Yellow <==> id in cid1 && id in cid2
    ensures ColorOf(Classify(cid1, cid2), id) == Blue <==> id in cid1 && id !in cid2
    ensures ColorOf(Classify(cid1, cid2), id) == Red <==> id !in cid1 && id in cid2
  {
    var p := Classify(cid1, cid2);
    assert id in p.set1 <==> id in cid1;
  }

  /** A row is coloured as its id's occurrences call for: the id occurs in
      one of the files, and the colour is yellow exactly when it occurs in
      both, blue exactly when only in the first, red exactly when only in the
      second. */
  predicate ColoredByMembership(cid1: seq<string>, cid2: seq<string>, row: (string, Color))
  {
    && (row.0 in cid1 || row.0 in cid2)
    && (row.1 == Yellow <==> row.0 in cid1 && row.0 in cid2)
    && (row.1 == Blue <==> row.0 in cid1 && row.0 !in cid2)
    && (row.1 == Red <==> row.0 !in cid1 && row.0 in cid2)
  }

  /** The rows of the map, one per id of either file, in first-occurrence
      order over the first file followed by the second, each with the colour
      its membership in the two files calls for. */
  function Rows(cid1: seq<string>, cid2: seq<string>): (rows: seq<(string, Color)>)
    ensures |rows| == |Dedup(cid1 + cid2)|
    ensures forall i :: 0 <= i < |rows| ==> rows[i].0 == Dedup(cid1 + cid2)[i]
    ensures forall i :: 0 <= i < |rows| ==> ColoredByMembership(cid1, cid2, rows[i])
  {
    var p := Classify(cid1, cid2);
    var all := Dedup(cid1 + cid2);
    var rows := seq(|all|, i requires 0 <= i < |all| => (all[i], ColorOf(p, all[i])));
    assert forall i :: 0 <= i < |rows| ==> ColoredByMembership(cid1, cid2, rows[i]) by {
      forall i | 0 <= i < |rows|
        ensures ColoredByMembership(cid1, cid2, rows[i])
      {
        DedupMember(cid1 + cid2, all[i]);
        ColorOfClassifies(cid1, cid2, all[i]);
      }
    }
    rows
  }

  /** The order of the map rows: every id of the first file comes before
      every id found only in the second, the first file's ids keep the order
      of their first appearance in that file, and the second file's own ids
      keep the order of their first appearance in the second file. */
  lemma {:induction false} RowOrder(cid1: seq<string>, cid2: seq<string>)
    ensures forall i, j :: 0 <= i < j < |Dedup(cid1 + cid2)| && Dedup(cid1 + cid2)[j] in cid1 ==>
      && Dedup(cid1 + cid2)[i] in cid1
      && FirstIndex(cid1, Dedup(cid1 + cid2)[i]) < FirstIndex(cid1, Dedup(cid1 + cid2)[j])
    ensures forall i, j :: 0 <= i < j < |Dedup(cid1 + cid2)| && Dedup(cid1 + cid2)[i] !in cid1 ==>
      && Dedup(cid1 + cid2)[j] !in cid1
      && Dedup(cid1 + cid2)[i] in cid2 && Dedup(cid1 + cid2)[j] in cid2
      && FirstIndex(cid2, Dedup(cid1 + cid2)[i]) < FirstIndex(cid2, Dedup(cid1 + cid2)[j])
  {
    var s := cid1 + cid2;
    var all := Dedup(s);
    DedupFirstOccurrence(s);
    forall i | 0 <= i < |all|
      ensures all[i] in cid1 || all[i] in cid2
      ensures FirstIndex(s, all[i]) ==
        if all[i] in cid1 then FirstIndex(cid1, all[i]) else |cid1| + FirstIndex(cid2, all[i])
    {
      DedupMember(s, all[i]);
      FirstIndexAppend(cid1, cid2, all[i]);
    }
  }

  /** One row of the map file: `<id>\t<colour>`. */
  function RowLine(row: (string, Color)): string
  {
    row.0 + [Tab] + ColorName(row.1)
  }

  function RowLines(rows: seq<(string, Color)>): seq<string>
  {
    seq(|rows|, i requires 0 <= i < |rows| => RowLine(rows[i]))
  }

  /** The lines of the map file: the header, then one line per row. */
  function MapLines(rows: seq<(string, Color)>): seq<string>
  {
    [Header] + RowLines(rows)
  }

  /** The map file: its lines joined by single line breaks, with no line
      break at the end. */
  function MapText(rows: seq<(string, Color)>): string
  {
    Join(MapLines(rows), '\n')
  }

  /** Reads one `<id>\t<colour>` line back. */
  function ParseRow(line: string): Option<(string, Color)>
  {
    var f := Split(line, Tab);
    if |f| != 2 then None
    else
      match ParseColor(f[1])
      case None => None
      case Some(c) => Some((f[0], c))
  }

  function ParseRows(lines: seq<string>): Option<seq<(string, Color)>>
  {
    if lines == [] then Some([])
    else
      match ParseRow(lines[0])
      case None => None
      case Some(row) =>
        match ParseRows(lines[1..])
        case None => None
        case Some(rest) => Some([row] + rest)
  }

  /** Reads a map file back: its line breaks split it into lines, the first
      must be the header, and every other line must be a row. */
  function ParseMap(text: string): Option<seq<(string, Color)>>
  {
    var lines := Split(text, '\n');
    if lines[0] != Header then None
    else ParseRows(lines[1..])
  }

  predicate CleanIds(rows: seq<(string, Color)>)
  {
    forall i :: 0 <= i < |rows| ==> Tab !in rows[i].0 && '\n' !in rows[i].0
  }

  /** A row line with a clean id reads back as its row. */
  lemma {:induction false} ParseRowLine(row: (string, Color))
    requires Tab !in row.0 && '\n' !in row.0
    ensures ParseRow(RowLine(row)) == Some(row)
  {
    var name := ColorName(row.1);
    assert Join([row.0, name], Tab) == RowLine(row) by {
      assert [row.0, name][1..] == [name];
    }
    SplitJoin([row.0, name], Tab);
  }

  lemma {:induction false} ParseRowsOfLines(rows: seq<(string, Color)>)
    requires CleanIds(rows)
    ensures ParseRows(RowLines(rows)) == Some(rows)
    decreases |rows|
  {
    var lines := RowLines(rows);
    if rows != [] {
      ParseRowLine(rows[0]);
      assert lines[1..] == RowLines(rows[1..]);
      ParseRowsOfLines(rows[1..]);
      assert rows == [rows[0]] + rows[1..];
    }
  }

  /** The map file is exactly its lines joined by line breaks, with no line
      break at the end, and it reads back as the rows it was written from: the
      header line, then one `<id>\t<colour>` line per row, in order. */
  lemma {:induction false} MapTextRoundTrip(rows: seq<(string, Color)>)
    requires CleanIds(rows)
    ensures Split(MapText(rows), '\n') == MapLines(rows)
    ensures |Split(MapText(rows), '\n')| == 1 + |rows|
    ensures ParseMap(MapText(rows)) == Some(rows)
    ensures !EndsWithNewline(MapText(rows))
  {
    var lines := MapLines(rows);
    assert lines[|lines| - 1] != [] by {
      if |lines| > 1 {
        assert lines[|lines| - 1] == RowLine(rows[|rows| - 1]);
      }
    }
    forall i | 0 <= i < |lines|
      ensures '\n' !in lines[i]
    {
      if i > 0 {
        assert lines[i] == rows[i - 1].0 + [Tab] + ColorName(rows[i - 1].1);
      }
    }
    SplitJoin(lines, '\n');
    assert lines[1..] == RowLines(rows);
    ParseRowsOfLines(rows);
  }

  /** Rows built from extracted ids carry no tab or line break in their ids,
      so their map file reads back as the rows themselves. */
  lemma {:induction false} RowsOfWellFormedIds(cid1: seq<string>, cid2: seq<string>)
    requires AllWellFormed(cid1) && AllWellFormed(cid2)
    ensures Split(MapText(Rows(cid1, cid2)), '\n') == MapLines(Rows(cid1, cid2))
    ensures ParseMap(MapText(Rows(cid1, cid2))) == Some(Rows(cid1, cid2))
    ensures !EndsWithNewline(MapText(Rows(cid1, cid2)))
  {
    var rows := Rows(cid1, cid2);
    forall i | 0 <= i < |rows|
      ensures Tab !in rows[i].0 && '\n' !in rows[i].0
    {
      var id := rows[i].0;
      if id in cid1 {
        var k :| 0 <= k < |cid1| && cid1[k] == id;
      } else {
        var k :| 0 <= k < |cid2| && cid2[k] == id;
      }
    }
    MapTextRoundTrip(rows);
  }

  /** The total of the three parts is the number of distinct ids of the two
      files together, and the common part is the intersection of their sets. */
  lemma {:induction false} ClassifyCounts(cid1: seq<string>, cid2: seq<string>)
    ensures |Classify(cid1, cid2).only1| + |Classify(cid1, cid2).only2| + |Classify(cid1, cid2).both|
      == |Dedup(cid1 + cid2)|
    ensures |Classify(cid1, cid2).both| == |Elems(cid1) * Elems(cid2)|
  {
    DedupCard(cid1 + cid2);
    assert Elems(cid1 + cid2) == Elems(cid1) + Elems(cid2);
  }

  /** Two files without ids give no rows, so the map file is the header alone. */
  lemma {:induction false} EmptyRows(cid1: seq<string>, cid2: seq<string>)
    requires cid1 == [] && cid2 == []
    ensures Rows(cid1, cid2) == []
    ensures MapText(Rows(cid1, cid2)) == Header
  {
    assert cid1 + cid2 == [];
    assert MapLines([]) == [Header];
  }

  /** The outcome of a comparison: the number of ids exclusive to each file,
      the number of common ids, and the map file text. */
  datatype Report = Report(n1: nat, n2: nat, nCommon: nat, mapText: string)

  /** `compute` on the two id lists. */
  function ComputeIds(cid1: seq<string>, cid2: seq<string>): (r: Report)
    ensures r.n1 + r.nCommon == |Elems(cid1)|
    ensures r.n2 + r.nCommon == |Elems(cid2)|
    ensures r.n1 + r.n2 + r.nCommon == |Dedup(cid1 + cid2)|
    ensures r.nCommon == |Elems(cid1) * Elems(cid2)|
    ensures AllWellFormed(cid1) && AllWellFormed(cid2) ==>
      && ParseMap(r.mapText) == Some(Rows(cid1, cid2))
      && Split(r.mapText, '\n') == MapLines(Rows(cid1, cid2))
      && |Split(r.mapText, '\n')| == 1 + r.n1 + r.n2 + r.nCommon
      && !EndsWithNewline(r.mapText)
    ensures cid1 == [] && cid2 == [] ==> r == Report(0, 0, 0, Header)
  {
    var p := Classify(cid1, cid2);
    var rows := Rows(cid1, cid2);
    ClassifyCounts(cid1, cid2);
    var r := Report(|p.only1|, |p.only2|, |p.both|, MapText(rows));
    if cid1 == [] && cid2 == [] then
      EmptyRows(cid1, cid2);
      RowsOfWellFormedIds(cid1, cid2);
      r
    else if AllWellFormed(cid1) && AllWellFormed(cid2) then
      RowsOfWellFormedIds(cid1, cid2);
      r
    else
      r
  }

  /** `compute(f1_content, f2_content)`: extracts the ids of both files, the
      first file first, and compares them. An `IndexError` of either
      extraction ends the computation. */
  function Compute(text1: string, text2: string): (r: Result<Report, Error>)
    ensures r.Ok? <==>
      AllHaveIdField(SplitLines(text1)) && AllHaveIdField(SplitLines(text2))
    ensures r.Err? ==>
      if AllHaveIdField(SplitLines(text1))
      then IsFirstShortLine(SplitLines(text2), r.error.line)
      else IsFirstShortLine(SplitLines(text1), r.error.line)
    ensures r.Ok? ==>
      var cid1 := CidsOf(SplitLines(text1));
      var cid2 := CidsOf(SplitLines(text2));
      && r.value == ComputeIds(cid1, cid2)
      && ParseMap(r.value.mapText) == Some(Rows(cid1, cid2))
      && AllWellFormed(cid1) && AllWellFormed(cid2)
    ensures text1 == [] && text2 == [] ==> r == Ok(Report(0, 0, 0, Header))
  {
    match GetCid(text1)
    case Err(e) => Err(e)
    case Ok(cid1) =>
      match GetCid(text2)
      case Err(e) => Err(e)
      case Ok(cid2) => Ok(ComputeIds(cid1, cid2))
  }
}
