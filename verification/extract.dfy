/** Extraction of KEGG compound ids from one annotated file: every line is
    split on tabs, field 6 (0-based) is read, and the field is kept when it
    starts with 'C'. A line with fewer than seven fields makes the index
    fail, and that failure ends the extraction. */
module Extract {
  import opened Text
  import opened Seqs
  import opened Wrappers

  const Tab: char := '\t'

  /** 0-based index of the column holding the compound id. */
  const IdField: nat := 6

  /** Python's `IndexError` raised by `line.split("\t")[6]`, with the 0-based
      number of the offending line. */
  datatype Error = IndexError(line: nat)

  function Fields(line: string): seq<string>
  {
    Split(line, Tab)
  }

  predicate HasIdField(line: string)
  {
    |Fields(line)| > IdField
  }

  predicate AllHaveIdField(lines: seq<string>)
  {
    forall i :: 0 <= i < |lines| ==> HasIdField(lines[i])
  }

  /** `ID.startswith("C")`. */
  predicate IsCompoundId(f: string)
  {
    |f| > 0 && f[0] == 'C'
  }

  /** What every extracted id satisfies: it starts with 'C' and, coming from a
      tab split of one line, holds neither a tab nor a line break. */
  predicate WellFormedId(id: string)
  {
    IsCompoundId(id) && Tab !in id && '\n' !in id
  }

  predicate AllWellFormed(ids: seq<string>)
  {
    forall k :: 0 <= k < |ids| ==> WellFormedId(ids[k])
  }

  /** Line `k` is the first line of `lines` without a field 6: the line where
      `get_cid` raises. */
  predicate IsFirstShortLine(lines: seq<string>, k: nat)
  {
    k < |lines| && !HasIdField(lines[k]) && AllHaveIdField(lines[..k])
  }

  /** Field 6 of every line, in line order. */
  function IdColumn(lines: seq<string>): (col: seq<string>)
    requires AllHaveIdField(lines)
    ensures |col| == |lines|
  {
    if lines == [] then []
    else [Fields(lines[0])[IdField]] + IdColumn(lines[1..])
  }

  /** The ids of a file whose lines all have a field 6: the field-6 values
      that start with 'C', in line order, repeats kept. */
  function CidsOf(lines: seq<string>): seq<string>
    requires AllHaveIdField(lines)
  {
    Filter(IdColumn(lines), IsCompoundId)
  }

  /** The column of a concatenation is the concatenation of the columns. */
  lemma {:induction false} IdColumnAppend(a: seq<string>, b: seq<string>)
    requires AllHaveIdField(a) && AllHaveIdField(b)
    ensures AllHaveIdField(a + b)
    ensures IdColumn(a + b) == IdColumn(a) + IdColumn(b)
    decreases |a|
  {
    assert AllHaveIdField(a + b) by {
      forall i | 0 <= i < |a + b|
        ensures HasIdField((a + b)[i])
      {
        if i < |a| { assert (a + b)[i] == a[i]; } else { assert (a + b)[i] == b[i - |a|]; }
      }
    }
    if a == [] {
      assert a + b == b;
    } else {
      assert (a + b)[0] == a[0];
      assert (a + b)[1..] == a[1..] + b;
      IdColumnAppend(a[1..], b);
    }
  }

  /** Ids are extracted line by line: the ids of two blocks of lines are the
      ids of the first block followed by those of the second. */
  lemma {:induction false} CidsOfAppend(a: seq<string>, b: seq<string>)
    requires AllHaveIdField(a) && AllHaveIdField(b)
    ensures AllHaveIdField(a + b)
    ensures CidsOf(a + b) == CidsOf(a) + CidsOf(b)
  {
    IdColumnAppend(a, b);
    FilterAppend(IdColumn(a), IdColumn(b), IsCompoundId);
  }

  /** A single line contributes its field 6 when that starts with 'C', and
      nothing otherwise. */
  lemma {:induction false} CidsOfLine(line: string)
    requires HasIdField(line)
    ensures AllHaveIdField([line])
    ensures CidsOf([line]) ==
      if IsCompoundId(Fields(line)[IdField]) then [Fields(line)[IdField]] else []
  {
    assert [line][1..] == [];
    var col := IdColumn([line]);
    assert col == [Fields(line)[IdField]];
    assert Filter(col, IsCompoundId) ==
      (if IsCompoundId(col[0]) then [col[0]] else []) + Filter(col[1..], IsCompoundId);
  }

  /** An id is extracted exactly when it is the field 6 of some line and
      starts with 'C'. */
  lemma {:induction false} CidsOfMember(lines: seq<string>, id: string)
    requires AllHaveIdField(lines)
    ensures id in CidsOf(lines) <==>
      IsCompoundId(id) && exists i :: 0 <= i < |lines| && Fields(lines[i])[IdField] == id
    decreases |lines|
  {
    if lines != [] {
      var rest := lines[1..];
      assert lines == [lines[0]] + rest;
      CidsOfAppend([lines[0]], rest);
      CidsOfLine(lines[0]);
      CidsOfMember(rest, id);
      if id in CidsOf(rest) {
        var i :| 0 <= i < |rest| && Fields(rest[i])[IdField] == id;
        assert lines[i + 1] == rest[i];
      }
      if IsCompoundId(id) && exists i :: 0 <= i < |lines| && Fields(lines[i])[IdField] == id {
        var i :| 0 <= i < |lines| && Fields(lines[i])[IdField] == id;
        if i > 0 {
          assert rest[i - 1] == lines[i];
        }
      }
    }
  }

  /** Extracted ids are well formed: they start with 'C' and contain no tab
      and, when the lines contain no line break, no line break. */
  lemma {:induction false} CidsOfWellFormed(lines: seq<string>)
    requires AllHaveIdField(lines)
    requires forall i :: 0 <= i < |lines| ==> '\n' !in lines[i]
    ensures AllWellFormed(CidsOf(lines))
  {
    var ids := CidsOf(lines);
    forall k | 0 <= k < |ids|
      ensures WellFormedId(ids[k])
    {
      CidsOfMember(lines, ids[k]);
      var i :| 0 <= i < |lines| && Fields(lines[i])[IdField] == ids[k];
      SplitKeepsOut(lines[i], Tab, '\n');
    }
  }

  /** A file of one line, given by its tab-separated fields: it yields its
      field 6 when that starts with 'C' and nothing when it does not, and it
      raises on line 0 when it has fewer than seven fields. */
  lemma {:induction false} OneLineFile(fields: seq<string>)
    requires |fields| >= 1
    requires forall i :: 0 <= i < |fields| ==> Tab !in fields[i] && '\n' !in fields[i]
    requires Join(fields, Tab) != []
    ensures |fields| > IdField ==>
      GetCid(Join(fields, Tab)) == Ok(if IsCompoundId(fields[IdField]) then [fields[IdField]] else [])
    ensures |fields| <= IdField ==> GetCid(Join(fields, Tab)) == Err(IndexError(0))
  {
    var line := Join(fields, Tab);
    SplitJoin(fields, Tab);
    JoinKeepsOut(fields, Tab, '\n');
    SplitOfSepFree(line, '\n');
    assert SplitLines(line) == [line];
    if |fields| > IdField {
      CidsOfLine(line);
    }
  }

  /** The loop of `get_cid` from line `k` on, `acc` being the ids collected
      from lines `0 .. k - 1`. It stops with an `IndexError` at the first line
      that has no field 6. */
  function CollectFrom(lines: seq<string>, k: nat, acc: seq<string>): (r: Result<seq<string>, Error>)
    requires k <= |lines|
    requires AllHaveIdField(lines[..k]) && acc == CidsOf(lines[..k])
    ensures r.Ok? <==> AllHaveIdField(lines)
    ensures r.Ok? ==> r.value == CidsOf(lines)
    ensures r.Err? ==> k <= r.error.line && IsFirstShortLine(lines, r.error.line)
    decreases |lines| - k
  {
    if k == |lines| then
      assert lines[..k] == lines;
      Ok(acc)
    else if !HasIdField(lines[k]) then
      Err(IndexError(k))
    else
      var id := Fields(lines[k])[IdField];
      assert lines[..k + 1] == lines[..k] + [lines[k]];
      CidsOfAppend(lines[..k], [lines[k]]);
      CidsOfLine(lines[k]);
      CollectFrom(lines, k + 1, if IsCompoundId(id) then acc + [id] else acc)
  }

  /** `get_cid(data)`: the compound ids of one file, or the `IndexError` of
      its first line without a field 6. */
  function GetCid(data: string): (r: Result<seq<string>, Error>)
    ensures r.Ok? <==> AllHaveIdField(SplitLines(data))
    ensures r.Ok? ==> r.value == CidsOf(SplitLines(data))
    ensures r.Ok? ==> |r.value| <= |SplitLines(data)|
    ensures r.Ok? ==> AllWellFormed(r.value)
    ensures r.Err? ==> IsFirstShortLine(SplitLines(data), r.error.line)
    ensures data == [] ==> r == Ok([])
  {
    var lines := SplitLines(data);
    assert lines[..0] == [];
    var r := CollectFrom(lines, 0, []);
    if r.Ok? then
      CidsOfWellFormed(lines);
      r
    else
      r
  }
}
