/** Worked examples of the comparison on small concrete files. */
module Scenarios {
  import opened Text
  import opened Seqs
  import opened Extract
  import opened Compare
  import opened Wrappers

  /** Joining one more part in front of a non-empty list. */
  lemma {:induction false} JoinCons(p: string, rest: seq<string>, sep: char)
    requires |rest| >= 1
    ensures Join([p] + rest, sep) == p + [sep] + Join(rest, sep)
  {
    assert ([p] + rest)[1..] == rest;
  }

  lemma {:induction false} ThreeFields()
    ensures Split("a\tb\tc", Tab) == ["a", "b", "c"]
  {
    var fields := ["a", "b", "c"];
    JoinCons("b", ["c"], Tab);
    assert Join(["b", "c"], Tab) == "b\tc";
    assert fields == ["a"] + ["b", "c"];
    JoinCons("a", ["b", "c"], Tab);
    assert Join(fields, Tab) == "a\tb\tc";
    SplitJoin(fields, Tab);
  }

  /** The map line of an id and a colour. */
  lemma {:induction false} RowLineText(id: string, c: Color)
    ensures RowLine((id, c)) == id + "\t" + ColorName(c)
  {
    assert "\t" == [Tab];
  }

  /** A line with three fields has no field 6: extraction fails on line 0
      rather than skipping it. */
  lemma {:induction false} ShortLineRaises()
    ensures GetCid("a\tb\tc") == Err(IndexError(0))
  {
    var line := "a\tb\tc";
    ThreeFields();
    assert SplitLines(line) == [line] by {
      SplitOfSepFree(line, '\n');
    }
    assert !HasIdField(line);
  }

  lemma {:induction false} RepeatedDedup<T>(x: T)
    ensures Dedup([x, x] + []) == [x]
  {
    assert [x, x] + [] == [x] + [x];
    assert Dedup([x]) == [x] by {
      DedupSnoc([], x);
      assert [] + [x] == [x];
    }
    DedupSnoc([x], x);
  }

  lemma {:induction false} RepeatedRows(x: string)
    ensures Rows([x, x], []) == [(x, Blue)]
  {
    RepeatedDedup(x);
    var rows := Rows([x, x], []);
    assert |rows| == 1 && rows[0].0 == x;
    assert ColoredByMembership([x, x], [], rows[0]);
  }

  lemma {:induction false} OneRowMapText(x: string)
    ensures MapText([(x, Blue)]) == Header + "\n" + x + "\tblue"
  {
    RowLineText(x, Blue);
    assert x + "\t" + "blue" == x + "\tblue";
    assert RowLines([(x, Blue)]) == [x + "\tblue"];
    JoinCons(Header, [x + "\tblue"], '\n');
  }

  /** A file made of one line break holds one empty line, and that line has
      no field 6: extraction fails on line 0. */
  lemma {:induction false} EmptyLineRaises()
    ensures SplitLines("\n") == [""]
    ensures GetCid("\n") == Err(IndexError(0))
  {
    SplitCons('\n', "", '\n');
    assert ['\n'] + "" == "\n";
    assert Split("", Tab) == [""];
    assert !HasIdField("");
  }

  lemma {:induction false} RepeatedSets<T>(x: T)
    ensures |Elems([x, x])| == 1 && |Elems<T>([])| == 0
    ensures |Elems([x, x]) * Elems<T>([])| == 0
  {
    assert Elems([x, x]) == {x};
    assert Elems<T>([]) == {};
  }

  /** An id repeated in one file is counted once and written once. */
  lemma {:induction false} RepeatedIdCountedOnce(x: string)
    ensures ComputeIds([x, x], []) == Report(1, 0, 0, Header + "\n" + x + "\tblue")
  {
    RepeatedSets(x);
    RepeatedRows(x);
    OneRowMapText(x);
  }

  /** Two different ids stay as they are. */
  lemma {:induction false} PairDedup<T>(x: T, y: T)
    requires x != y
    ensures Dedup([x, y]) == [x, y]
  {
    assert Dedup([x]) == [x] by {
      DedupSnoc([], x);
      assert [] + [x] == [x];
    }
    DedupSnoc([x], y);
    assert [x] + [y] == [x, y];
  }

  /** De-duplicating the ids of two files that share their middle id. */
  lemma {:induction false} SharedMiddleDedup<T>(x: T, y: T, z: T)
    requires x != y && y != z && x != z
    ensures Dedup([x, y] + [y, z]) == [x, y, z]
  {
    assert Dedup([x, y, y]) == [x, y] by {
      PairDedup(x, y);
      DedupSnoc([x, y], y);
      assert [x, y] + [y] == [x, y, y];
    }
    assert [x, y] + [y, z] == [x, y, y] + [z];
    DedupSnoc([x, y, y], z);
  }

  /** A sequence of length three is the display of its elements. */
  lemma {:induction false} ThreeElements<T>(s: seq<T>)
    requires |s| == 3
    ensures s == [s[0], s[1], s[2]]
  {
  }

  lemma {:induction false} SharedMiddleIds(x: string, y: string, z: string)
    requires x != y && y != z && x != z
    ensures |Rows([x, y], [y, z])| == 3
    ensures Rows([x, y], [y, z])[0].0 == x
    ensures Rows([x, y], [y, z])[1].0 == y
    ensures Rows([x, y], [y, z])[2].0 == z
  {
    SharedMiddleDedup(x, y, z);
  }

  lemma {:induction false} SharedMiddleColors(x: string, y: string, z: string)
    requires x != y && y != z && x != z
    ensures |Rows([x, y], [y, z])| == 3
    ensures Rows([x, y], [y, z])[0].1 == Blue
    ensures Rows([x, y], [y, z])[1].1 == Yellow
    ensures Rows([x, y], [y, z])[2].1 == Red
  {
    var cid1 := [x, y];
    var cid2 := [y, z];
    var rows := Rows(cid1, cid2);
    SharedMiddleIds(x, y, z);
    assert ColoredByMembership(cid1, cid2, rows[0]);
    assert ColoredByMembership(cid1, cid2, rows[1]);
    assert ColoredByMembership(cid1, cid2, rows[2]);
  }

  lemma {:induction false} SharedMiddleRows(x: string, y: string, z: string)
    requires x != y && y != z && x != z
    ensures Rows([x, y], [y, z]) == [(x, Blue), (y, Yellow), (z, Red)]
  {
    SharedMiddleIds(x, y, z);
    SharedMiddleColors(x, y, z);
    var rows := Rows([x, y], [y, z]);
    ThreeElements(rows);
  }

  /** Three lines joined by line breaks. */
  lemma {:induction false} JoinThree(l1: string, l2: string, l3: string)
    ensures Join([l1, l2, l3], '\n') == l1 + "\n" + l2 + "\n" + l3
  {
    JoinCons(l2, [l3], '\n');
    assert [l1, l2, l3] == [l1] + [l2, l3];
    JoinCons(l1, [l2, l3], '\n');
  }

  lemma {:induction false} ThreeRowLines(x: string, y: string, z: string)
    ensures RowLines([(x, Blue), (y, Yellow), (z, Red)]) == [x + "\tblue", y + "\tyellow", z + "\tred"]
  {
    RowLineText(x, Blue);
    assert x + "\t" + "blue" == x + "\tblue";
    RowLineText(y, Yellow);
    assert y + "\t" + "yellow" == y + "\tyellow";
    RowLineText(z, Red);
    assert z + "\t" + "red" == z + "\tred";
  }

  lemma {:induction false} SharedMiddleMapText(x: string, y: string, z: string)
    ensures MapText([(x, Blue), (y, Yellow), (z, Red)]) ==
      Header + "\n" + x + "\tblue\n" + y + "\tyellow\n" + z + "\tred"
  {
    var l1, l2, l3 := x + "\tblue", y + "\tyellow", z + "\tred";
    ThreeRowLines(x, y, z);
    JoinThree(l1, l2, l3);
    JoinCons(Header, [l1, l2, l3], '\n');
  }

  lemma {:induction false} SharedMiddleSets<T>(x: T, y: T, z: T)
    requires x != y && y != z && x != z
    ensures |Elems([x, y])| == 2 && |Elems([y, z])| == 2
    ensures |Elems([x, y]) * Elems([y, z])| == 1
  {
    assert Elems([x, y]) == {x, y};
    assert Elems([y, z]) == {y, z};
    assert Elems([x, y]) * Elems([y, z]) == {y};
  }

  /** Two files sharing their second id: one exclusive id each, one common
      id, and the map lists the first file's ids, then the second file's new
      one. */
  lemma {:induction false} TwoFilesExample(x: string, y: string, z: string)
    requires x != y && y != z && x != z
    ensures ComputeIds([x, y], [y, z]) ==
      Report(1, 1, 1, Header + "\n" + x + "\tblue\n" + y + "\tyellow\n" + z + "\tred")
  {
    SharedMiddleSets(x, y, z);
    SharedMiddleRows(x, y, z);
    SharedMiddleMapText(x, y, z);
  }

  /** The example of two files with ids C001, C002 and C002, C003. */
  lemma {:induction false} KeggExample()
    ensures ComputeIds(["C001", "C002"], ["C002", "C003"]) ==
      Report(1, 1, 1, Header + "\n" + "C001" + "\tblue\n" + "C002" + "\tyellow\n" + "C003" + "\tred")
  {
    assert "C001"[3] != "C002"[3] && "C002"[3] != "C003"[3] && "C001"[3] != "C003"[3];
    TwoFilesExample("C001", "C002", "C003");
  }
}
