/** Sequence operations the comparison is built from: the set of a list's
    elements (`set(xs)`), order-preserving filtering, and de-duplication that
    keeps first occurrences (`list(dict.fromkeys(xs))`). */
module Seqs {

  /** `set(s)`. */
  function Elems<T>(s: seq<T>): set<T>
  {
    set x | x in s
  }

  predicate NoDup<T(==)>(s: seq<T>)
  {
    forall i, j :: 0 <= i < j < |s| ==> s[i] != s[j]
  }

  /** Position of the first occurrence of `x` in `s`. */
  function FirstIndex<T(==)>(s: seq<T>, x: T): (k: nat)
    requires x in s
    ensures k < |s| && s[k] == x
    ensures forall j :: 0 <= j < k ==> s[j] != x
  {
    if s[0] == x then 0 else 1 + FirstIndex(s[1..], x)
  }

  /** The first occurrence in a concatenation is in the first part when the
      element occurs there, and otherwise shifted past it. */
  lemma {:induction false} FirstIndexAppend<T>(a: seq<T>, b: seq<T>, x: T)
    requires x in a || x in b
    ensures x in a + b
    ensures FirstIndex(a + b, x) == if x in a then FirstIndex(a, x) else |a| + FirstIndex(b, x)
  {
    var s := a + b;
    if x in a {
      var k := FirstIndex(a, x);
      assert s[k] == x;
      var m := FirstIndex(s, x);
      assert m <= k;
      assert a[m] == s[m];
    } else {
      var k := FirstIndex(b, x);
      assert s[|a| + k] == x;
      var m := FirstIndex(s, x);
      assert b[m - |a|] == s[m];
    }
  }

  /** The elements of `s` satisfying `p`, in their order in `s`, repeats kept. */
  function Filter<T>(s: seq<T>, p: T -> bool): (r: seq<T>)
    ensures |r| <= |s|
  {
    if s == [] then []
    else (if p(s[0]) then [s[0]] else []) + Filter(s[1..], p)
  }

  /** An element is kept by the filter exactly when it occurs in the input
      and satisfies the predicate. */
  lemma {:induction false} FilterMember<T>(s: seq<T>, p: T -> bool, x: T)
    ensures x in Filter(s, p) <==> x in s && p(x)
    decreases |s|
  {
    if s != [] {
      FilterMember(s[1..], p, x);
      assert s == [s[0]] + s[1..];
    }
  }

  /** Filtering distributes over concatenation, so the kept elements of a
      prefix come before those of the rest. */
  lemma {:induction false} FilterAppend<T>(a: seq<T>, b: seq<T>, p: T -> bool)
    ensures Filter(a + b, p) == Filter(a, p) + Filter(b, p)
    decreases |a|
  {
    if a == [] {
      assert a + b == b;
    } else {
      var head := if p(a[0]) then [a[0]] else [];
      assert (a + b)[0] == a[0];
      assert (a + b)[1..] == a[1..] + b;
      assert Filter(a + b, p) == head + Filter(a[1..] + b, p);
      FilterAppend(a[1..], b, p);
      assert Filter(a, p) == head + Filter(a[1..], p);
    }
  }

  /** `list(dict.fromkeys(s))`: each element once, at the place where a dict
      first receives it as a key. */
  function Dedup<T(==)>(s: seq<T>): (d: seq<T>)
    ensures |d| <= |s|
  {
    if s == [] then []
    else
      var d' := Dedup(s[..|s| - 1]);
      if s[|s| - 1] in d' then d' else d' + [s[|s| - 1]]
  }

  /** Membership is unchanged by de-duplication. */
  lemma {:induction false} DedupMember<T>(s: seq<T>, x: T)
    ensures x in Dedup(s) <==> x in s
    decreases |s|
  {
    if s != [] {
      var init := s[..|s| - 1];
      assert s == init + [s[|s| - 1]];
      DedupMember(init, x);
      DedupMember(init, s[|s| - 1]);
    }
  }

  /** A de-duplicated list has no repeats. */
  lemma {:induction false} DedupNoDup<T>(s: seq<T>)
    ensures NoDup(Dedup(s))
    decreases |s|
  {
    if s != [] {
      var init := s[..|s| - 1];
      DedupNoDup(init);
    }
  }

  /** Appending one element to the input appends it to the de-duplicated
      list exactly when it is new. */
  lemma {:induction false} DedupSnoc<T>(s: seq<T>, y: T)
    ensures Dedup(s + [y]) == if y in s then Dedup(s) else Dedup(s) + [y]
  {
    assert (s + [y])[..|s + [y]| - 1] == s;
    DedupMember(s, y);
  }

  /** The elements of a de-duplicated list come in the order of their first
      occurrences in the original list. */
  lemma {:induction false} DedupFirstOccurrence<T>(s: seq<T>)
    ensures forall i, j :: 0 <= i < j < |Dedup(s)| ==>
      && Dedup(s)[i] in s && Dedup(s)[j] in s
      && FirstIndex(s, Dedup(s)[i]) < FirstIndex(s, Dedup(s)[j])
    decreases |s|
  {
    if s != [] {
      var init := s[..|s| - 1];
      var last := s[|s| - 1];
      assert s == init + [last];
      DedupFirstOccurrence(init);
      var d' := Dedup(init);
      DedupSnoc(init, last);
      forall i | 0 <= i < |d'|
        ensures d'[i] in init
        ensures FirstIndex(s, d'[i]) == FirstIndex(init, d'[i])
      {
        DedupMember(init, d'[i]);
        FirstIndexAppend(init, [last], d'[i]);
      }
      var d := Dedup(s);
      if last !in init {
        FirstIndexAppend(init, [last], last);
        assert d == d' + [last];
        assert FirstIndex(s, last) == |init|;
      } else {
        assert d == d';
      }
      forall i, j | 0 <= i < j < |d|
        ensures d[i] in s && d[j] in s && FirstIndex(s, d[i]) < FirstIndex(s, d[j])
      {
        assert d[i] == d'[i];
        if j < |d'| {
          assert d[j] == d'[j];
        }
      }
    } else {
      assert Dedup(s) == [];
    }
  }

  /** The condition "does not occur in `a`", as a filter predicate. */
  function NotIn<T(==)>(a: seq<T>): T -> bool
  {
    x => x !in a
  }

  /** Filtering a list extended by one element. */
  lemma {:induction false} FilterSnoc<T>(s: seq<T>, y: T, p: T -> bool)
    ensures Filter(s + [y], p) == if p(y) then Filter(s, p) + [y] else Filter(s, p)
  {
    FilterAppend(s, [y], p);
    assert Filter([y], p) == (if p(y) then [y] else []) + Filter([y][1..], p);
  }

  /** Sequence algebra for the last step of `DedupAppendSnoc`, kept apart so
      that the de-duplication facts around it stay out of its proof. */
  lemma {:induction false} SnocRegroup<T>(lhs: seq<T>, x: seq<T>, d: seq<T>, r: seq<T>, f: seq<T>, y: T)
    requires lhs == x + [y] && x == d + r && f == r + [y]
    ensures lhs == d + f
  {
  }

  /** Left-hand side of one step of `DedupAppend`. */
  lemma {:induction false} DedupAppendSnocLeft<T>(a: seq<T>, b: seq<T>, y: T)
    ensures Dedup(a + (b + [y])) == if y in a || y in b then Dedup(a + b) else Dedup(a + b) + [y]
  {
    assert a + (b + [y]) == (a + b) + [y];
    DedupSnoc(a + b, y);
  }

  /** Right-hand side of one step of `DedupAppend`. */
  lemma {:induction false} DedupAppendSnocRight<T>(a: seq<T>, b: seq<T>, y: T)
    ensures Filter(Dedup(b + [y]), NotIn(a)) ==
      if y in a || y in b then Filter(Dedup(b), NotIn(a))
      else Filter(Dedup(b), NotIn(a)) + [y]
  {
    DedupSnoc(b, y);
    if y !in b {
      FilterSnoc(Dedup(b), y, NotIn(a));
    }
  }

  /** One step of `DedupAppend`: extending the second list by one element. */
  lemma {:induction false} DedupAppendSnoc<T>(a: seq<T>, b: seq<T>, y: T)
    requires Dedup(a + b) == Dedup(a) + Filter(Dedup(b), NotIn(a))
    ensures Dedup(a + (b + [y])) == Dedup(a) + Filter(Dedup(b + [y]), NotIn(a))
  {
    DedupAppendSnocLeft(a, b, y);
    DedupAppendSnocRight(a, b, y);
    if !(y in a || y in b) {
      SnocRegroup(Dedup(a + (b + [y])), Dedup(a + b), Dedup(a),
        Filter(Dedup(b), NotIn(a)), Filter(Dedup(b + [y]), NotIn(a)), y);
    }
  }

  /** De-duplicating a concatenation keeps the de-duplicated first list in
      front, followed by the new elements of the second list in their own
      first-occurrence order. */
  lemma {:induction false} DedupAppend<T>(a: seq<T>, b: seq<T>)
    ensures Dedup(a + b) == Dedup(a) + Filter(Dedup(b), NotIn(a))
    decreases |b|
  {
    if b == [] {
      assert a + b == a;
      assert Filter(Dedup(b), NotIn(a)) == [];
    } else {
      var b' := b[..|b| - 1];
      assert b == b' + [b[|b| - 1]];
      DedupAppend(a, b');
      DedupAppendSnoc(a, b', b[|b| - 1]);
    }
  }

  /** A list without repeats has as many elements as its set. */
  lemma {:induction false} NoDupCard<T>(s: seq<T>)
    requires NoDup(s)
    ensures |Elems(s)| == |s|
    decreases |s|
  {
    if s != [] {
      var init := s[..|s| - 1];
      var last := s[|s| - 1];
      assert s == init + [last];
      NoDupCard(init);
      assert last !in init;
      assert Elems(s) == Elems(init) + {last};
    }
  }

  /** The de-duplicated list is exactly as long as the set of elements. */
  lemma {:induction false} DedupCard<T>(s: seq<T>)
    ensures |Dedup(s)| == |Elems(s)|
  {
    DedupNoDup(s);
    NoDupCard(Dedup(s));
    forall x
      ensures x in Elems(Dedup(s)) <==> x in Elems(s)
    {
      DedupMember(s, x);
    }
    assert Elems(Dedup(s)) == Elems(s);
  }
}
