/** Stable sorting by a total preorder, the behaviour of Python's `list.sort(key=...)`
    (with or without `reverse=True`, which keeps equal elements in their original order)
    and of an `ORDER BY` whose ties keep the input order. `le(a, b)` means "`a` may come
    before `b`". */
module Sorting {

  ghost predicate TotalPreorder<T(!new)>(le: (T, T) -> bool) {
    (forall a, b :: le(a, b) || le(b, a)) &&
    (forall a, b, c :: le(a, b) && le(b, c) ==> le(a, c))
  }

  predicate SortedBy<T>(s: seq<T>, le: (T, T) -> bool) {
    forall i, j :: 0 <= i < j < |s| ==> le(s[i], s[j])
  }

  /** The elements of `s` that `le` cannot tell apart from `x`, in their order in `s`. */
  function Equivalents<T>(s: seq<T>, x: T, le: (T, T) -> bool): seq<T> {
    if |s| == 0 then []
    else Equivalents(s[..|s| - 1], x, le) + (if le(s[|s| - 1], x) && le(x, s[|s| - 1]) then [s[|s| - 1]] else [])
  }

  /** Insert `x` behind every element that may precede it. */
  function Insert<T>(x: T, s: seq<T>, le: (T, T) -> bool): (r: seq<T>)
    ensures |r| == |s| + 1
    ensures multiset(r) == multiset(s) + multiset{x}
  {
    if |s| == 0 then [x]
    else if le(s[|s| - 1], x) then s + [x]
    else
      var r := Insert(x, s[..|s| - 1], le) + [s[|s| - 1]];
      assert s == s[..|s| - 1] + [s[|s| - 1]];
      r
  }

  /** The stable sort: elements are inserted in input order. */
  function SortBy<T>(s: seq<T>, le: (T, T) -> bool): (r: seq<T>)
    ensures |r| == |s|
    ensures multiset(r) == multiset(s)
  {
    if |s| == 0 then []
    else
      assert s == s[..|s| - 1] + [s[|s| - 1]];
      Insert(s[|s| - 1], SortBy(s[..|s| - 1], le), le)
  }

  lemma {:induction false} InsertSorted<T(!new)>(x: T, s: seq<T>, le: (T, T) -> bool)
    requires TotalPreorder(le)
    requires SortedBy(s, le)
    ensures SortedBy(Insert(x, s, le), le)
    decreases |s|
  {
    if |s| > 0 && !le(s[|s| - 1], x) {
      var init := s[..|s| - 1];
      var last := s[|s| - 1];
      InsertSorted(x, init, le);
      var r := Insert(x, init, le);
      assert le(x, last);
      assert forall e :: e in multiset(r) ==> e in multiset(init) || e == x;
      forall i | 0 <= i < |r|
        ensures le(r[i], last)
      {
        assert r[i] in multiset(r);
        if r[i] != x {
          assert r[i] in multiset(init);
          var k :| 0 <= k < |init| && init[k] == r[i];
          assert s[k] == r[i];
        }
      }
    }
  }

  /** Appending one element extends the equivalents by that element when it is one. */
  lemma EquivalentsSnoc<T>(s: seq<T>, e: T, y: T, le: (T, T) -> bool)
    ensures Equivalents(s + [e], y, le) ==
            Equivalents(s, y, le) + (if le(e, y) && le(y, e) then [e] else [])
  {
    assert (s + [e])[..|s|] == s;
  }

  /** Inserting `x` adds it to the elements equivalent to `y` (when it is one of them)
      behind all those already there. */
  lemma {:induction false} InsertEquivalents<T(!new)>(x: T, s: seq<T>, y: T, le: (T, T) -> bool)
    requires TotalPreorder(le)
    ensures Equivalents(Insert(x, s, le), y, le) ==
            Equivalents(s, y, le) + (if le(x, y) && le(y, x) then [x] else [])
    decreases |s|
  {
    if |s| == 0 {
      assert Insert(x, s, le) == s + [x];
      EquivalentsSnoc(s, x, y, le);
    } else if le(s[|s| - 1], x) {
      EquivalentsSnoc(s, x, y, le);
    } else {
      var init := s[..|s| - 1];
      var last := s[|s| - 1];
      var ofX := if le(x, y) && le(y, x) then [x] else [];
      var ofLast := if le(last, y) && le(y, last) then [last] else [];
      // `last` is strictly after `x`, so it and `x` are not both equivalent to `y`
      assert ofX == [] || ofLast == [];
      calc {
        Equivalents(Insert(x, s, le), y, le);
        Equivalents(Insert(x, init, le) + [last], y, le);
        { EquivalentsSnoc(Insert(x, init, le), last, y, le); }
        Equivalents(Insert(x, init, le), y, le) + ofLast;
        { InsertEquivalents(x, init, y, le); }
        Equivalents(init, y, le) + ofX + ofLast;
        Equivalents(init, y, le) + ofLast + ofX;
        { EquivalentsSnoc(init, last, y, le); assert init + [last] == s; }
        Equivalents(s, y, le) + ofX;
      }
    }
  }

  /** The sort is ordered, a permutation, and stable: elements that `le` cannot tell apart
      keep their input order. */
  lemma {:induction false} SortByCorrect<T(!new)>(s: seq<T>, le: (T, T) -> bool, y: T)
    requires TotalPreorder(le)
    ensures SortedBy(SortBy(s, le), le)
    ensures multiset(SortBy(s, le)) == multiset(s)
    ensures Equivalents(SortBy(s, le), y, le) == Equivalents(s, y, le)
    decreases |s|
  {
    if |s| > 0 {
      var init := s[..|s| - 1];
      SortByCorrect(init, le, y);
      InsertSorted(s[|s| - 1], SortBy(init, le), le);
      InsertEquivalents(s[|s| - 1], SortBy(init, le), y, le);
    }
  }

  /** Dropping the last element keeps a sequence ordered. */
  lemma SortedInit<T>(s: seq<T>, le: (T, T) -> bool)
    requires |s| > 0 && SortedBy(s, le)
    ensures SortedBy(s[..|s| - 1], le)
  {
    var init := s[..|s| - 1];
    forall i, j | 0 <= i < j < |init|
      ensures le(init[i], init[j])
    {
      assert init[i] == s[i] && init[j] == s[j];
    }
  }

  /** Inserting an element that may follow the last one appends it. */
  lemma InsertAfterLast<T>(x: T, s: seq<T>, le: (T, T) -> bool)
    requires |s| == 0 || le(s[|s| - 1], x)
    ensures Insert(x, s, le) == s + [x]
  {
  }

  /** An already ordered sequence is left as it is. */
  lemma {:induction false} SortBySorted<T>(s: seq<T>, le: (T, T) -> bool)
    requires SortedBy(s, le)
    ensures SortBy(s, le) == s
    decreases |s|
  {
    if |s| > 0 {
      var init := s[..|s| - 1];
      var last := s[|s| - 1];
      SortedInit(s, le);
      if |init| > 0 {
        assert le(s[|s| - 2], last);
      }
      calc {
        SortBy(s, le);
        Insert(last, SortBy(init, le), le);
        { SortBySorted(init, le); }
        Insert(last, init, le);
        { InsertAfterLast(last, init, le); }
        init + [last];
        s;
      }
    }
  }

  predicate NoDuplicates<T(==)>(s: seq<T>) {
    forall i, j :: 0 <= i < j < |s| ==> s[i] != s[j]
  }

  lemma CountRepeated<T>(s: seq<T>, i: nat, j: nat)
    requires i < j < |s| && s[i] == s[j]
    ensures multiset(s)[s[i]] >= 2
  {
    assert s == s[..j] + [s[j]] + s[j + 1..];
    assert s[..j][i] == s[i];
    assert s[i] in multiset(s[..j]);
  }

  lemma CountSingle<T>(s: seq<T>, a: nat)
    requires NoDuplicates(s) && a < |s|
    ensures multiset(s)[s[a]] == 1
  {
    assert s == s[..a] + [s[a]] + s[a + 1..];
    assert s[a] !in multiset(s[..a]);
    assert s[a] !in multiset(s[a + 1..]);
  }

  /** A permutation of a sequence without duplicates has none either. */
  lemma PermutationNoDuplicates<T>(u: seq<T>, r: seq<T>)
    requires multiset(r) == multiset(u) && NoDuplicates(u)
    ensures NoDuplicates(r)
  {
    forall i, j | 0 <= i < j < |r| ensures r[i] != r[j] {
      if r[i] == r[j] {
        CountRepeated(r, i, j);
        assert r[i] in multiset(u);
        var a :| 0 <= a < |u| && u[a] == r[i];
        CountSingle(u, a);
      }
    }
  }

  /** The distinct elements of `s` in order of first appearance. */
  function Dedup<T(==,!new)>(s: seq<T>): (r: seq<T>)
    ensures NoDuplicates(r)
    ensures forall x :: x in r <==> x in s
    ensures |r| <= |s|
  {
    if |s| == 0 then []
    else
      var d := Dedup(s[..|s| - 1]);
      if s[|s| - 1] in d then d else d + [s[|s| - 1]]
  }

  /** Deduplicating a sequence without duplicates leaves it as it is. */
  lemma {:induction false} DedupDistinct<T(!new)>(s: seq<T>)
    requires NoDuplicates(s)
    ensures Dedup(s) == s
    decreases |s|
  {
    if |s| > 0 {
      var init := s[..|s| - 1];
      DedupDistinct(init);
      assert s[|s| - 1] !in init;
      assert s == init + [s[|s| - 1]];
    }
  }
}
