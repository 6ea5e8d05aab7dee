/** The Python list operations the agents use on apartment lists and listings. */
module Lists {
  /** No element occurs twice. */
  predicate Distinct<T(==)>(s: seq<T>)
  {
    forall i, j {:trigger Apart(s, i, j)} :: 0 <= i < j < |s| ==> Apart(s, i, j)
  }

  /** The entries at two positions differ; mentioning it puts `Distinct` to use for that pair. */
  predicate Apart<T(==)>(s: seq<T>, i: int, j: int)
    requires 0 <= i < j < |s|
  {
    s[i] != s[j]
  }

  /** Two different positions of a list without repetitions hold different entries. */
  lemma DistinctAt<T>(s: seq<T>, i: int, j: int)
    requires Distinct(s) && 0 <= i < |s| && 0 <= j < |s| && i != j
    ensures s[i] != s[j]
  {
    if i < j { assert Apart(s, i, j); } else { assert Apart(s, j, i); }
  }

  /** Appending a new entry keeps a list free of repetitions. */
  lemma DistinctAppend<T>(s: seq<T>, x: T)
    requires Distinct(s) && x !in s
    ensures Distinct(s + [x])
  {
    var t := s + [x];
    forall i, j | 0 <= i < j < |t|
      ensures Apart(t, i, j)
    {
      if j < |s| {
        assert Apart(s, i, j);
      }
    }
  }

  /**
   * (i1, j1) comes before (i2, j2) in a scan of nested lists: outer list by outer list, and in
   * order within each.
   */
  predicate Earlier(i1: int, j1: int, i2: int, j2: int)
  {
    i1 < i2 || (i1 == i2 && j1 < j2)
  }

  /** `s.index(x)`: the position of the first occurrence of `x`. */
  function IndexOf<T(==)>(s: seq<T>, x: T): (i: nat)
    requires x in s
    ensures i < |s| && s[i] == x
    ensures x !in s[..i]
  {
    if s[0] == x then 0 else 1 + IndexOf(s[1..], x)
  }

  /** `s.remove(x)` on a list that holds `x`: the first occurrence goes, the order of the rest stays. */
  function RemoveFirst<T(==)>(s: seq<T>, x: T): (r: seq<T>)
    requires x in s
    ensures |r| == |s| - 1
  {
    if s[0] == x then
      s[1..]
    else
      var t := s[1..];
      assert x in t;
      [s[0]] + RemoveFirst(t, x)
  }

  /** Where the k-th element of `RemoveFirst(s, x)` comes from in `s`. */
  lemma {:induction false} RemoveFirstAt<T>(s: seq<T>, x: T, k: nat)
    requires x in s && k < |s| - 1
    ensures RemoveFirst(s, x)[k] == if k < IndexOf(s, x) then s[k] else s[k + 1]
  {
    if s[0] != x && k > 0 {
      var t := s[1..];
      assert x in t;
      RemoveFirstAt(t, x, k - 1);
    }
  }

  /** Removing cuts the list at the first occurrence of `x`. */
  lemma {:induction false} RemoveFirstSplit<T>(s: seq<T>, x: T)
    requires x in s
    ensures RemoveFirst(s, x) == s[..IndexOf(s, x)] + s[IndexOf(s, x) + 1..]
  {
    var i := IndexOf(s, x);
    var r, q := RemoveFirst(s, x), s[..i] + s[i + 1..];
    forall k | 0 <= k < |r|
      ensures r[k] == q[k]
    {
      RemoveFirstAt(s, x, k);
    }
  }

  /** `if x in s: s.remove(x)`. */
  function Delisted<T(==)>(s: seq<T>, x: T): seq<T>
  {
    if x in s then RemoveFirst(s, x) else s
  }

  /** `if x not in s: s.append(x)`. */
  function Relisted<T(==)>(s: seq<T>, x: T): seq<T>
  {
    if x in s then s else s + [x]
  }

  /** Removing takes away exactly one copy of `x` and nothing else. */
  lemma RemoveFirstCount<T>(s: seq<T>, x: T)
    requires x in s
    ensures multiset(RemoveFirst(s, x)) == multiset(s) - multiset{x}
  {
    RemoveFirstSplit(s, x);
    var i := IndexOf(s, x);
    var front, back := s[..i], s[i + 1..];
    assert s == front + [x] + back;
    calc {
      multiset(s);
      multiset(front + [x] + back);
      multiset(front) + multiset{x} + multiset(back);
    }
    assert multiset(RemoveFirst(s, x)) == multiset(front) + multiset(back);
  }

  /** In a list without repetitions, removing an element removes every trace of it. */
  lemma RemoveFirstDistinct<T>(s: seq<T>, x: T)
    requires x in s && Distinct(s)
    ensures Distinct(RemoveFirst(s, x))
    ensures forall y :: y in RemoveFirst(s, x) <==> y in s && y != x
  {
    var i := IndexOf(s, x);
    var r := RemoveFirst(s, x);
    forall a, b | 0 <= a < b < |r|
      ensures Apart(r, a, b)
    {
      RemoveFirstAt(s, x, a);
      RemoveFirstAt(s, x, b);
      var a' := if a < i then a else a + 1;
      var b' := if b < i then b else b + 1;
      assert r[a] == s[a'] && r[b] == s[b'];
      DistinctAt(s, a', b');
    }
    forall y | y in r
      ensures y in s && y != x
    {
      var k :| 0 <= k < |r| && r[k] == y;
      RemoveFirstAt(s, x, k);
      var k' := if k < i then k else k + 1;
      DistinctAt(s, k', i);
    }
    forall y | y in s && y != x
      ensures y in r
    {
      var k :| 0 <= k < |s| && s[k] == y;
      var k' := if k < i then k else k - 1;
      RemoveFirstAt(s, x, k');
      assert r[k'] == y;
    }
  }
}
