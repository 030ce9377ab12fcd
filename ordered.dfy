/** Ordering idioms the scripts share: the "append if not yet seen" de-duplication loop,
    `sorted()` over a set of integers, and Python's stable `sorted(pairs, key=lambda t: t[0])`. */
module Ordered {

  predicate NoDups<T(==)>(s: seq<T>)
  {
    forall i, j :: 0 <= i < j < |s| ==> s[i] != s[j]
  }

  /** The list that `for x in s: if x not in out: out.append(x)` leaves in `out`. */
  function Dedup<T(==)>(s: seq<T>): (r: seq<T>)
    ensures NoDups(r)
    ensures |r| <= |s|
  {
    if s == [] then []
    else
      var d := Dedup(s[..|s| - 1]);
      var x := s[|s| - 1];
      if x in d then d else d + [x]
  }

  /** Nothing is lost and nothing is invented: the kept elements are those of the input. */
  lemma {:induction false} DedupMembers<T>(s: seq<T>, x: T)
    ensures x in Dedup(s) <==> x in s
  {
    if s != [] {
      var p := s[..|s| - 1];
      DedupMembers(p, x);
      DedupMembers(p, s[|s| - 1]);
      assert s == p + [s[|s| - 1]];
    }
  }

  /** Appending an element not yet kept appends it to the result; appending one already kept changes nothing. */
  lemma DedupSnoc<T>(s: seq<T>, x: T)
    ensures Dedup(s + [x]) == if x in Dedup(s) then Dedup(s) else Dedup(s) + [x]
  {
    assert (s + [x])[..|s|] == s;
  }

  /** `for x in xs: if x not in out: out.append(x)` on a list `out` that is already the
      de-duplicated form of `s`. */
  method AppendUnique<T(==)>(out: seq<T>, xs: seq<T>, ghost s: seq<T>) returns (r: seq<T>)
    requires out == Dedup(s)
    ensures r == Dedup(s + xs)
  {
    r := out;
    assert s + xs[..0] == s;
    for j := 0 to |xs|
      invariant r == Dedup(s + xs[..j])
    {
      assert s + xs[..j + 1] == (s + xs[..j]) + [xs[j]];
      DedupSnoc(s + xs[..j], xs[j]);
      if xs[j] !in r {
        r := r + [xs[j]];
      }
    }
    assert xs[..|xs|] == xs;
  }

  /** `seen = set(); uniq = []; for x in xs: if x not in seen: uniq.append(x); seen.add(x)` */
  method KeepFirst<T(==)>(xs: seq<T>) returns (uniq: seq<T>)
    ensures uniq == Dedup(xs)
  {
    var seen: set<T> := {};
    uniq := [];
    for j := 0 to |xs|
      invariant uniq == Dedup(xs[..j])
      invariant forall x :: x in seen <==> x in uniq
    {
      assert xs[..j + 1] == xs[..j] + [xs[j]];
      DedupSnoc(xs[..j], xs[j]);
      if xs[j] !in seen {
        uniq := uniq + [xs[j]];
        seen := seen + {xs[j]};
      }
    }
    assert xs[..|xs|] == xs;
  }

  /** Later input never reorders what is already kept: the result for `s` is a prefix of the result for `s + t`. */
  lemma {:induction false} DedupPrefix<T>(s: seq<T>, t: seq<T>)
    ensures |Dedup(s)| <= |Dedup(s + t)|
    ensures Dedup(s) == Dedup(s + t)[..|Dedup(s)|]
  {
    if t != [] {
      var u := s + t[..|t| - 1];
      assert (s + t)[..|s + t| - 1] == u;
      DedupPrefix(s, t[..|t| - 1]);
      var du := Dedup(u);
      var x := (s + t)[|s + t| - 1];
      assert Dedup(s + t) == if x in du then du else du + [x];
      assert (du + [x])[..|Dedup(s)|] == du[..|Dedup(s)|];
    } else {
      assert s + t == s;
    }
  }

  /** Input without repetitions comes out unchanged. */
  lemma {:induction false} DedupOfDistinct<T>(s: seq<T>)
    requires NoDups(s)
    ensures Dedup(s) == s
  {
    if s != [] {
      var p := s[..|s| - 1];
      assert NoDups(p);
      DedupOfDistinct(p);
      assert s[|s| - 1] !in p;
      assert p + [s[|s| - 1]] == s;
    }
  }

  /** A distinct head survives de-duplication unchanged, whatever follows it. */
  lemma DistinctHeadKept<T>(a: seq<T>, b: seq<T>, c: seq<T>, d: seq<T>)
    requires NoDups(a)
    ensures |a| <= |Dedup(a + b + c + d)| && Dedup(a + b + c + d)[..|a|] == a
  {
    DedupOfDistinct(a);
    DedupPrefix(a, b + c + d);
    assert a + b + c + d == a + (b + c + d);
  }

  /** The first element always survives, in front. */
  lemma DedupHead<T>(x: T, rest: seq<T>)
    ensures |Dedup([x] + rest)| > 0 && Dedup([x] + rest)[0] == x
  {
    DedupPrefix([x], rest);
    assert Dedup([x]) == [x] by {
      assert [x][..0] == [];
    }
  }

  /** Index of the first occurrence of `x` in `s`. */
  function FirstIndex<T(==)>(s: seq<T>, x: T): (i: nat)
    requires x in s
    ensures i < |s| && s[i] == x
    ensures forall j :: 0 <= j < i ==> s[j] != x
  {
    if s[0] == x then 0 else 1 + FirstIndex(s[1..], x)
  }

  lemma FirstIndexOfPrefix<T>(s: seq<T>, n: nat, x: T)
    requires n <= |s| && x in s[..n]
    ensures x in s && FirstIndex(s, x) == FirstIndex(s[..n], x)
  {
    var i := FirstIndex(s[..n], x);
    assert s[i] == x;
    forall j | 0 <= j < i ensures s[j] != x {
      assert s[j] == s[..n][j];
    }
  }

  /** The kept elements appear in the order of their first occurrences in the input. */
  lemma {:induction false} DedupFirstOccurrenceOrder<T>(s: seq<T>, i: nat, j: nat)
    requires i < j < |Dedup(s)|
    ensures Dedup(s)[i] in s && Dedup(s)[j] in s
    ensures FirstIndex(s, Dedup(s)[i]) < FirstIndex(s, Dedup(s)[j])
  {
    var p := s[..|s| - 1];
    var d := Dedup(p);
    var x := s[|s| - 1];
    assert p + [x] == s;
    DedupMembers(s, Dedup(s)[i]);
    DedupMembers(s, Dedup(s)[j]);
    if j < |d| {
      DedupFirstOccurrenceOrder(p, i, j);
      FirstIndexOfPrefix(s, |p|, d[i]);
      FirstIndexOfPrefix(s, |p|, d[j]);
    } else {
      DedupMembers(p, x);
      DedupMembers(p, d[i]);
      assert Dedup(s)[j] == x && x !in d && x !in p;
      assert Dedup(s)[i] == d[i] && d[i] in p;
      FirstIndexOfPrefix(s, |p|, d[i]);
      assert FirstIndex(s, x) == |p|;
    }
  }

  predicate Increasing(s: seq<int>)
  {
    forall i, j :: 0 <= i < j < |s| ==> s[i] < s[j]
  }

  predicate IsMin(m: int, s: set<int>)
  {
    m in s && forall x :: x in s ==> m <= x
  }

  lemma HasElement(s: set<int>)
    requires |s| > 0
    ensures exists y :: y in s
  {
    if forall y :: y !in s {
      assert false;
    }
  }

  lemma {:induction false} MinExists(s: set<int>)
    requires |s| > 0
    ensures exists m :: IsMin(m, s)
    decreases |s|
  {
    HasElement(s);
    var y :| y in s;
    var rest := s - {y};
    if |rest| == 0 {
      forall x | x in s ensures y <= x {
        if x != y { assert false; }
      }
      assert IsMin(y, s);
    } else {
      MinExists(rest);
      var m :| IsMin(m, rest);
      var lo := if y < m then y else m;
      forall x | x in s ensures lo <= x {
        if x != y { assert x in rest; }
      }
      assert IsMin(lo, s);
    }
  }

  /** `sorted(s)` for a set of integers. */
  function Ascending(s: set<int>): (r: seq<int>)
    ensures |r| == |s|
    ensures forall x :: x in r <==> x in s
    ensures Increasing(r)
    decreases |s|
  {
    if |s| == 0 then []
    else
      MinExists(s);
      var m :| IsMin(m, s);
      var rest := Ascending(s - {m});
      assert forall i :: 0 <= i < |rest| ==> m < rest[i] by {
        forall i | 0 <= i < |rest| ensures m < rest[i] { assert rest[i] in s - {m}; }
      }
      [m] + rest
  }

  /** Keys of a pair list, in order. */
  function KeysOf<V>(s: seq<(int, V)>): (r: seq<int>)
    ensures |r| == |s|
    ensures forall i :: 0 <= i < |s| ==> r[i] == s[i].0
  {
    if s == [] then [] else [s[0].0] + KeysOf(s[1..])
  }

  predicate SortedByKey<V>(s: seq<(int, V)>)
  {
    forall i, j :: 0 <= i < j < |s| ==> s[i].0 <= s[j].0
  }

  /** The entries of `s` whose key is `k`, in order. */
  function WithKey<V>(s: seq<(int, V)>, k: int): (r: seq<(int, V)>)
    ensures |r| <= |s|
  {
    if s == [] then []
    else WithKey(s[..|s| - 1], k) + (if s[|s| - 1].0 == k then [s[|s| - 1]] else [])
  }

  /** Puts `x` after every entry whose key is not larger than its own. */
  function InsertAfterEqual<V>(x: (int, V), s: seq<(int, V)>): (r: seq<(int, V)>)
    requires SortedByKey(s)
    ensures SortedByKey(r)
    ensures multiset(r) == multiset(s) + multiset{x}
    ensures |r| == |s| + 1
    ensures r[0].0 == if s == [] || x.0 < s[0].0 then x.0 else s[0].0
  {
    if s == [] || x.0 < s[0].0 then [x] + s
    else
      var t := InsertAfterEqual(x, s[1..]);
      assert s == [s[0]] + s[1..];
      [s[0]] + t
  }

  /** Python's `sorted(s, key=lambda t: t[0])`, which is stable. */
  function StableSortByKey<V>(s: seq<(int, V)>): (r: seq<(int, V)>)
    ensures SortedByKey(r)
    ensures multiset(r) == multiset(s)
    ensures |r| == |s|
  {
    if s == [] then []
    else
      assert s == s[..|s| - 1] + [s[|s| - 1]];
      InsertAfterEqual(s[|s| - 1], StableSortByKey(s[..|s| - 1]))
  }

  lemma {:induction false} WithKeyAppend<V>(s: seq<(int, V)>, t: seq<(int, V)>, k: int)
    ensures WithKey(s + t, k) == WithKey(s, k) + WithKey(t, k)
    decreases |t|
  {
    if t != [] {
      var t' := t[..|t| - 1];
      var last := t[|t| - 1];
      assert (s + t)[..|s + t| - 1] == s + t';
      assert (s + t)[|s + t| - 1] == last;
      WithKeyAppend(s, t', k);
      var tail := if last.0 == k then [last] else [];
      calc {
        WithKey(s + t, k);
        WithKey(s + t', k) + tail;
        (WithKey(s, k) + WithKey(t', k)) + tail;
        WithKey(s, k) + (WithKey(t', k) + tail);
        WithKey(s, k) + WithKey(t, k);
      }
    } else {
      assert s + t == s;
    }
  }

  lemma WithKeySingle<V>(x: (int, V), k: int)
    ensures WithKey([x], k) == if x.0 == k then [x] else []
  {
    assert [x][..0] == [];
  }

  lemma {:induction false} WithKeyInsert<V>(x: (int, V), s: seq<(int, V)>, k: int)
    requires SortedByKey(s)
    ensures WithKey(InsertAfterEqual(x, s), k) == WithKey(s, k) + (if x.0 == k then [x] else [])
    decreases |s|
  {
    if s == [] || x.0 < s[0].0 {
      assert InsertAfterEqual(x, s) == [x] + s;
      forall i | 0 <= i < |s| ensures s[i].0 > x.0 {
        assert i == 0 || s[0].0 <= s[i].0;
      }
      PrependSmallest(x, s, k);
    } else {
      var rest := s[1..];
      var t := InsertAfterEqual(x, rest);
      assert InsertAfterEqual(x, s) == [s[0]] + t;
      WithKeyInsert(x, rest, k);
      assert s == [s[0]] + rest;
      ConsPreservesWithKey(s[0], rest, t, if x.0 == k then [x] else [], k);
    }
  }

  lemma PrependSmallest<V>(x: (int, V), s: seq<(int, V)>, k: int)
    requires forall i :: 0 <= i < |s| ==> s[i].0 > x.0
    ensures WithKey([x] + s, k) == WithKey(s, k) + (if x.0 == k then [x] else [])
  {
    WithKeyAppend([x], s, k);
    WithKeySingle(x, k);
    if x.0 == k {
      NoneWithKey(s, k);
    }
  }

  lemma ConsPreservesWithKey<V>(y: (int, V), rest: seq<(int, V)>, t: seq<(int, V)>, extra: seq<(int, V)>, k: int)
    requires WithKey(t, k) == WithKey(rest, k) + extra
    ensures WithKey([y] + t, k) == WithKey([y] + rest, k) + extra
  {
    WithKeyAppend([y], t, k);
    WithKeyAppend([y], rest, k);
  }

  lemma {:induction false} NoneWithKey<V>(s: seq<(int, V)>, k: int)
    requires forall i :: 0 <= i < |s| ==> s[i].0 > k
    ensures WithKey(s, k) == []
  {
    if s != [] {
      NoneWithKey(s[..|s| - 1], k);
    }
  }

  /** Stability: among entries with one key, the sorted list keeps their input order. */
  lemma {:induction false} StableSortKeepsOrder<V>(s: seq<(int, V)>, k: int)
    ensures WithKey(StableSortByKey(s), k) == WithKey(s, k)
  {
    if s != [] {
      var p := s[..|s| - 1];
      StableSortKeepsOrder(p, k);
      WithKeyInsert(s[|s| - 1], StableSortByKey(p), k);
    }
  }

  /** The values of a pair list, in order. */
  function ValuesOf<V>(s: seq<(int, V)>): (r: seq<V>)
    ensures |r| == |s|
    ensures forall i :: 0 <= i < |s| ==> r[i] == s[i].1
  {
    if s == [] then [] else [s[0].1] + ValuesOf(s[1..])
  }
}
