/** Sequence helpers shared by the model: pandas' order-preserving `unique`,
    Python's string ordering and `sorted`, and occurrence counts. */
module Seqs {

  // ---------------------------------------------------------------------------
  // First occurrences and order-preserving de-duplication (`Series.unique()`)
  // ---------------------------------------------------------------------------

  /** Position of the first occurrence of `x` in `s`. */
  function FirstIndex<T(==)>(s: seq<T>, x: T): (k: nat)
    requires x in s
    ensures k < |s| && s[k] == x
    ensures forall j :: 0 <= j < k ==> s[j] != x
  {
    if s[0] == x then 0 else 1 + FirstIndex(s[1..], x)
  }

  /** No element occurs twice. */
  predicate NoDuplicates<T(==)>(s: seq<T>)
  {
    forall i, j :: 0 <= i < j < |s| ==> s[i] != s[j]
  }

  /** A concatenation is free of duplicates exactly when both parts are and
      they have no element in common. */
  lemma NoDuplicatesAppend<T>(a: seq<T>, b: seq<T>)
    ensures NoDuplicates(a + b) <==> NoDuplicates(a) && NoDuplicates(b) && forall x :: x in a ==> x !in b
  {
    var c := a + b;
    if NoDuplicates(c) {
      assert forall i, j :: 0 <= i < j < |a| ==> a[i] == c[i] && a[j] == c[j];
      assert forall i, j :: 0 <= i < j < |b| ==> b[i] == c[|a| + i] && b[j] == c[|a| + j];
      forall x | x in a ensures x !in b {
        var i :| 0 <= i < |a| && a[i] == x;
        assert forall j :: 0 <= j < |b| ==> b[j] == c[|a| + j];
      }
    }
    if NoDuplicates(a) && NoDuplicates(b) && forall x :: x in a ==> x !in b {
      forall i, j | 0 <= i < j < |c| ensures c[i] != c[j] {
        if j < |a| {
          assert c[i] == a[i] && c[j] == a[j];
        } else if i >= |a| {
          assert c[i] == b[i - |a|] && c[j] == b[j - |a|];
        } else {
          assert c[i] == a[i] && c[j] == b[j - |a|] && a[i] in a;
        }
      }
    }
  }

  lemma FirstIndexExtend<T>(p: seq<T>, z: T, x: T)
    requires x in p
    ensures x in p + [z] && FirstIndex(p + [z], x) == FirstIndex(p, x)
  {
    var k := FirstIndex(p, x);
    var q := p + [z];
    assert q[k] == x;
    var k' := FirstIndex(q, x);
    assert forall j :: 0 <= j < k ==> q[j] == p[j];
  }

  /** The distinct elements of `s`, each once, in the order of their first
      appearance in `s` (what `Series.unique().tolist()` returns). */
  function Distinct<T(==,!new)>(s: seq<T>): (r: seq<T>)
    ensures forall x :: x in r <==> x in s
    ensures NoDuplicates(r)
    ensures |r| <= |s|
    ensures forall i, j :: 0 <= i < j < |r| ==> FirstIndex(s, r[i]) < FirstIndex(s, r[j])
  {
    if s == [] then []
    else
      var p := s[..|s| - 1];
      var x := s[|s| - 1];
      assert s == p + [x];
      var d := Distinct(p);
      var r := if x in d then d else d + [x];
      assert forall y :: y in p ==> y in s && FirstIndex(s, y) == FirstIndex(p, y) by {
        forall y | y in p ensures y in s && FirstIndex(s, y) == FirstIndex(p, y) {
          FirstIndexExtend(p, x, y);
        }
      }
      assert x !in d ==> FirstIndex(s, x) == |p|;
      r
  }

  /** Keeps a sequence's elements in order (the model of a row mask). */
  function Filter<T(!new)>(s: seq<T>, keep: T -> bool): (r: seq<T>)
    ensures |r| <= |s|
    ensures forall x :: x in r <==> x in s && keep(x)
  {
    if s == [] then [] else (if keep(s[0]) then [s[0]] else []) + Filter(s[1..], keep)
  }

  /** Two elements met in one order in `s` keep that order in `Distinct(s)`. */
  lemma DistinctKeepsOrder<T(!new)>(s: seq<T>, x: T, y: T)
    requires x in s && y in s && FirstIndex(s, x) < FirstIndex(s, y)
    ensures x in Distinct(s) && y in Distinct(s)
    ensures FirstIndex(Distinct(s), x) < FirstIndex(Distinct(s), y)
  {
    var d := Distinct(s);
    var a, b := FirstIndex(d, x), FirstIndex(d, y);
    if b < a {
      assert false;
    }
  }

  /** Filtering a concatenation filters each part and keeps the parts in
      order; with `FilterOne` this fixes the order of every filtered
      sequence: the kept elements stay in the order they had. */
  lemma {:induction false} FilterAppend<T(!new)>(a: seq<T>, b: seq<T>, keep: T -> bool)
    ensures Filter(a + b, keep) == Filter(a, keep) + Filter(b, keep)
  {
    if a == [] {
      assert a + b == b;
    } else {
      assert (a + b)[0] == a[0] && (a + b)[1..] == a[1..] + b;
      FilterAppend(a[1..], b, keep);
    }
  }

  /** A single element is kept or dropped. */
  lemma FilterOne<T(!new)>(x: T, keep: T -> bool)
    ensures Filter([x], keep) == if keep(x) then [x] else []
  {
    assert [x][1..] == [];
  }

  /** A non-empty filtered sequence starts with the first element kept. */
  lemma {:induction false} FilterHead<T(!new)>(s: seq<T>, keep: T -> bool)
    requires Filter(s, keep) != []
    ensures exists i :: (0 <= i < |s| && keep(s[i]) && Filter(s, keep)[0] == s[i]
                         && forall j :: 0 <= j < i ==> !keep(s[j]))
  {
    if !keep(s[0]) {
      FilterHead(s[1..], keep);
      var k :| 0 <= k < |s[1..]| && keep(s[1..][k]) && Filter(s[1..], keep)[0] == s[1..][k]
               && forall j :: 0 <= j < k ==> !keep(s[1..][j]);
      assert keep(s[k + 1]) && Filter(s, keep)[0] == s[k + 1];
    } else {
      assert Filter(s, keep)[0] == s[0];
    }
  }

  /** The sequences `f` gives for the elements of `s`, one after another. */
  function FlatMap<T, U>(s: seq<T>, f: T -> seq<U>): (r: seq<U>)
  {
    if s == [] then [] else FlatMap(s[..|s| - 1], f) + f(s[|s| - 1])
  }

  /** An element of the concatenation comes from the sequence of some
      element, and every such element is in it. */
  lemma {:induction false} FlatMapMembership<T, U>(s: seq<T>, f: T -> seq<U>, y: U)
    ensures y in FlatMap(s, f) <==> exists x :: x in s && y in f(x)
  {
    if s != [] {
      var init := s[..|s| - 1];
      var last := s[|s| - 1];
      FlatMapMembership(init, f, y);
      assert s == init + [last];
      if exists x :: x in s && y in f(x) {
        var x :| x in s && y in f(x);
        if x != last {
          assert x in init;
        }
      }
    }
  }

  /** When no element gives more than `k` elements, the concatenation has at most `k` per element. */
  lemma {:induction false} FlatMapLength<T, U>(s: seq<T>, f: T -> seq<U>, k: nat)
    requires forall x :: x in s ==> |f(x)| <= k
    ensures |FlatMap(s, f)| <= k * |s|
  {
    if s != [] {
      assert forall x :: x in s[..|s| - 1] ==> x in s;
      FlatMapLength(s[..|s| - 1], f, k);
      assert s[|s| - 1] in s;
    }
  }

  /** Number of occurrences of `x` in `s`. */
  function Count<T(==)>(s: seq<T>, x: T): (n: nat)
    ensures n <= |s|
    ensures n == 0 <==> x !in s
  {
    if s == [] then 0 else (if s[0] == x then 1 else 0) + Count(s[1..], x)
  }

  // ---------------------------------------------------------------------------
  // Python's ordering of strings (code point by code point) and `sorted`
  // ---------------------------------------------------------------------------

  /** `a <= b` on Python strings: lexicographic by code point, a proper prefix first. */
  predicate LexLe(a: string, b: string)
    decreases |a|
  {
    |a| == 0 || (|b| > 0 && (a[0] < b[0] || (a[0] == b[0] && LexLe(a[1..], b[1..]))))
  }

  lemma {:induction false} LexLeTotal(a: string, b: string)
    ensures LexLe(a, b) || LexLe(b, a)
    decreases |a|
  {
    if |a| > 0 && |b| > 0 && a[0] == b[0] {
      LexLeTotal(a[1..], b[1..]);
    }
  }

  lemma {:induction false} LexLeTrans(a: string, b: string, c: string)
    requires LexLe(a, b) && LexLe(b, c)
    ensures LexLe(a, c)
    decreases |a|
  {
    if |a| > 0 && a[0] == b[0] && b[0] == c[0] {
      LexLeTrans(a[1..], b[1..], c[1..]);
    }
  }

  /** `s` is in ascending order of `key`. */
  ghost predicate SortedBy<T>(s: seq<T>, key: T -> string)
  {
    forall i, j :: 0 <= i < j < |s| ==> LexLe(key(s[i]), key(s[j]))
  }

  function InsertBy<T>(x: T, s: seq<T>, key: T -> string): (r: seq<T>)
    requires SortedBy(s, key)
    ensures SortedBy(r, key)
    ensures multiset(r) == multiset(s) + multiset{x}
    ensures |r| == |s| + 1
  {
    if s == [] then [x]
    else if LexLe(key(x), key(s[0])) then
      var r := [x] + s;
      assert forall j :: 0 < j < |r| ==> LexLe(key(x), key(r[j])) by {
        forall j | 0 < j < |r| ensures LexLe(key(x), key(r[j])) {
          if j > 1 { LexLeTrans(key(x), key(s[0]), key(r[j])); }
        }
      }
      r
    else
      LexLeTotal(key(x), key(s[0]));
      var t := InsertBy(x, s[1..], key);
      assert s == [s[0]] + s[1..];
      var r := [s[0]] + t;
      assert forall j :: 0 <= j < |t| ==> LexLe(key(s[0]), key(t[j])) by {
        forall j | 0 <= j < |t| ensures LexLe(key(s[0]), key(t[j])) {
          assert t[j] in multiset(t);
          if t[j] != x {
            assert t[j] in multiset(s[1..]);
            var k :| 0 <= k < |s[1..]| && s[1..][k] == t[j];
            assert s[k + 1] == t[j];
          }
        }
      }
      r
  }

  /** Python's `sorted(s, key=key)` on string keys. */
  function SortBy<T>(s: seq<T>, key: T -> string): (r: seq<T>)
    ensures SortedBy(r, key)
    ensures multiset(r) == multiset(s)
    ensures |r| == |s|
  {
    if s == [] then [] else
      assert s == [s[0]] + s[1..];
      InsertBy(s[0], SortBy(s[1..], key), key)
  }
}
