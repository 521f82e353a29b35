/** Machine-width arithmetic, map accessors with a default, map sums and sorted
    listings: the vocabulary every other module speaks. */
module Basics {
  const U64_MAX: nat := 0xFFFF_FFFF_FFFF_FFFF

  /** An unsigned 64-bit field of a vertex. */
  type u64 = n: int | 0 <= n <= 0xFFFF_FFFF_FFFF_FFFF

  /** A 32-byte digest read as a big-endian number, so that `<` is byte order. */
  type TxHash = nat

  /** The dummy parent of the genesis vertex (32 zero bytes). */
  const NULL_PARENT: TxHash := 0

  type Address = nat

  datatype Option<+T> = None | Some(value: T)

  function SatAdd(a: nat, b: nat): nat {
    if a + b > U64_MAX then U64_MAX else a + b
  }

  /** `map.get(&k).copied().unwrap_or(0)` */
  function At<K>(m: map<K, nat>, k: K): nat {
    if k in m then m[k] else 0
  }

  function Lesser(a: nat, b: nat): nat { if a < b then a else b }

  ghost predicate NoDup<T>(s: seq<T>) {
    forall i, j :: 0 <= i < j < |s| ==> s[i] != s[j]
  }

  function ToSet<T>(s: seq<T>): set<T> {
    set x | x in s
  }

  lemma PrefixMore<T>(s: seq<T>, n: nat)
    requires n < |s|
    ensures ToSet(s[..n + 1]) == ToSet(s[..n]) + {s[n]}
    ensures NoDup(s) ==> s[n] !in ToSet(s[..n])
  {
    assert s[..n + 1] == s[..n] + [s[n]];
  }

  lemma NoDupCard<T>(s: seq<T>)
    requires NoDup(s)
    ensures |ToSet(s)| == |s|
  {
    if |s| > 0 {
      var p := s[..|s| - 1];
      NoDupCard(p);
      assert s == p + [s[|s| - 1]];
      assert ToSet(s) == ToSet(p) + {s[|s| - 1]};
    }
  }

  // ---------------------------------------------------------------- map sums

  /** Sum of the values of a finite map. */
  ghost function Sum<K>(m: map<K, nat>): nat
    decreases |m|
  {
    if m.Keys == {} then 0
    else
      var k :| k in m;
      m[k] + Sum(m - {k})
  }

  lemma SumRemove<K>(m: map<K, nat>, k: K)
    requires k in m
    ensures Sum(m) == m[k] + Sum(m - {k})
    decreases |m|
  {
    var p :| p in m && Sum(m) == m[p] + Sum(m - {p});
    if p != k {
      SumRemove(m - {p}, k);
      SumRemove(m - {k}, p);
      assert m - {p} - {k} == m - {k} - {p};
    }
  }

  /** Overwriting one entry moves the sum by exactly the change at that entry. */
  lemma SumUpdate<K>(m: map<K, nat>, k: K, v: nat)
    ensures Sum(m[k := v]) == Sum(m) - At(m, k) + v
  {
    var n := m[k := v];
    SumRemove(n, k);
    if k in m {
      SumRemove(m, k);
      assert n - {k} == m - {k};
    } else {
      assert n - {k} == m;
    }
  }

  lemma SumAtLeast<K>(m: map<K, nat>, k: K)
    ensures At(m, k) <= Sum(m)
  {
    if k in m { SumRemove(m, k); }
  }

  lemma SumAtLeastTwo<K>(m: map<K, nat>, k: K, l: K)
    requires k != l
    ensures At(m, k) + At(m, l) <= Sum(m)
  {
    if k in m {
      SumRemove(m, k);
      SumAtLeast(m - {k}, l);
    } else {
      SumAtLeast(m, l);
    }
  }

  /** A map that is nowhere above another sums to no more. */
  lemma {:induction false} SumBelow<K>(m: map<K, nat>, f: map<K, nat>)
    requires forall k :: k in m ==> m[k] <= At(f, k)
    ensures Sum(m) <= Sum(f)
    decreases |m|
  {
    hide Sum;
    if m.Keys == {} {
      SumNone(m);
    } else {
      var k :| k in m;
      BelowRest(m, f, k);
      SumBelow(m - {k}, f - {k});
      SumRemove(m, k);
      SumWithout(f, k);
    }
  }

  lemma SumNone<K>(m: map<K, nat>)
    requires m.Keys == {}
    ensures Sum(m) == 0
  {}

  lemma BelowRest<K>(m: map<K, nat>, f: map<K, nat>, k: K)
    requires k in m && forall x :: x in m ==> m[x] <= At(f, x)
    ensures m[k] <= At(f, k) && |m - {k}| < |m|
    ensures forall x :: x in m - {k} ==> (m - {k})[x] <= At(f - {k}, x)
  {
    forall x | x in m - {k} ensures (m - {k})[x] <= At(f - {k}, x) {
      assert m[x] <= At(f, x);
    }
  }

  lemma SumWithout<K>(f: map<K, nat>, k: K)
    ensures Sum(f) == At(f, k) + Sum(f - {k})
  {
    hide Sum;
    if k in f { SumRemove(f, k); } else { assert f - {k} == f; }
  }

  // ---------------------------------------------------------- sorted listings

  ghost predicate Increasing(s: seq<nat>) {
    forall i, j :: 0 <= i < j < |s| ==> s[i] < s[j]
  }

  lemma MinExists(s: set<nat>)
    requires s != {}
    ensures exists m :: m in s && forall x :: x in s ==> m <= x
  {
    var x :| x in s;
    if s != {x} {
      var t := s - {x};
      MinExists(t);
      var n :| n in t && forall y :: y in t ==> n <= y;
      LeastOf(s, t, x, n);
    }
  }

  lemma LeastOf(s: set<nat>, t: set<nat>, x: nat, n: nat)
    requires x in s && t == s - {x} && n in t && forall y :: y in t ==> n <= y
    ensures exists m :: m in s && forall y :: y in s ==> m <= y
  {
    var m := if x < n then x else n;
    forall y | y in s ensures m <= y { assert y == x || y in t; }
    assert m in s;
  }

  /** `collect()` then `sort()` of a set of hashes: its increasing listing. */
  function Sorted(s: set<nat>): (r: seq<nat>)
    ensures Increasing(r) && ToSet(r) == s && |r| == |s|
    decreases |s|
  {
    if s == {} then []
    else
      MinExists(s);
      var m :| m in s && forall x :: x in s ==> m <= x;
      var rest := Sorted(s - {m});
      SortedCons(m, rest, s);
      [m] + rest
  }

  lemma SortedCons(m: nat, rest: seq<nat>, s: set<nat>)
    requires m in s && (forall x :: x in s ==> m <= x)
    requires Increasing(rest) && ToSet(rest) == s - {m} && |rest| == |s - {m}|
    ensures Increasing([m] + rest) && ToSet([m] + rest) == s && |[m] + rest| == |s|
  {
    var r := [m] + rest;
    forall k | 0 <= k < |rest| ensures m < rest[k] && rest[k] in s { assert rest[k] in ToSet(rest); }
    forall i, j | 0 <= i < j < |r| ensures r[i] < r[j] {}
    forall x | x in s ensures x in r { assert x == m || x in ToSet(rest); }
    forall x | x in r ensures x in s { assert x == m || x in rest; }
    assert ToSet(r) == s;
  }

  // ----------------------------------------------------------------- filters

  /** Those of the first n elements of `order` that are in `ids`, in order. */
  ghost function Filtered<T>(order: seq<T>, ids: set<T>, n: nat): seq<T>
    requires n <= |order|
  {
    if n == 0 then []
    else Filtered(order, ids, n - 1) + if order[n - 1] in ids then [order[n - 1]] else []
  }

  lemma {:induction false} FilteredElements<T>(order: seq<T>, ids: set<T>, n: nat)
    requires n <= |order|
    ensures ToSet(Filtered(order, ids, n)) == ToSet(order[..n]) * ids
  {
    if n == 0 {
      assert ToSet(order[..0]) * ids == {};
    } else {
      var p, last := Filtered(order, ids, n - 1), order[n - 1];
      FilteredElements(order, ids, n - 1);
      assert order[..n] == order[..n - 1] + [last];
      assert ToSet(order[..n]) == ToSet(order[..n - 1]) + {last};
      if last in ids { assert ToSet(p + [last]) == ToSet(p) + {last}; } else { assert p + [] == p; }
    }
  }

  lemma FilteredAll<T>(order: seq<T>, ids: set<T>)
    requires ids <= ToSet(order)
    ensures ToSet(Filtered(order, ids, |order|)) == ids
  {
    FilteredElements(order, ids, |order|);
    assert order[..|order|] == order;
  }
}
