/** Counters and what they sum to. */
module Counters {

  /** A Python `Counter`. */
  function At<K>(c: map<K, nat>, k: K): nat {
    if k in c then c[k] else 0
  }

  function Bump<K>(c: map<K, nat>, k: K, d: nat): map<K, nat> {
    c[k := At(c, k) + d]
  }

  /** The weighted sum of all counts. */
  ghost function Sum<K(!new)>(c: map<K, nat>, w: K -> nat): nat {
    if c == map[] then 0
    else
      var k :| k in c;
      w(k) * c[k] + Sum(c - {k}, w)
  }

  /** The sum may be taken in any order. */
  lemma {:induction false} SumPick<K(!new)>(c: map<K, nat>, w: K -> nat, k: K)
    requires k in c
    ensures Sum(c, w) == w(k) * c[k] + Sum(c - {k}, w)
    decreases |c|
  {
    var j :| j in c && Sum(c, w) == w(j) * c[j] + Sum(c - {j}, w);
    if j != k {
      SumPick(c - {j}, w, k);
      SumPick(c - {k}, w, j);
      assert c - {j} - {k} == c - {k} - {j};
    }
  }

  lemma {:induction false} SumAt<K(!new)>(c: map<K, nat>, w: K -> nat, k: K)
    ensures Sum(c, w) == w(k) * At(c, k) + Sum(c - {k}, w)
  {
    if k in c {
      SumPick(c, w, k);
    } else {
      assert c - {k} == c;
    }
  }

  lemma {:induction false} Distribute(w: nat, x: nat, d: nat)
    ensures w * (x + d) == w * x + w * d
  {
  }

  lemma {:induction false} SumBump<K(!new)>(c: map<K, nat>, w: K -> nat, k: K, d: nat)
    ensures Sum(Bump(c, k, d), w) == Sum(c, w) + w(k) * d
  {
    var b := Bump(c, k, d);
    SumPick(b, w, k);
    assert b - {k} == c - {k};
    SumAt(c, w, k);
    Distribute(w(k), At(c, k), d);
  }

  /** The plain sum of all counts. */
  ghost function Total<K(!new)>(c: map<K, nat>): nat {
    Sum(c, (k: K) => 1)
  }

  lemma {:induction false} TotalBump<K(!new)>(c: map<K, nat>, k: K, d: nat)
    ensures Total(Bump(c, k, d)) == Total(c) + d
  {
    SumBump(c, (k: K) => 1, k, d);
  }

  // ----- sums over a range and over a sequence -----

  function SumTo(n: nat, w: nat -> nat): nat {
    if n == 0 then 0 else SumTo(n - 1, w) + w(n - 1)
  }

  function SumOver<T>(s: seq<T>, w: T -> nat): nat {
    if s == [] then 0 else SumOver(s[..|s| - 1], w) + w(s[|s| - 1])
  }

  lemma {:induction false} SumOverSnoc<T>(s: seq<T>, x: T, w: T -> nat)
    ensures SumOver(s + [x], w) == SumOver(s, w) + w(x)
  {
    assert (s + [x])[..|s|] == s;
  }

  lemma {:induction false} SumOverCons<T>(x: T, s: seq<T>, w: T -> nat)
    ensures SumOver([x] + s, w) == w(x) + SumOver(s, w)
    decreases |s|
  {
    if s == [] {
      assert [x] + s == [] + [x];
    } else {
      var k := |s| - 1;
      SumOverCons(x, s[..k], w);
      assert ([x] + s)[..|s|] == [x] + s[..k];
    }
  }

  lemma {:induction false} SumOverSame<T>(s: seq<T>, v: T -> nat, w: T -> nat)
    requires forall x :: x in s ==> v(x) == w(x)
    ensures SumOver(s, v) == SumOver(s, w)
    decreases |s|
  {
    if s != [] { SumOverSame(s[..|s| - 1], v, w); }
  }

  // ----- how many elements -----

  function CountIf<T>(s: seq<T>, p: T -> bool): nat {
    if s == [] then 0 else (if p(s[0]) then 1 else 0) + CountIf(s[1..], p)
  }

  /** Where the elements with the property stand. */
  function Places<T>(s: seq<T>, p: T -> bool): set<nat> {
    set i: nat | i < |s| && p(s[i])
  }

  lemma {:induction false} CountIfSnoc<T>(s: seq<T>, x: T, p: T -> bool)
    ensures CountIf(s + [x], p) == CountIf(s, p) + if p(x) then 1 else 0
    decreases |s|
  {
    if s != [] {
      assert (s + [x])[1..] == s[1..] + [x];
      CountIfSnoc(s[1..], x, p);
    }
  }

  lemma {:induction false} PlacesSnoc<T>(s: seq<T>, x: T, p: T -> bool)
    ensures Places(s + [x], p) == Places(s, p) + if p(x) then {|s|} else {}
    ensures |s| !in Places(s, p)
  {
  }

  lemma {:induction false} CountIfIs<T>(s: seq<T>, p: T -> bool)
    ensures CountIf(s, p) == |Places(s, p)|
    decreases |s|
  {
    if s == [] {
      assert Places(s, p) == {};
    } else {
      var init, x := s[..|s| - 1], s[|s| - 1];
      assert s == init + [x];
      CountIfIs(init, p);
      CountIfSnoc(init, x, p);
      PlacesSnoc(init, x, p);
    }
  }
}
