/** Bounding how often values of a history change. */
module EpochHistory {
  import opened Sets

  type Id = nat

  /** `h[k][x]` is the value of `x` at moment `k`. */
  type History = seq<map<Id, nat>>

  /** `x` had value `e` at moment `k` or before. */
  ghost predicate Had(h: History, x: Id, e: nat, k: nat)
    requires k < |h|
  {
    exists j | 0 <= j <= k :: x in h[j] && h[j][x] == e
  }

  lemma HadLater(h: History, x: Id, e: nat, j: nat, k: nat)
    requires j <= k < |h| && Had(h, x, e, j)
    ensures Had(h, x, e, k)
  {
  }

  /** The value of `x` does not decrease, and is left only if a greater `y` once had it. */
  ghost predicate Contests(h: History, ids: set<Id>, x: Id, k: nat)
    requires k + 1 < |h| && x in h[k] && x in h[k + 1]
  {
    h[k][x] <= h[k + 1][x] &&
    (h[k][x] != h[k + 1][x] ==> exists y | y in ids && x < y :: Had(h, y, h[k][x], k))
  }

  ghost predicate Contested(h: History, ids: set<Id>) {
    && |h| > 0
    && (forall k | 0 <= k < |h| :: h[k].Keys == ids)
    && (forall k, x | 0 <= k < |h| - 1 && x in ids :: Contests(h, ids, x, k))
  }

  /** How often `x` changed in the first `n` steps. */
  ghost function Bumps(h: History, ids: set<Id>, x: Id, n: nat): nat
    requires Contested(h, ids) && n < |h| && x in ids
  {
    if n == 0 then 0 else Bumps(h, ids, x, n - 1) + if h[n - 1][x] != h[n][x] then 1 else 0
  }

  /** The values `x` left in the first `n` steps. */
  ghost function Left(h: History, ids: set<Id>, x: Id, n: nat): set<nat>
    requires Contested(h, ids) && n < |h| && x in ids
  {
    if n == 0 then {} else Left(h, ids, x, n - 1) + if h[n - 1][x] != h[n][x] then {h[n - 1][x]} else {}
  }

  /** All values of the members of `xs` up to moment `n`. */
  ghost function Values(h: History, ids: set<Id>, xs: set<Id>, n: nat): set<nat>
    requires Contested(h, ids) && n < |h| && xs <= ids
  {
    set x, k | x in xs && 0 <= k <= n :: h[k][x]
  }

  lemma {:induction false} LeftBelow(h: History, ids: set<Id>, x: Id, n: nat)
    requires Contested(h, ids) && n < |h| && x in ids
    ensures forall e | e in Left(h, ids, x, n) :: e < h[n][x]
    ensures |Left(h, ids, x, n)| == Bumps(h, ids, x, n)
  {
    if n > 0 {
      LeftBelow(h, ids, x, n - 1);
      assert Contests(h, ids, x, n - 1);
    }
  }

  lemma {:induction false} ValuesOfOne(h: History, ids: set<Id>, x: Id, n: nat)
    requires Contested(h, ids) && n < |h| && x in ids
    ensures Values(h, ids, {x}, n) == Left(h, ids, x, n) + {h[n][x]}
  {
    if n == 0 {
      assert Values(h, ids, {x}, 0) == {h[0][x]};
    } else {
      ValuesOfOne(h, ids, x, n - 1);
      assert Values(h, ids, {x}, n) == Values(h, ids, {x}, n - 1) + {h[n][x]};
    }
  }

  ghost function Above(ids: set<Id>, x: Id): set<Id> {
    set y | y in ids && x < y
  }

  lemma {:induction false} LeftContested(h: History, ids: set<Id>, x: Id, n: nat)
    requires Contested(h, ids) && n < |h| && x in ids
    ensures Left(h, ids, x, n) <= Values(h, ids, Above(ids, x), n)
  {
    if n > 0 {
      LeftContested(h, ids, x, n - 1);
      assert Values(h, ids, Above(ids, x), n - 1) <= Values(h, ids, Above(ids, x), n);
      if h[n - 1][x] != h[n][x] {
        assert Contests(h, ids, x, n - 1);
        var y :| y in ids && x < y && Had(h, y, h[n - 1][x], n - 1);
        var j :| 0 <= j <= n - 1 && y in h[j] && h[j][y] == h[n - 1][x];
        assert y in Above(ids, x) && h[j][y] in Values(h, ids, Above(ids, x), n);
      }
    }
  }

  /** The `k` greatest members have at most `k` values between them, at all moments together. */
  lemma {:induction false} FewValues(h: History, ids: set<Id>, xs: set<Id>, n: nat)
    requires Contested(h, ids) && n < |h| && xs <= ids
    requires forall x, y | x in xs && y in ids && x < y :: y in xs
    ensures |Values(h, ids, xs, n)| <= |xs|
    decreases |xs|
  {
    if xs == {} {
      assert Values(h, ids, xs, n) == {};
    } else {
      var m := Least(xs);
      var rest := xs - {m};
      FewValues(h, ids, rest, n);
      assert Above(ids, m) == rest;
      OneMoreValue(h, ids, xs, m, n);
    }
  }

  lemma OneMoreValue(h: History, ids: set<Id>, xs: set<Id>, m: Id, n: nat)
    requires Contested(h, ids) && n < |h| && xs <= ids && m in xs && Above(ids, m) == xs - {m}
    ensures Values(h, ids, xs, n) == Values(h, ids, xs - {m}, n) + {h[n][m]}
  {
    LeftContested(h, ids, m, n);
    ValuesOfOne(h, ids, m, n);
    var all, others, ones := Values(h, ids, xs, n), Values(h, ids, xs - {m}, n), Values(h, ids, {m}, n);
    forall e | e in all ensures e in others + ones {
      var x, k :| x in xs && 0 <= k <= n && e == h[k][x];
      assert x == m || x in xs - {m};
    }
    assert all == others + ones;
  }

  lemma {:induction false} Least(xs: set<Id>) returns (m: Id)
    requires xs != {}
    ensures m in xs && forall x | x in xs :: m <= x
    decreases |xs|
  {
    var y :| y in xs;
    if xs == {y} {
      m := y;
    } else {
      var rest := xs - {y};
      assert rest != {};
      var z := Least(rest);
      m := if y < z then y else z;
      assert forall x | x in xs :: x == y || x in rest;
    }
  }

  /** A member with `k` greater ones changes at most `k` times. */
  lemma FewBumps(h: History, ids: set<Id>, x: Id, n: nat)
    requires Contested(h, ids) && n < |h| && x in ids
    ensures Bumps(h, ids, x, n) <= |Above(ids, x)|
  {
    LeftBelow(h, ids, x, n);
    LeftContested(h, ids, x, n);
    FewValues(h, ids, Above(ids, x), n);
    SubsetSize(Left(h, ids, x, n), Values(h, ids, Above(ids, x), n));
  }
}
