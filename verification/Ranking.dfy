/** `ORDER BY key` with ties broken by id: the one way to list a set of rows. */
module Ranking {
  import opened Arithmetic

  predicate Before(i: nat, j: nat, key: nat -> real)
  {
    key(i) < key(j) || (key(i) == key(j) && i < j)
  }

  predicate IsFirst(m: nat, ids: set<nat>, key: nat -> real)
  {
    m in ids && forall j :: j in ids && j != m ==> Before(m, j, key)
  }

  lemma {:induction false} FirstExists(ids: set<nat>, key: nat -> real) returns (m: nat)
    requires ids != {}
    ensures IsFirst(m, ids, key)
  {
    var a :| a in ids;
    var rest := ids - {a};
    assert ids == rest + {a};
    m := a;
    if rest != {} {
      var b := FirstExists(rest, key);
      if Before(b, a, key) { m := b; }
      forall j | j in ids && j != m
        ensures Before(m, j, key)
      {
        assert j == a || j == b || Before(b, j, key);
      }
    }
  }

  function First(ids: set<nat>, key: nat -> real): (m: nat)
    requires ids != {}
    ensures IsFirst(m, ids, key)
  {
    assert exists m :: IsFirst(m, ids, key) by { var m := FirstExists(ids, key); }
    var m :| m in ids && IsFirst(m, ids, key);
    m
  }

  function Ranked(ids: set<nat>, key: nat -> real): (r: seq<nat>)
    ensures |r| == |ids|
    decreases |ids|
  {
    if ids == {} then [] else [First(ids, key)] + Ranked(ids - {First(ids, key)}, key)
  }

  /** `r` lists exactly `ids`, in order. */
  ghost predicate IsRanking(r: seq<nat>, ids: set<nat>, key: nat -> real)
  {
    && |r| == |ids|
    && (forall i, j :: 0 <= i < j < |r| ==> Before(r[i], r[j], key))
    && (forall x :: x in r <==> x in ids)
  }

  lemma Prepend(m: nat, rest: seq<nat>, ids: set<nat>, key: nat -> real)
    requires IsFirst(m, ids, key) && IsRanking(rest, ids - {m}, key)
    ensures IsRanking([m] + rest, ids, key)
  {
    assert forall j :: 0 <= j < |rest| ==> rest[j] in ids - {m};
  }

  lemma {:induction false} RankedRanks(ids: set<nat>, key: nat -> real)
    ensures IsRanking(Ranked(ids, key), ids, key)
    decreases |ids|
  {
    if ids != {} {
      var m := First(ids, key);
      RankedRanks(ids - {m}, key);
      Prepend(m, Ranked(ids - {m}, key), ids, key);
    }
  }

  /** There is one ranking, whatever keys other rows have. */
  lemma {:induction false} RankingIsUnique(r: seq<nat>, s: seq<nat>, ids: set<nat>, key: nat -> real, other: nat -> real)
    requires IsRanking(r, ids, key) && IsRanking(s, ids, other)
    requires forall i :: i in ids ==> key(i) == other(i)
    ensures r == s
    decreases |r|
  {
    if r == [] {
      assert |ids| == 0 == |s|;
    } else {
      assert r[0] in ids && r[0] in s;
      assert s[0] in ids && s[0] in r;
      assert r[0] == s[0];
      var rest := ids - {r[0]};
      Tail(r, ids, key);
      Tail(s, ids, other);
      RankingIsUnique(r[1..], s[1..], rest, key, other);
    }
  }

  lemma Tail(r: seq<nat>, ids: set<nat>, key: nat -> real)
    requires IsRanking(r, ids, key) && r != []
    ensures IsRanking(r[1..], ids - {r[0]}, key)
  {
    forall x
      ensures x in r[1..] <==> x in ids - {r[0]}
    {
      if x in ids && x != r[0] {
        var i :| 0 <= i < |r| && r[i] == x;
        assert r[1..][i - 1] == x;
      }
    }
  }

  /** The rows that come before `m`. */
  function Ahead(ids: set<nat>, key: nat -> real, m: nat): set<nat>
  {
    set x | x in ids && Before(x, m, key)
  }

  /** `LIMIT k` */
  function Top(ids: set<nat>, key: nat -> real, k: nat): (r: seq<nat>)
    ensures |r| == Min(k, |ids|)
  {
    Ranked(ids, key)[..Min(k, |ids|)]
  }

  /** The first `k` are rows of the set in order without repetition, and no row left
      out comes before one taken. */
  lemma TopIsClosest(ids: set<nat>, key: nat -> real, k: nat)
    ensures var r := Top(ids, key, k);
            && (forall i, j :: 0 <= i < j < |r| ==> Before(r[i], r[j], key))
            && (forall x :: x in r ==> x in ids)
            && (forall x, y :: x in ids && x !in r && y in r ==> Before(y, x, key))
  {
    hide Ranked;
    RankedRanks(ids, key);
    var all, r := Ranked(ids, key), Top(ids, key, k);
    forall x, y | x in ids && x !in r && y in r
      ensures Before(y, x, key)
    {
      var i :| 0 <= i < |all| && all[i] == x;
      var j :| 0 <= j < |r| && r[j] == y;
      assert forall q :: 0 <= q < |r| ==> all[q] == r[q] && r[q] in r;
      assert i >= |r|;
      assert all[j] == y;
    }
  }

  /** `r` is the first `k` of the set: in order, as many as there are, and nothing left
      out comes before one taken. */
  ghost predicate IsTop(r: seq<nat>, ids: set<nat>, key: nat -> real, k: nat)
  {
    && |r| == Min(k, |ids|)
    && (forall i, j :: 0 <= i < j < |r| ==> Before(r[i], r[j], key))
    && (forall i :: 0 <= i < |r| ==> r[i] in ids)
    && (forall x, i :: x in ids && x !in r && 0 <= i < |r| ==> Before(r[i], x, key))
  }

  lemma TopIsTop(ids: set<nat>, key: nat -> real, k: nat)
    ensures IsTop(Top(ids, key, k), ids, key, k)
  {
    hide Top;
    TopIsClosest(ids, key, k);
  }

  function Elements(r: seq<nat>): (s: set<nat>)
    ensures forall x :: x in s <==> x in r
  {
    set x | x in r
  }

  lemma {:induction false} CountElements(r: seq<nat>, key: nat -> real)
    requires forall i, j :: 0 <= i < j < |r| ==> Before(r[i], r[j], key)
    ensures |Elements(r)| == |r|
  {
    if r != [] {
      var n := |r| - 1;
      CountElements(r[..n], key);
      assert r[n] !in r[..n];
      assert r == r[..n] + [r[n]];
      assert Elements(r) == Elements(r[..n]) + {r[n]};
    }
  }

  /** A row stands at the number of rows before it. */
  lemma RankIsCount(ids: set<nat>, key: nat -> real, n: nat)
    requires n < |ids|
    ensures var m := Ranked(ids, key)[n]; m in ids && |Ahead(ids, key, m)| == n
  {
    hide Ranked;
    RankedRanks(ids, key);
    var r := Ranked(ids, key);
    CountElements(r[..n], key);
    forall x
      ensures x in Elements(r[..n]) <==> x in Ahead(ids, key, r[n])
    {
      if x in Ahead(ids, key, r[n]) {
        var i :| 0 <= i < |r| && r[i] == x;
        assert r[..n][i] == x;
      }
      if x in r[..n] {
        var i :| 0 <= i < n && r[i] == x;
      }
    }
    assert Elements(r[..n]) == Ahead(ids, key, r[n]);
  }

  /** The order decides which rows are the first `k`, and how they are listed. */
  lemma TopIsUnique(r: seq<nat>, ids: set<nat>, key: nat -> real, k: nat)
    requires IsTop(r, ids, key, k)
    ensures r == Top(ids, key, k)
  {
    hide Ranked;
    var rest := ids - Elements(r);
    CountElements(r, key);
    assert |rest| == |ids| - |r| by { assert ids == rest + Elements(r); }
    RankedRanks(rest, key);
    RankedRanks(ids, key);
    var all := r + Ranked(rest, key);
    forall i, j | 0 <= i < j < |all|
      ensures Before(all[i], all[j], key)
    {
      if i < |r| <= j { assert all[j] in Ranked(rest, key); }
    }
    assert forall x :: x in all <==> x in ids;
    RankingIsUnique(all, Ranked(ids, key), ids, key, key);
  }
}
