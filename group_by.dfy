/** `df.groupby(key).agg(...)` with pandas' default `dropna=True`: one
    summary per distinct non-missing key, rows with a missing key in no
    group, no promise about row order. */
module Grouping {
  import opened Wrappers

  /** The rows whose key is `k`, in table order. */
  function Group<R, K(==)>(rows: seq<R>, key: R -> Option<K>, k: K): (g: seq<R>)
    ensures |g| <= |rows|
    ensures forall r :: r in g ==> r in rows && key(r) == Some(k)
    ensures forall i :: 0 <= i < |rows| && key(rows[i]) == Some(k) ==> rows[i] in g
  {
    if rows == [] then []
    else (if key(rows[0]) == Some(k) then [rows[0]] else []) + Group(rows[1..], key, k)
  }

  /** A group holds each row with its key as many times as the table does. */
  lemma {:induction false} GroupMultiset<R, K>(rows: seq<R>, key: R -> Option<K>, k: K)
    ensures forall r | r in rows :: multiset(Group(rows, key, k))[r] == if key(r) == Some(k) then multiset(rows)[r] else 0
  {
    if rows != [] {
      GroupMultiset(rows[1..], key, k);
      assert rows == [rows[0]] + rows[1..];
    }
  }

  /** The distinct non-missing keys of the rows. */
  function Keys<R, K(==)>(rows: seq<R>, key: R -> Option<K>): set<K>
  {
    set i | 0 <= i < |rows| && key(rows[i]).Some? :: key(rows[i]).value
  }

  /** One summary per key present in some row, computed from that key's group. */
  function GroupBy<R, K(==,!new), S>(rows: seq<R>, key: R -> Option<K>, summary: seq<R> -> S): (m: map<K, S>)
    ensures forall k :: k in m <==> exists i :: 0 <= i < |rows| && key(rows[i]) == Some(k)
    ensures forall k :: k in m ==> Group(rows, key, k) != []
  {
    map k | k in Keys(rows, key) :: summary(Group(rows, key, k))
  }

  /** Sum of an integer weight over the rows. */
  function Total<R>(rows: seq<R>, w: R -> int): int
  {
    if rows == [] then 0 else w(rows[0]) + Total(rows[1..], w)
  }

  /** Sum of the weight over the rows whose key is present and in `ks`. */
  function KeyedTotal<R, K(==)>(rows: seq<R>, key: R -> Option<K>, w: R -> int, ks: set<K>): int
  {
    if rows == [] then 0
    else (if key(rows[0]).Some? && key(rows[0]).value in ks then w(rows[0]) else 0)
         + KeyedTotal(rows[1..], key, w, ks)
  }

  /** Sum of the weight over the rows whose key is present. */
  function KeyedWeight<R, K(==)>(rows: seq<R>, key: R -> Option<K>, w: R -> int): int
  {
    if rows == [] then 0
    else (if key(rows[0]).Some? then w(rows[0]) else 0) + KeyedWeight(rows[1..], key, w)
  }

  ghost function Pick<K>(ks: set<K>): K
    requires ks != {}
  {
    var k :| k in ks; k
  }

  /** Sum, over the keys in `ks`, of the weight of each key's group. */
  ghost function GroupTotals<R, K>(rows: seq<R>, key: R -> Option<K>, w: R -> int, ks: set<K>): int
    decreases ks
  {
    if ks == {} then 0
    else
      var k := Pick(ks);
      Total(Group(rows, key, k), w) + GroupTotals(rows, key, w, ks - {k})
  }

  /** Sum, over the keys in `ks`, of a number read off each entry of a view. */
  ghost function SumOverView<K, S>(view: map<K, S>, f: S -> int, ks: set<K>): int
    requires ks <= view.Keys
    decreases ks
  {
    if ks == {} then 0
    else
      var k := Pick(ks);
      f(view[k]) + SumOverView(view, f, ks - {k})
  }

  lemma {:induction false} GroupTotalsOfNoRows<R, K>(key: R -> Option<K>, w: R -> int, ks: set<K>)
    ensures GroupTotals([], key, w, ks) == 0
    decreases ks
  {
    if ks != {} {
      GroupTotalsOfNoRows(key, w, ks - {Pick(ks)});
    }
  }

  /** Adding a row in front adds its weight to exactly one group total: the
      one of its key, if that key is in `ks`. */
  lemma {:induction false} GroupTotalsStep<R, K>(rows: seq<R>, key: R -> Option<K>, w: R -> int, ks: set<K>)
    requires rows != []
    ensures GroupTotals(rows, key, w, ks)
         == GroupTotals(rows[1..], key, w, ks)
            + (if key(rows[0]).Some? && key(rows[0]).value in ks then w(rows[0]) else 0)
    decreases ks
  {
    if ks != {} {
      var k := Pick(ks);
      assert Group(rows, key, k)
          == (if key(rows[0]) == Some(k) then [rows[0]] else []) + Group(rows[1..], key, k);
      TotalOfAppend((if key(rows[0]) == Some(k) then [rows[0]] else []), Group(rows[1..], key, k), w);
      GroupTotalsStep(rows, key, w, ks - {k});
    }
  }

  lemma {:induction false} TotalOfAppend<R>(a: seq<R>, b: seq<R>, w: R -> int)
    ensures Total(a + b, w) == Total(a, w) + Total(b, w)
  {
    if a == [] {
      assert a + b == b;
    } else {
      assert (a + b)[1..] == a[1..] + b;
      TotalOfAppend(a[1..], b, w);
    }
  }

  /** Summing group totals over `ks` adds up every row whose key is in `ks`
      exactly once. */
  lemma {:induction false} GroupTotalsPartition<R, K>(rows: seq<R>, key: R -> Option<K>, w: R -> int, ks: set<K>)
    ensures GroupTotals(rows, key, w, ks) == KeyedTotal(rows, key, w, ks)
  {
    if rows == [] {
      GroupTotalsOfNoRows(key, w, ks);
    } else {
      GroupTotalsStep(rows, key, w, ks);
      GroupTotalsPartition(rows[1..], key, w, ks);
    }
  }

  lemma {:induction false} KeyedTotalOfAllKeys<R, K>(rows: seq<R>, key: R -> Option<K>, w: R -> int, ks: set<K>)
    requires Keys(rows, key) <= ks
    ensures KeyedTotal(rows, key, w, ks) == KeyedWeight(rows, key, w)
  {
    if rows != [] {
      assert Keys(rows[1..], key) <= Keys(rows, key) by {
        forall k | k in Keys(rows[1..], key) ensures k in Keys(rows, key) {
          var i :| 0 <= i < |rows[1..]| && key(rows[1..][i]).Some? && key(rows[1..][i]).value == k;
          assert rows[1..][i] == rows[i + 1];
        }
      }
      if key(rows[0]).Some? {
        assert key(rows[0]).value in Keys(rows, key);
      }
      KeyedTotalOfAllKeys(rows[1..], key, w, ks);
    }
  }

  /** Reading a group total off each entry of a grouped view and summing over
      the view gives the group totals. */
  lemma {:induction false} SumOverGroupBy<R, K(!new), S>(rows: seq<R>, key: R -> Option<K>, summary: seq<R> -> S,
                                                       f: S -> int, w: R -> int, ks: set<K>)
    requires ks <= Keys(rows, key)
    requires forall g :: f(summary(g)) == Total(g, w)
    ensures SumOverView(GroupBy(rows, key, summary), f, ks) == GroupTotals(rows, key, w, ks)
    decreases ks
  {
    if ks != {} {
      var k := Pick(ks);
      SumOverGroupBy(rows, key, summary, f, w, ks - {k});
    }
  }

  /** Conservation: summing, over every entry of a grouped view, a count
      that each group computes as a total of `w` gives the total of `w` over
      the rows that have a key. Rows with a missing key contribute nothing. */
  lemma GroupByConserves<R, K(!new), S>(rows: seq<R>, key: R -> Option<K>, summary: seq<R> -> S,
                                      f: S -> int, w: R -> int)
    requires forall g :: f(summary(g)) == Total(g, w)
    ensures SumOverView(GroupBy(rows, key, summary), f, GroupBy(rows, key, summary).Keys)
         == KeyedWeight(rows, key, w)
  {
    var ks := Keys(rows, key);
    assert GroupBy(rows, key, summary).Keys == ks;
    SumOverGroupBy(rows, key, summary, f, w, ks);
    GroupTotalsPartition(rows, key, w, ks);
    KeyedTotalOfAllKeys(rows, key, w, ks);
  }

  /** The rows that `keep` accepts, in table order: `df[mask]`. */
  function Filter<R(!new)>(rows: seq<R>, keep: R -> bool): (f: seq<R>)
    ensures |f| <= |rows|
    ensures forall r :: r in f <==> r in rows && keep(r)
    ensures forall r :: multiset(f)[r] == if keep(r) then multiset(rows)[r] else 0
  {
    if rows == [] then []
    else
      assert multiset(rows) == multiset([rows[0]]) + multiset(rows[1..]) by { assert rows == [rows[0]] + rows[1..]; }
      (if keep(rows[0]) then [rows[0]] else []) + Filter(rows[1..], keep)
  }

  /** Nothing is kept when no row is accepted. */
  lemma {:induction false} FilterNoneKept<R(!new)>(rows: seq<R>, keep: R -> bool)
    requires forall k :: 0 <= k < |rows| ==> !keep(rows[k])
    ensures Filter(rows, keep) == []
  {
    if rows != [] {
      FilterNoneKept(rows[1..], keep);
    }
  }

  /** The entries of a view whose key `sel` accepts: `view[view[col].isin(...)]`. */
  function Restrict<K(!new), S>(view: map<K, S>, sel: K -> bool): (m: map<K, S>)
    ensures forall k :: k in m <==> k in view && sel(k)
    ensures forall k :: k in m ==> m[k] == view[k]
  {
    map k | k in view && sel(k) :: view[k]
  }

  /** Filtering rows by a condition that accepts every row with key `k`
      leaves the group of `k` whole. */
  lemma {:induction false} GroupOfFilter<R(!new), K>(rows: seq<R>, key: R -> Option<K>, keep: R -> bool, k: K)
    requires forall r :: key(r) == Some(k) ==> keep(r)
    ensures Group(Filter(rows, keep), key, k) == Group(rows, key, k)
  {
    if rows != [] {
      GroupOfFilter(rows[1..], key, keep, k);
      var rest := Filter(rows[1..], keep);
      if keep(rows[0]) {
        assert Filter(rows, keep) == [rows[0]] + rest;
        assert ([rows[0]] + rest)[1..] == rest;
      } else {
        assert Filter(rows, keep) == rest;
        assert key(rows[0]) != Some(k);
      }
    }
  }

  /** Grouping the rows a key condition selects gives the grouped view of all
      rows, restricted to the selected keys: filtering before or after the
      group-by is the same when the filter looks only at the key. */
  lemma GroupByOfFilter<R(!new), K(!new), S>(rows: seq<R>, key: R -> Option<K>, summary: seq<R> -> S,
                                       keep: R -> bool, sel: K -> bool)
    requires forall r :: key(r).Some? ==> (keep(r) <==> sel(key(r).value))
    ensures GroupBy(Filter(rows, keep), key, summary) == Restrict(GroupBy(rows, key, summary), sel)
  {
    var whole := GroupBy(rows, key, summary);
    var part := GroupBy(Filter(rows, keep), key, summary);
    var want := Restrict(whole, sel);
    var f := Filter(rows, keep);
    forall k | k in part ensures k in want {
      var i :| 0 <= i < |f| && key(f[i]) == Some(k);
      var r := f[i];
      assert r in f;
      assert r in rows && keep(r);
      var j :| 0 <= j < |rows| && rows[j] == r;
      assert k in whole;
      assert sel(k);
    }
    forall k | k in want ensures k in part && part[k] == want[k] {
      var i :| 0 <= i < |rows| && key(rows[i]) == Some(k);
      assert rows[i] in f;
      GroupOfFilter(rows, key, keep, k);
      assert part[k] == summary(Group(f, key, k));
      assert whole[k] == summary(Group(rows, key, k));
    }
    assert part.Keys == want.Keys;
    MapsAgree(part, want);
  }

  lemma MapsAgree<K, S>(a: map<K, S>, b: map<K, S>)
    requires a.Keys == b.Keys
    requires forall k :: k in a ==> a[k] == b[k]
    ensures a == b
  {
  }
}
