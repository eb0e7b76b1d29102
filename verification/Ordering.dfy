/** Rows by creation time: the answer of an `ORDER BY createdAt DESC` query, and what its positions mean. */
module Ordering {

  /** The keys listed once each, newest first. */
  ghost predicate NewestFirst<K(!new)>(ids: seq<K>, at: map<K, int>) {
    && (forall k :: k in ids <==> k in at)
    && (forall i, j :: 0 <= i < j < |ids| ==> ids[i] != ids[j] && at[ids[i]] >= at[ids[j]])
  }

  lemma {:induction false} NewestExists<K>(keys: set<K>, at: map<K, int>) returns (newest: K)
    requires keys != {} && keys <= at.Keys
    ensures newest in keys && forall k :: k in keys ==> at[k] <= at[newest]
    decreases |keys|
  {
    newest :| newest in keys;
    var rest := keys - {newest};
    if rest != {} {
      var other := NewestExists(rest, at);
      forall k | k in keys ensures k == newest || at[k] <= at[other]
      {
        if k != newest { assert k in rest; }
      }
      if at[newest] < at[other] {
        newest := other;
      }
    }
  }

  method Query<K(==, !new)>(at: map<K, int>) returns (ids: seq<K>)
    ensures NewestFirst(ids, at)
  {
    ids := [];
    var rest := at.Keys;
    while rest != {}
      invariant rest <= at.Keys
      invariant forall k :: k in ids <==> k in at && k !in rest
      invariant forall i, j :: 0 <= i < j < |ids| ==> ids[i] != ids[j] && at[ids[i]] >= at[ids[j]]
      invariant forall i, k :: 0 <= i < |ids| && k in rest ==> at[ids[i]] >= at[k]
      decreases rest
    {
      ghost var top := NewestExists(rest, at);
      var newest :| newest in rest && forall k :: k in rest ==> at[k] <= at[newest];
      ids := ids + [newest];
      rest := rest - {newest};
    }
  }

  lemma {:induction false} ListingExists<K(!new)>(at: map<K, int>) returns (ids: seq<K>)
    ensures NewestFirst(ids, at)
    decreases |at|
  {
    if at.Keys == {} {
      ids := [];
    } else {
      var newest := NewestExists(at.Keys, at);
      var rest := at - {newest};
      assert rest.Keys == at.Keys - {newest};
      assert |rest.Keys| < |at.Keys|;
      var tail := ListingExists(rest);
      ids := [newest] + tail;
      ListingGrows(newest, tail, rest, at);
    }
  }

  lemma ListingGrows<K(!new)>(newest: K, tail: seq<K>, rest: map<K, int>, at: map<K, int>)
    requires newest in at && rest == at - {newest} && NewestFirst(tail, rest)
    requires forall k :: k in at ==> at[k] <= at[newest]
    ensures NewestFirst([newest] + tail, at)
  {
    var ids := [newest] + tail;
    forall i | 0 <= i < |tail| ensures tail[i] in rest && tail[i] != newest && tail[i] in at
    {
      assert tail[i] in tail;
    }
    forall i, j | 0 <= i < j < |ids| ensures ids[i] != ids[j] && at[ids[i]] >= at[ids[j]]
    {
      assert ids[j] == tail[j - 1];
      if i > 0 { assert ids[i] == tail[i - 1]; }
    }
  }

  /** The keys of rows created later than k. */
  function Newer<K>(at: map<K, int>, k: K): set<K>
    requires k in at
  {
    set l | l in at && at[l] > at[k]
  }

  ghost predicate DistinctTimes<K(!new)>(at: map<K, int>) {
    forall k, l :: k in at && l in at && at[k] == at[l] ==> k == l
  }

  lemma {:induction false} PrefixSize<K>(ids: seq<K>, n: nat)
    requires n <= |ids| && forall i, j :: 0 <= i < j < |ids| ==> ids[i] != ids[j]
    ensures |set i | 0 <= i < n :: ids[i]| == n
  {
    if n > 0 {
      PrefixSize(ids, n - 1);
      assert (set i | 0 <= i < n :: ids[i]) == (set i | 0 <= i < n - 1 :: ids[i]) + {ids[n - 1]};
    }
  }

  /** With distinct times a row's position is the number of newer rows. */
  lemma RankIsPosition<K(!new)>(ids: seq<K>, at: map<K, int>, i: nat)
    requires NewestFirst(ids, at) && DistinctTimes(at) && i < |ids|
    ensures ids[i] in at && |Newer(at, ids[i])| == i
  {
    assert ids[i] in ids;
    forall k | k in Newer(at, ids[i])
      ensures exists j :: 0 <= j < i && ids[j] == k
    {
      assert k in ids;
      var j :| 0 <= j < |ids| && ids[j] == k;
    }
    forall j | 0 <= j < i
      ensures ids[j] in Newer(at, ids[i])
    {
      assert ids[j] in ids && ids[j] != ids[i];
    }
    assert Newer(at, ids[i]) == set j | 0 <= j < i :: ids[j];
    PrefixSize(ids, i);
  }
}
