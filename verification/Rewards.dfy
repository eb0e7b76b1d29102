/** Temporary discovery access earned by rewarded ads: each grant extends the expiry, or starts anew
    when it has passed. Times are milliseconds. */
module Rewards {
  import opened Common

  const MS_PER_MINUTE := 60 * 1000

  function Granted(expiry: Option<int>, now: int, minutes: nat): int {
    var baseline := if expiry.Some? && expiry.value > now then expiry.value else now;
    baseline + minutes * MS_PER_MINUTE
  }

  predicate HasRewardedAccess(expiry: Option<int>, now: int) {
    expiry.Some? && now < expiry.value
  }

  class UserRow {
    var temporaryDiscoveryAccessExpiresAt: Option<int>

    constructor ()
      ensures temporaryDiscoveryAccessExpiresAt == None
    {
      temporaryDiscoveryAccessExpiresAt := None;
    }

    method GrantTemporaryDiscoveryAccess(durationMinutes: nat, now: int)
      modifies this
      ensures temporaryDiscoveryAccessExpiresAt ==
          Some(Granted(old(temporaryDiscoveryAccessExpiresAt), now, durationMinutes))
      ensures var former := old(temporaryDiscoveryAccessExpiresAt);
              temporaryDiscoveryAccessExpiresAt ==
              Some((if former.Some? && now < former.value then former.value else now) + durationMinutes * 60_000)
      ensures HasRewardedAccess(temporaryDiscoveryAccessExpiresAt, now) <==>
                durationMinutes > 0 || HasRewardedAccess(old(temporaryDiscoveryAccessExpiresAt), now)
    {
      var baseline := now;
      if temporaryDiscoveryAccessExpiresAt.Some? {
        if temporaryDiscoveryAccessExpiresAt.value > now {
          baseline := temporaryDiscoveryAccessExpiresAt.value;
        }
      }
      temporaryDiscoveryAccessExpiresAt := Some(baseline + durationMinutes * 60 * 1000);
    }
  }

  // ---------------------------------------------------------------------------
  // Runs of grants
  // ---------------------------------------------------------------------------

  datatype Grant = Grant(now: int, minutes: nat)

  predicate InOrder(gs: seq<Grant>) {
    forall i, j :: 0 <= i < j < |gs| ==> gs[i].now <= gs[j].now
  }

  /** The stored expiry after all grants. */
  function Expiry(gs: seq<Grant>): Option<int> {
    if gs == [] then None
    else
      var g := gs[|gs| - 1];
      Some(Granted(Expiry(gs[..|gs| - 1]), g.now, g.minutes))
  }

  /** The stored expiry at time t: that after the grants made until then. */
  function ExpiryAt(gs: seq<Grant>, t: int): Option<int> {
    if gs == [] then None
    else if gs[|gs| - 1].now <= t then Expiry(gs)
    else ExpiryAt(gs[..|gs| - 1], t)
  }

  function TotalMs(gs: seq<Grant>): nat {
    if gs == [] then 0 else TotalMs(gs[..|gs| - 1]) + gs[|gs| - 1].minutes * MS_PER_MINUTE
  }

  /** The milliseconds in [lo, hi) at which rewarded access holds. */
  function HeldDuring(gs: seq<Grant>, lo: int, hi: int): set<int> {
    set t | lo <= t < hi && HasRewardedAccess(ExpiryAt(gs, t), t)
  }

  function Interval(lo: int, hi: int): set<int> {
    set t | lo <= t < hi && Between(lo, t, hi)
  }

  predicate Between(lo: int, t: int, hi: int) {
    lo <= t < hi
  }

  lemma {:induction false} IntervalSize(lo: int, hi: int)
    requires lo <= hi
    ensures |Interval(lo, hi)| == hi - lo
    decreases hi - lo
  {
    if lo < hi {
      IntervalSize(lo, hi - 1);
      assert Interval(lo, hi) == Interval(lo, hi - 1) + {hi - 1};
    } else {
      assert Interval(lo, hi) == {};
    }
  }

  /** When a grant starts to count: at once, or when what was granted before runs out. */
  function StartsAt(gs: seq<Grant>, g: Grant): int {
    Granted(Expiry(gs), g.now, 0)
  }

  function EndsAt(gs: seq<Grant>, g: Grant): int {
    StartsAt(gs, g) + g.minutes * MS_PER_MINUTE
  }

  /** A grant adds exactly its duration, right after whatever was held before. */
  lemma GrantExtendsAccess(gs: seq<Grant>, g: Grant, t: int)
    requires InOrder(gs + [g])
    ensures HasRewardedAccess(ExpiryAt(gs + [g], t), t) <==>
              HasRewardedAccess(ExpiryAt(gs, t), t) || StartsAt(gs, g) <= t < EndsAt(gs, g)
    ensures HasRewardedAccess(ExpiryAt(gs, t), t) ==> t < StartsAt(gs, g)
  {
    var all := gs + [g];
    assert all[..|all| - 1] == gs && all[|all| - 1] == g;
    if gs != [] {
      assert all[|gs| - 1].now <= all[|gs|].now;
      if t < g.now {
        ExpiryAtIsReached(gs, t);
      }
    }
  }

  /** At any time the stored expiry is at most the final one. */
  lemma {:induction false} ExpiryAtIsReached(gs: seq<Grant>, t: int)
    ensures ExpiryAt(gs, t).Some? ==> Expiry(gs).Some? && ExpiryAt(gs, t).value <= Expiry(gs).value
  {
    if gs != [] && t < gs[|gs| - 1].now {
      ExpiryAtIsReached(gs[..|gs| - 1], t);
    }
  }

  lemma HeldExtends(gs: seq<Grant>, g: Grant, lo: int, hi: int)
    requires InOrder(gs + [g]) && lo <= g.now && EndsAt(gs, g) <= hi
    ensures |HeldDuring(gs + [g], lo, hi)| == |HeldDuring(gs, lo, hi)| + g.minutes * MS_PER_MINUTE
  {
    var added := Interval(StartsAt(gs, g), EndsAt(gs, g));
    forall t ensures t in HeldDuring(gs + [g], lo, hi) <==> t in HeldDuring(gs, lo, hi) || t in added
    {
      GrantExtendsAccess(gs, g, t);
    }
    forall t | t in HeldDuring(gs, lo, hi) ensures t !in added
    {
      GrantExtendsAccess(gs, g, t);
    }
    assert HeldDuring(gs + [g], lo, hi) == HeldDuring(gs, lo, hi) + added;
    IntervalSize(StartsAt(gs, g), EndsAt(gs, g));
  }

  lemma {:induction false} HeldGrows(gs: seq<Grant>, lo: int, hi: int)
    requires InOrder(gs)
    requires gs != [] ==> lo <= gs[0].now && Expiry(gs).value <= hi
    ensures |HeldDuring(gs, lo, hi)| == TotalMs(gs)
  {
    if gs == [] {
      assert HeldDuring(gs, lo, hi) == {};
    } else {
      var before, g := gs[..|gs| - 1], gs[|gs| - 1];
      assert gs == before + [g];
      assert gs[0].now <= g.now;
      ExpiryNeverDecreases(before, g);
      HeldGrows(before, lo, hi);
      HeldExtends(before, g, lo, hi);
    }
  }

  /** Over any run of grants in order from no access, access holds for exactly the granted time, all of
      it between the first grant and the stored expiry. */
  lemma RewardTimeIsConserved(gs: seq<Grant>, lo: int, hi: int)
    requires gs != [] && InOrder(gs)
    requires lo <= gs[0].now && Expiry(gs).value <= hi
    ensures |HeldDuring(gs, lo, hi)| == TotalMs(gs)
    ensures HeldDuring(gs, lo, hi) <= Interval(gs[0].now, Expiry(gs).value)
  {
    HeldGrows(gs, lo, hi);
    forall t | t in HeldDuring(gs, lo, hi) ensures gs[0].now <= t < Expiry(gs).value
    {
      HeldWithin(gs, t);
    }
  }

  lemma {:induction false} HeldWithin(gs: seq<Grant>, t: int)
    requires gs != [] && InOrder(gs) && HasRewardedAccess(ExpiryAt(gs, t), t)
    ensures gs[0].now <= t < Expiry(gs).value
  {
    var before, g := gs[..|gs| - 1], gs[|gs| - 1];
    ExpiryAtIsReached(gs, t);
    if t < g.now {
      assert ExpiryAt(gs, t) == ExpiryAt(before, t);
      HeldWithin(before, t);
    }
  }

  /** The expiry never moves back, and lies at least the granted time after the grant. */
  lemma ExpiryNeverDecreases(gs: seq<Grant>, g: Grant)
    ensures Expiry(gs + [g]).Some? && Expiry(gs + [g]).value >= g.now + g.minutes * MS_PER_MINUTE
    ensures Expiry(gs).Some? ==> Expiry(gs + [g]).value >= Expiry(gs).value
  {
    assert (gs + [g])[..|gs|] == gs;
  }
}
