/** What registration, login and deletion of passkeys do to the table, and where accepted counters come from. */
module PasskeyLaws {
  import opened Common
  import opened Ordering
  import opened Passkeys
  import opened PasskeyRuns

  /** A login is accepted exactly for a known passkey, a verified assertion, and a counter that has grown or is not
      kept at all. Then the row has the new counter and time of use, and no other row changes; otherwise none does. */
  lemma LoginAcceptsIff(t: Table, id: CredentialId, verified: bool, received: nat, now: int)
    ensures var (t', reply) := Login(t, id, verified, received, now);
            && (reply == Done <==>
                  && id in t && verified
                  && (received > t[id].counter || (received == 0 && t[id].counter == 0)))
            && (reply == Done ==>
                  && id in t'
                  && t'[id] == Credential(t[id].user, t[id].key, received, t[id].createdAt, Some(now))
                  && forall i :: i != id ==> Get(t', i) == Get(t, i))
            && (reply != Done ==> t' == t)
  {
  }

  /** A passkey goes exactly when it is the caller's and not the last of a user known to have no password. */
  lemma DeletionTakesOne(t: Table, u: UserId, id: CredentialId, hasPassword: Option<bool>)
    ensures var (t', reply) := Delete(t, u, id, hasPassword);
            && (reply == Done <==>
                  && id in t && t[id].user == u
                  && (hasPassword == Some(false) ==> exists i :: i in t && t[i].user == u && i != id))
            && (reply == Done ==> forall i :: Get(t', i) == if i == id then None else Get(t, i))
            && (reply != Done ==> t' == t)
  {
    if id in t && t[id].user == u {
      if i :| i in t && t[i].user == u && i != id {
        SubsetSize({i, id}, Owned(t, u));
      } else {
        assert Owned(t, u) == {id};
      }
    }
  }

  /** Unused for more than ninety days: 7,776,000,000 milliseconds. */
  predicate LongUnused(c: Credential, now: int) {
    c.lastUsedAt.Some? && now - c.lastUsedAt.value > 7_776_000_000
  }

  /** A passkey known already is refused. Otherwise every long-unused one of the user goes, and another goes
      only if five stay. */
  lemma RegistrationCleansUp(t: Table, u: UserId, key: WebAuthnId, counter: nat, id: CredentialId, now: int,
      listing: seq<CredentialId>)
    requires id !in t && Lists(t, u, key, counter, id, now, listing)
    ensures var (t', reply) := Register(t, u, key, counter, id, now, listing);
            && (reply == Done <==> forall i :: i in t ==> t[i].key != key)
            && (reply != Done ==> t' == t)
            && (reply == Done ==>
                  && (forall i :: i in t' ==> i == id || Get(t, i) == Some(t'[i]))
                  && (id in t' ==> t'[id] == Credential(u, key, counter, now, Some(now)))
                  && (forall i :: i in t && t[i].user == u && LongUnused(t[i], now) ==> i !in t')
                  && (forall i :: i in t && i !in t' ==>
                        t[i].user == u && (LongUnused(t[i], now) || |Owned(t', u)| == 5)))
  {
    var (t', reply) := Register(t, u, key, counter, id, now, listing);
    if reply == Done {
      var cleaned := SavedAndCleaned(t, u, key, counter, id, now);
      FiveNewestStay(cleaned, u, listing);
      OthersAreUntouched(cleaned, u, listing);
      assert id in Owned(cleaned, u);
      forall i | i in t && i !in t' ensures t[i].user == u && (LongUnused(t[i], now) || |Owned(t', u)| == 5) {
        if i in cleaned {
          assert i in Owned(cleaned, u) && i !in Owned(t', u);
          FewerStay(cleaned, u, listing, i);
        }
      }
    }
  }

  lemma FewerStay(t: Table, u: UserId, listing: seq<CredentialId>, i: CredentialId)
    requires NewestFirst(listing, TimesOf(t, u)) && i in Owned(t, u) && i !in Capped(t, listing)
    ensures |Owned(Capped(t, listing), u)| == 5
  {
    FiveNewestStay(t, u, listing);
  }

  // ---------------------------------------------------------------------------
  // Accepted counters
  // ---------------------------------------------------------------------------

  /** The run has a login with a verified assertion for this passkey and counter. */
  predicate SignedIn(es: seq<Event>, id: CredentialId, received: nat) {
    exists n :: 0 <= n < |es| && es[n].SignIn? && es[n].id == id && es[n].verified && es[n].received == received
  }

  lemma {:induction false} NewAcceptedWereSigned(x: State, es: seq<Event>, n: nat)
    requires PossibleRun(x, es) && |x.accepted| <= n < |Run(x, es).accepted|
    ensures SignedIn(es, Run(x, es).accepted[n].0, Run(x, es).accepted[n].1)
    decreases |es|
  {
    if es != [] {
      var x' := After(x, es[0]);
      var (id, received) := Run(x, es).accepted[n];
      if n < |x'.accepted| {
        AcceptedStays(x', es[1..], n);
        assert es[0].SignIn? && es[0].id == id && es[0].verified && es[0].received == received;
      } else {
        NewAcceptedWereSigned(x', es[1..], n);
        var m :| 0 <= m < |es[1..]| && es[1..][m].SignIn? && es[1..][m].id == id && es[1..][m].verified &&
            es[1..][m].received == received;
        assert es[m + 1] == es[1..][m];
      }
    }
  }

  lemma {:induction false} AcceptedStays(x: State, es: seq<Event>, n: nat)
    requires PossibleRun(x, es) && n < |x.accepted|
    ensures n < |Run(x, es).accepted| && Run(x, es).accepted[n] == x.accepted[n]
    decreases |es|
  {
    if es != [] {
      AcceptedStays(After(x, es[0]), es[1..], n);
    }
  }

  /** No counter is ever accepted without a verified assertion. */
  lemma AcceptedWereVerified(es: seq<Event>, n: nat)
    requires PossibleRun(START, es) && n < |Run(START, es).accepted|
    ensures SignedIn(es, Run(START, es).accepted[n].0, Run(START, es).accepted[n].1)
  {
    NewAcceptedWereSigned(START, es, n);
  }
}
