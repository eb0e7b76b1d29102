/** Passkeys of a user: registration with cleanup and the five-credential cap, login with the signature
    counter check, and guarded deletion. */
module Passkeys {
  import opened Common
  import opened Ordering

  type CredentialId = string
  type WebAuthnId = string

  const NINETY_DAYS_MS := 90 * 24 * 60 * 60 * 1000
  const MAX_CREDENTIALS := 5

  datatype Credential = Credential(user: UserId, key: WebAuthnId, counter: nat, createdAt: int, lastUsedAt: Option<int>)
  type Table = map<CredentialId, Credential>

  datatype Reply = Done | NotFound | Conflict | Refused

  // ---------------------------------------------------------------------------
  // Operations on values
  // ---------------------------------------------------------------------------

  predicate Unused(c: Credential, now: int) {
    c.lastUsedAt.Some? && c.lastUsedAt.value < now - NINETY_DAYS_MS
  }

  /** The cleanup spares the credential just registered and all other users' credentials. */
  function CleanedUp(t: Table, u: UserId, now: int, registered: CredentialId): Table {
    map i | i in t && !(t[i].user == u && Unused(t[i], now) && i != registered) :: t[i]
  }

  function TimesOf(t: Table, u: UserId): map<CredentialId, int> {
    map i | i in t && t[i].user == u :: t[i].createdAt
  }

  /** Everything in the newest-first listing past the first five goes. */
  function Capped(t: Table, listing: seq<CredentialId>): Table {
    map i | i in t && (|listing| > MAX_CREDENTIALS ==> i !in listing[MAX_CREDENTIALS..]) :: t[i]
  }

  /** Saved, and what was unused for ninety days deleted. */
  function SavedAndCleaned(t: Table, u: UserId, key: WebAuthnId, counter: nat, id: CredentialId, now: int): Table {
    CleanedUp(t[id := Credential(u, key, counter, now, Some(now))], u, now, id)
  }

  /** `listing` is the answer of the query over u's passkeys; it breaks ties between creation times. */
  function Register(t: Table, u: UserId, key: WebAuthnId, counter: nat, id: CredentialId, now: int,
      listing: seq<CredentialId>)
      : (Table, Reply) {
    if exists i :: i in t && t[i].key == key then (t, Conflict)
    else (Capped(SavedAndCleaned(t, u, key, counter, id, now), listing), Done)
  }

  ghost predicate Lists(t: Table, u: UserId, key: WebAuthnId, counter: nat, id: CredentialId, now: int,
      listing: seq<CredentialId>) {
    NewestFirst(listing, TimesOf(SavedAndCleaned(t, u, key, counter, id, now), u))
  }

  /** The stored counter must grow, unless the authenticator does not count at all. */
  predicate CounterAccepted(stored: nat, received: nat) {
    received > stored || (received == 0 && stored == 0)
  }

  /** `verified` is the verdict on the assertion together with the account checks. */
  function Login(t: Table, id: CredentialId, verified: bool, received: nat, now: int): (Table, Reply) {
    if id !in t then (t, NotFound)
    else if !verified || !CounterAccepted(t[id].counter, received) then (t, Refused)
    else (t[id := t[id].(counter := received, lastUsedAt := Some(now))], Done)
  }

  function Owned(t: Table, u: UserId): set<CredentialId> {
    set i | i in t && t[i].user == u
  }

  /** `hasPassword` is None when the user row is gone. */
  function Delete(t: Table, u: UserId, id: CredentialId, hasPassword: Option<bool>): (Table, Reply) {
    if id !in t || t[id].user != u then (t, NotFound)
    else if |Owned(t, u)| == 1 && hasPassword == Some(false) then (t, Refused)
    else (t - {id}, Done)
  }

  // ---------------------------------------------------------------------------
  // The service
  // ---------------------------------------------------------------------------

  class PasskeyService {
    var credentials: Table

    constructor ()
      ensures credentials == map[]
    {
      credentials := map[];
    }

    /** One transaction: save, delete what was unused for ninety days, then keep the five newest. */
    method FinishPasskeyRegistration(u: UserId, key: WebAuthnId, counter: nat, id: CredentialId, now: int)
        returns (reply: Reply, listing: seq<CredentialId>)
      modifies this
      ensures reply == Done ==> Lists(old(credentials), u, key, counter, id, now, listing)
      ensures (credentials, reply) == Register(old(credentials), u, key, counter, id, now, listing)
    {
      var same := set i | i in credentials && credentials[i].key == key;
      if same != {} {
        var i :| i in same;
        return Conflict, [];
      }
      forall i | i in credentials ensures credentials[i].key != key
      {
        assert i !in same;
      }
      credentials := credentials[id := Credential(u, key, counter, now, Some(now))];
      DeleteUnused(u, now - NINETY_DAYS_MS, id);
      listing := EnforceLimit(u);
      reply := Done;
    }

    method DeleteUnused(u: UserId, ninetyDaysAgo: int, registered: CredentialId)
      modifies this
      ensures credentials == CleanedUp(old(credentials), u, ninetyDaysAgo + NINETY_DAYS_MS, registered)
    {
      credentials := map i | i in credentials
                        && !(credentials[i].user == u && credentials[i].lastUsedAt.Some?
                             && credentials[i].lastUsedAt.value < ninetyDaysAgo && i != registered)
                        :: credentials[i];
    }

    method EnforceLimit(u: UserId) returns (allCreds: seq<CredentialId>)
      modifies this
      ensures NewestFirst(allCreds, TimesOf(old(credentials), u))
      ensures credentials == Capped(old(credentials), allCreds)
    {
      allCreds := Query(TimesOf(credentials, u));
      if |allCreds| > 5 {
        RemoveAll(allCreds[5..]);
      }
    }

    method RemoveAll(toDelete: seq<CredentialId>)
      modifies this
      ensures credentials == map i | i in old(credentials) && i !in toDelete :: old(credentials)[i]
    {
      var n := 0;
      while n < |toDelete|
        invariant 0 <= n <= |toDelete|
        invariant credentials == map i | i in old(credentials) && i !in toDelete[..n] :: old(credentials)[i]
      {
        credentials := credentials - {toDelete[n]};
        assert toDelete[..n + 1] == toDelete[..n] + [toDelete[n]];
        n := n + 1;
      }
      assert toDelete[..n] == toDelete;
    }

    method FinishPasskeyLogin(id: CredentialId, verified: bool, newCounter: nat, now: int) returns (reply: Reply)
      modifies this
      ensures (credentials, reply) == Login(old(credentials), id, verified, newCounter, now)
    {
      if id !in credentials {
        return NotFound;
      }
      if !verified {
        return Refused;
      }
      var credential := credentials[id];
      var oldCounter := credential.counter;
      if newCounter > 0 || oldCounter > 0 {
        if newCounter <= oldCounter {
          return Refused;
        }
      }
      credentials := credentials[id := credential.(counter := newCounter, lastUsedAt := Some(now))];
      return Done;
    }

    method DeleteCredential(u: UserId, id: CredentialId, hasPassword: Option<bool>) returns (reply: Reply)
      modifies this
      ensures (credentials, reply) == Delete(old(credentials), u, id, hasPassword)
    {
      if id !in credentials || credentials[id].user != u {
        return NotFound;
      }
      var credCount := |set i | i in credentials && credentials[i].user == u|;
      if credCount == 1 && hasPassword.Some? && !hasPassword.value {
        return Refused;
      }
      credentials := credentials - {id};
      return Done;
    }
  }

  // ---------------------------------------------------------------------------
  // What registration leaves
  // ---------------------------------------------------------------------------

  /** Of u's passkeys exactly the first five of the listing stay. */
  lemma CappedAreTheFirst(t: Table, u: UserId, listing: seq<CredentialId>)
    requires NewestFirst(listing, TimesOf(t, u))
    ensures var n := if |listing| <= MAX_CREDENTIALS then |listing| else MAX_CREDENTIALS;
            Owned(Capped(t, listing), u) == set k | 0 <= k < n :: listing[k]
  {
    var n := if |listing| <= MAX_CREDENTIALS then |listing| else MAX_CREDENTIALS;
    assert |listing| > MAX_CREDENTIALS ==>
        forall k :: MAX_CREDENTIALS <= k < |listing| ==> listing[MAX_CREDENTIALS..][k - MAX_CREDENTIALS] == listing[k];
    forall i | i in Owned(Capped(t, listing), u) ensures exists k :: 0 <= k < n && listing[k] == i
    {
      assert i in listing;
      var k :| 0 <= k < |listing| && listing[k] == i;
    }
    forall k | 0 <= k < n ensures listing[k] in Owned(Capped(t, listing), u)
    {
      assert listing[k] in listing;
      assert |listing| > MAX_CREDENTIALS ==>
          forall l :: 0 <= l < |listing| - MAX_CREDENTIALS ==>
            listing[MAX_CREDENTIALS..][l] == listing[MAX_CREDENTIALS + l] != listing[k];
    }
  }

  /** Capping leaves all of up to five passkeys, and five of more. */
  lemma FiveNewestStay(t: Table, u: UserId, listing: seq<CredentialId>)
    requires NewestFirst(listing, TimesOf(t, u))
    ensures |Owned(t, u)| == |listing|
    ensures |Owned(Capped(t, listing), u)| == if |Owned(t, u)| <= MAX_CREDENTIALS then |Owned(t, u)|
        else MAX_CREDENTIALS
  {
    var n := if |listing| <= MAX_CREDENTIALS then |listing| else MAX_CREDENTIALS;
    CappedAreTheFirst(t, u, listing);
    PrefixSize(listing, n);
    PrefixSize(listing, |listing|);
    assert Owned(t, u) == set k | 0 <= k < |listing| :: listing[k] by {
      assert forall i :: i in Owned(t, u) <==> i in listing;
    }
  }

  /** Whatever capping drops is no newer than whatever it keeps, and older when creation times differ. */
  lemma DroppedAreOldest(t: Table, u: UserId, listing: seq<CredentialId>, i: CredentialId, j: CredentialId)
    requires NewestFirst(listing, TimesOf(t, u))
    requires i in Owned(t, u) && i !in Capped(t, listing) && j in Owned(Capped(t, listing), u)
    ensures |Owned(Capped(t, listing), u)| == MAX_CREDENTIALS
    ensures t[i].createdAt <= t[j].createdAt
    ensures DistinctTimes(TimesOf(t, u)) ==> t[i].createdAt < t[j].createdAt
  {
    CappedAreTheFirst(t, u, listing);
    FiveNewestStay(t, u, listing);
    var at := TimesOf(t, u);
    assert i in listing;
    var m :| 0 <= m < |listing| && listing[m] == i;
    var n :| 0 <= n < MAX_CREDENTIALS && n < |listing| && listing[n] == j;
    assert m >= MAX_CREDENTIALS;
    assert at[listing[n]] >= at[listing[m]];
  }

  /** u's passkeys created at `now` or later. */
  function NotBefore(t: Table, u: UserId, now: int): set<CredentialId> {
    set i | i in t && t[i].user == u && t[i].createdAt >= now
  }

  /** The passkey just registered is among the five unless five others are at least as new. */
  lemma RegisteredStays(t: Table, u: UserId, id: CredentialId, listing: seq<CredentialId>)
    requires NewestFirst(listing, TimesOf(t, u)) && id in Owned(t, u)
    requires |NotBefore(t, u, t[id].createdAt)| <= MAX_CREDENTIALS
    ensures id in Capped(t, listing)
  {
    CappedAreTheFirst(t, u, listing);
    var n :| 0 <= n < |listing| && listing[n] == id;
    if n >= MAX_CREDENTIALS {
      var newer := set k | 0 <= k < n + 1 :: listing[k];
      PrefixSize(listing, n + 1);
      forall k | 0 <= k < n + 1 ensures listing[k] in NotBefore(t, u, t[id].createdAt)
      {
        assert listing[k] in listing;
        assert k < n ==> TimesOf(t, u)[listing[k]] >= TimesOf(t, u)[listing[n]];
      }
      SubsetSize(newer, NotBefore(t, u, t[id].createdAt));
      assert false;
    }
  }

  /** A registration ends with at most five passkeys, the new one among them unless five of the user's others carry
      its creation time or a later one; nobody else loses any; and whichever recently used passkey of the user was
      dropped had five that are no older and stayed. */
  lemma RegistrationKeepsTheNewest(t: Table, u: UserId, key: WebAuthnId, counter: nat, id: CredentialId, now: int,
                                   listing: seq<CredentialId>)
    requires id !in t && Lists(t, u, key, counter, id, now, listing)
    requires Register(t, u, key, counter, id, now, listing).1 == Done
    ensures var t' := Register(t, u, key, counter, id, now, listing).0;
            && 1 <= |Owned(t', u)| <= MAX_CREDENTIALS
            && (|NotBefore(t, u, now)| < MAX_CREDENTIALS ==>
                Get(t', id) == Some(Credential(u, key, counter, now, Some(now))))
            && (forall i :: i in t && t[i].user != u ==> Get(t', i) == Some(t[i]))
            && (forall i :: i in t' && i != id ==> Get(t, i) == Some(t'[i]))
            && (forall i, j :: i in t && t[i].user == u && i !in t' && !Unused(t[i], now) && j in Owned(t', u) ==>
                  |Owned(t', u)| == MAX_CREDENTIALS && t[i].createdAt <= t'[j].createdAt)
  {
    var cleaned := SavedAndCleaned(t, u, key, counter, id, now);
    var t' := Capped(cleaned, listing);
    FiveNewestStay(cleaned, u, listing);
    assert id in Owned(cleaned, u);
    if |NotBefore(t, u, now)| < MAX_CREDENTIALS {
      NewOneStays(t, u, key, counter, id, now, listing);
    }
    OthersAreUntouched(cleaned, u, listing);
    forall i, j | i in t && t[i].user == u && i !in t' && !Unused(t[i], now) && j in Owned(t', u)
      ensures |Owned(t', u)| == MAX_CREDENTIALS && t[i].createdAt <= t'[j].createdAt
    {
      DroppedAreOldest(cleaned, u, listing, i, j);
    }
  }

  lemma NewOneStays(t: Table, u: UserId, key: WebAuthnId, counter: nat, id: CredentialId, now: int,
      listing: seq<CredentialId>)
    requires id !in t && Lists(t, u, key, counter, id, now, listing) && |NotBefore(t, u, now)| < MAX_CREDENTIALS
    ensures id in Capped(SavedAndCleaned(t, u, key, counter, id, now), listing)
  {
    var cleaned := SavedAndCleaned(t, u, key, counter, id, now);
    SubsetSize(NotBefore(cleaned, u, now), NotBefore(t, u, now) + {id});
    RegisteredStays(cleaned, u, id, listing);
  }

  lemma OthersAreUntouched(t: Table, u: UserId, listing: seq<CredentialId>)
    requires NewestFirst(listing, TimesOf(t, u))
    ensures forall i :: i in t && t[i].user != u ==> Get(Capped(t, listing), i) == Some(t[i])
  {
    assert forall i :: i in listing ==> t[i].user == u;
  }
}
