/** Passkeys over whole runs of registrations, logins and deletions. Credential row ids are fresh; creation times
    may coincide, and the database then lists rows in whichever order it likes. */
module PasskeyRuns {
  import opened Common
  import opened Passkeys

  datatype Event =
    | Enroll(u: UserId, key: WebAuthnId, counter: nat, id: CredentialId, now: int, listing: seq<CredentialId>)
    | SignIn(id: CredentialId, verified: bool, received: nat, now: int)
    | Drop(u: UserId, id: CredentialId, hasPassword: Option<bool>)

  /** `issued` and the log of accepted signature counters are history. */
  datatype State = State(table: Table, issued: set<CredentialId>, accepted: seq<(CredentialId, nat)>)

  ghost predicate Possible(x: State, e: Event) {
    e.Enroll? ==> e.id !in x.issued && Lists(x.table, e.u, e.key, e.counter, e.id, e.now, e.listing)
  }

  function After(x: State, e: Event): State {
    match e
    case Enroll(u, key, counter, id, now, listing) =>
      State(Register(x.table, u, key, counter, id, now, listing).0, x.issued + {id}, x.accepted)
    case SignIn(id, verified, received, now) =>
      var (t, reply) := Login(x.table, id, verified, received, now);
      x.(table := t, accepted := if reply == Done then x.accepted + [(id, received)] else x.accepted)
    case Drop(u, id, hasPassword) => x.(table := Delete(x.table, u, id, hasPassword).0)
  }

  ghost predicate PossibleRun(x: State, es: seq<Event>)
    decreases |es|
  {
    es == [] || (Possible(x, es[0]) && PossibleRun(After(x, es[0]), es[1..]))
  }

  function Run(x: State, es: seq<Event>): State
    decreases |es|
  {
    if es == [] then x else Run(After(x, es[0]), es[1..])
  }

  const START := State(map[], {}, [])

  // ---------------------------------------------------------------------------
  // Invariants
  // ---------------------------------------------------------------------------

  ghost predicate CappedAtFive(t: Table) {
    forall u :: |Owned(t, u)| <= MAX_CREDENTIALS
  }

  /** Accepted counters of a credential grow strictly once positive, and the row holds the last one. */
  ghost predicate CountersGrow(x: State) {
    && (forall n :: 0 <= n < |x.accepted| ==> x.accepted[n].0 in x.issued)
    && (forall n :: 0 <= n < |x.accepted| && x.accepted[n].0 in x.table ==>
          x.accepted[n].1 <= x.table[x.accepted[n].0].counter)
    && (forall m, n :: 0 <= m < n < |x.accepted| && x.accepted[m].0 == x.accepted[n].0 && x.accepted[m].1 > 0 ==>
          x.accepted[m].1 < x.accepted[n].1)
  }

  ghost predicate Inv(x: State) {
    CappedAtFive(x.table) && x.table.Keys <= x.issued && CountersGrow(x)
  }

  lemma OwnedShrinks(t: Table, t': Table, u: UserId)
    requires forall i :: i in t' && t'[i].user == u ==> i in t && t[i].user == u
    ensures |Owned(t', u)| <= |Owned(t, u)|
  {
    assert Owned(t', u) <= Owned(t, u);
    SubsetSize(Owned(t', u), Owned(t, u));
  }

  lemma EnrollKeeps(x: State, u: UserId, key: WebAuthnId, counter: nat, id: CredentialId, now: int,
      listing: seq<CredentialId>)
    requires Inv(x) && Possible(x, Enroll(u, key, counter, id, now, listing))
    ensures Inv(After(x, Enroll(u, key, counter, id, now, listing)))
  {
    var y := After(x, Enroll(u, key, counter, id, now, listing));
    if Register(x.table, u, key, counter, id, now, listing).1 == Done {
      RegistrationKeepsTheNewest(x.table, u, key, counter, id, now, listing);
      assert forall i :: i in y.table && i != id ==> Get(x.table, i) == Some(y.table[i]);
      forall v ensures |Owned(y.table, v)| <= MAX_CREDENTIALS
      {
        if v != u { OwnedShrinks(x.table, y.table, v); }
      }
    } else {
      assert y.table == x.table;
    }
  }

  lemma SignInKeeps(x: State, id: CredentialId, verified: bool, received: nat, now: int)
    requires Inv(x)
    ensures Inv(After(x, SignIn(id, verified, received, now)))
  {
    var y := After(x, SignIn(id, verified, received, now));
    forall v ensures |Owned(y.table, v)| <= MAX_CREDENTIALS
    {
      OwnedShrinks(x.table, y.table, v);
    }
  }

  lemma DropKeeps(x: State, u: UserId, id: CredentialId, hasPassword: Option<bool>)
    requires Inv(x)
    ensures Inv(After(x, Drop(u, id, hasPassword)))
  {
    var y := After(x, Drop(u, id, hasPassword));
    forall v ensures |Owned(y.table, v)| <= MAX_CREDENTIALS
    {
      OwnedShrinks(x.table, y.table, v);
    }
  }

  lemma StepKeeps(x: State, e: Event)
    requires Inv(x) && Possible(x, e)
    ensures Inv(After(x, e))
  {
    match e
    case Enroll(u, key, counter, id, now, listing) => EnrollKeeps(x, u, key, counter, id, now, listing);
    case SignIn(id, verified, received, now) => SignInKeeps(x, id, verified, received, now);
    case Drop(u, id, hasPassword) => DropKeeps(x, u, id, hasPassword);
  }

  lemma {:induction false} RunKeeps(x: State, es: seq<Event>)
    requires Inv(x) && PossibleRun(x, es)
    ensures Inv(Run(x, es))
    decreases |es|
  {
    if es != [] {
      StepKeeps(x, es[0]);
      RunKeeps(After(x, es[0]), es[1..]);
    }
  }

  lemma StartInv()
    ensures Inv(START)
  {
    forall u ensures |Owned(START.table, u)| <= MAX_CREDENTIALS
    {
      assert Owned(START.table, u) == {};
    }
  }

  /** After any run every user has at most five passkeys. */
  lemma AtMostFive(es: seq<Event>, u: UserId)
    requires PossibleRun(START, es)
    ensures |Owned(Run(START, es).table, u)| <= 5
  {
    StartInv();
    RunKeeps(START, es);
  }

  /** No positive signature counter is accepted twice for a credential: later ones are larger. */
  lemma PositiveCountersNeverRepeat(es: seq<Event>, m: nat, n: nat)
    requires PossibleRun(START, es)
    requires m < n < |Run(START, es).accepted|
    ensures var log := Run(START, es).accepted;
            log[m].0 == log[n].0 && log[m].1 > 0 ==> log[m].1 < log[n].1
  {
    StartInv();
    RunKeeps(START, es);
  }

  /** u never has a password while it deletes passkeys. */
  predicate PasswordLess(es: seq<Event>, u: UserId) {
    forall n :: 0 <= n < |es| && es[n].Drop? && es[n].u == u ==> es[n].hasPassword == Some(false)
  }

  /** A password-less user with a passkey never runs out of passkeys. */
  lemma {:induction false} LastPasskeyStays(x: State, es: seq<Event>, u: UserId)
    requires Inv(x) && PossibleRun(x, es) && PasswordLess(es, u)
    requires Owned(x.table, u) != {}
    ensures Owned(Run(x, es).table, u) != {}
    decreases |es|
  {
    if es != [] {
      OnePasskeyStays(x, es[0], u);
      StepKeeps(x, es[0]);
      forall n | 0 <= n < |es[1..]| ensures es[1..][n] == es[n + 1] {}
      LastPasskeyStays(After(x, es[0]), es[1..], u);
    }
  }

  lemma OnePasskeyStays(x: State, e: Event, u: UserId)
    requires Inv(x) && Possible(x, e) && Owned(x.table, u) != {}
    requires e.Drop? && e.u == u ==> e.hasPassword == Some(false)
    ensures Owned(After(x, e).table, u) != {}
  {
    var t, t' := x.table, After(x, e).table;
    var i :| i in Owned(t, u);
    match e
    case Enroll(v, key, counter, id, now, listing) =>
      if Register(t, v, key, counter, id, now, listing).1 == Done {
        RegistrationKeepsTheNewest(t, v, key, counter, id, now, listing);
        if v != u { assert i in Owned(t', u); }
      }
    case SignIn(id, verified, received, now) => assert i in Owned(t', u);
    case Drop(v, id, hasPassword) =>
      if Delete(t, v, id, hasPassword).1 == Done {
        if v != u || id != i {
          assert i in Owned(t', u);
        } else {
          AnotherOne(Owned(t, u), i);
          var j :| j in Owned(t, u) && j != i;
          assert j in Owned(t', u);
        }
      }
  }

  lemma AnotherOne(s: set<CredentialId>, i: CredentialId)
    requires i in s && |s| != 1
    ensures exists j :: j in s && j != i
  {
    assert |s - {i}| == |s| - 1;
    var j :| j in s - {i};
  }
}
