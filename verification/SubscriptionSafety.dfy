/** How the access flag and the subscription status keep up with each other over runs of receipt verifications,
    store notifications of both platforms, account changes, and saves of whole user rows. */
module SubscriptionSafety {
  import opened Common
  import opened Subscriptions

  type HandlerId = string

  /** What a handler that saves whole user rows has loaded: the flag goes back with the rest of the row. */
  datatype Loaded = Loaded(u: UserId, flag: bool)

  datatype State = State(store: Store, inFlight: map<HandlerId, Loaded>)

  /** A verification or notification updates the subscription and then the flag; `lands` says whether the
      second update succeeds. */
  datatype Event =
    | SignUp(u: UserId)
    | Verify(u: UserId, answer: Answer, receipt: string, product: string, now: int, lands: bool)
    | Apple(transaction: string, found: Option<UserId>, notice: AppleNotice, lands: bool)
    | GooglePlay(token: string, found: Option<UserId>, notification: GoogleNotice, lands: bool)
    | Load(h: HandlerId, u: UserId)
    | Save(h: HandlerId)
    | DeleteAccount(u: UserId)

  predicate MatchesApple(s: Store, u: UserId, transaction: string) {
    u in s.subs && s.subs[u].platform == Ios && s.subs[u].originalTransactionId == Some(transaction)
  }

  predicate MatchesGoogle(s: Store, u: UserId, token: string) {
    u in s.subs && s.subs[u].purchaseToken == token
  }

  ghost predicate Keyed(s: Store) {
    s.subs.Keys <= s.flags.Keys
  }

  predicate Flagged(s: Store, u: UserId) {
    u in s.flags && s.flags[u]
  }

  predicate Unflagged(s: Store, u: UserId) {
    u in s.flags && !s.flags[u]
  }

  /** A lookup returns some matching row if there is one. */
  ghost predicate Possible(x: State, e: Event) {
    var s := x.store;
    && Keyed(s)
    && match e
       case SignUp(u) => u !in s.flags
       case Apple(transaction, found, notice, lands) =>
         if found.Some? then MatchesApple(s, found.value, transaction) else forall u :: !MatchesApple(s, u, transaction)
       case GooglePlay(token, found, notification, lands) =>
         if found.Some? then MatchesGoogle(s, found.value, token) else forall u :: !MatchesGoogle(s, u, token)
       case Load(h, u) => u in s.flags
       case Save(h) => h in x.inFlight
       case _ => true
  }

  /** The flag's update may be lost. */
  function Landed(s: Store, full: Store, lands: bool): Store {
    if lands then full else s.(subs := full.subs)
  }

  ghost function StoreAfter(x: State, e: Event): Store
    requires Possible(x, e)
  {
    var s := x.store;
    match e
    case SignUp(u) => s.(flags := s.flags[u := false])
    case Verify(u, answer, receipt, product, now, lands) =>
      Landed(s, VerifyReceipt(s, u, answer, receipt, product, now), lands)
    case Apple(transaction, found, notice, lands) =>
      if found.Some? then Landed(s, OnApple(s, found.value, notice), lands) else s
    case GooglePlay(token, found, notification, lands) =>
      if found.Some? then Landed(s, OnGoogle(s, found.value, notification), lands) else s
    case Load(h, u) => s
    case Save(h) =>
      var l := x.inFlight[h];
      if l.u in s.flags then s.(flags := s.flags[l.u := l.flag]) else s
    case DeleteAccount(u) => Store(s.flags - {u}, s.subs - {u})
  }

  ghost function Step(x: State, e: Event): State
    requires Possible(x, e)
  {
    State(StoreAfter(x, e), if e.Load? then x.inFlight[e.h := Loaded(e.u, x.store.flags[e.u])] else x.inFlight)
  }

  ghost predicate PossibleRun(x: State, es: seq<Event>)
    decreases |es|
  {
    es == [] || (Possible(x, es[0]) && PossibleRun(Step(x, es[0]), es[1..]))
  }

  ghost function Run(x: State, es: seq<Event>): State
    requires PossibleRun(x, es)
    decreases |es|
  {
    if es == [] then x else Run(Step(x, es[0]), es[1..])
  }

  const START := State(Store(map[], map[]), map[])

  // ---------------------------------------------------------------------------
  // Ended subscriptions
  // ---------------------------------------------------------------------------

  predicate Ended(sub: Subscription) {
    sub.status == Expired || sub.status == Revoked
  }

  /** Users of ended subscriptions are not flagged. */
  ghost predicate EndedUnflagged(s: Store) {
    forall u :: u in s.subs && Ended(s.subs[u]) ==> !Flagged(s, u)
  }

  predicate EndsOnApple(n: AppleNotice) {
    n.DidExpire? || n.GracePeriodExpired? || n.RefundOrRevoke?
  }

  predicate EndsOnGoogle(n: GoogleNotice) {
    n.SubscriptionExpired? || n.SubscriptionRevoked?
  }

  /** The step ends a flagged user's subscription and loses the flag's update, or writes a raised flag back over
      an ended subscription. */
  predicate LeavesEndedFlagged(x: State, e: Event) {
    match e
    case Apple(_, found, notice, lands) =>
      found.Some? && EndsOnApple(notice) && !lands && Flagged(x.store, found.value)
    case GooglePlay(_, found, notification, lands) =>
      found.Some? && EndsOnGoogle(notification) && !lands && Flagged(x.store, found.value)
    case Save(h) =>
      h in x.inFlight && x.inFlight[h].flag && x.inFlight[h].u in x.store.subs && Ended(x.store.subs[x.inFlight[h].u])
    case _ => false
  }

  /** Only u's row and flag have changed. */
  ghost predicate OnlyChanges(s: Store, s': Store, u: UserId) {
    && u in s'.subs && s'.subs.Keys == s.subs.Keys + {u} && s'.flags.Keys == s.flags.Keys
    && forall v :: v in s.subs && v in s.flags && v != u ==> s'.subs[v] == s.subs[v] && s'.flags[v] == s.flags[v]
  }

  lemma EndedUnflaggedAt(s: Store, s': Store, u: UserId)
    requires Keyed(s) && EndedUnflagged(s) && OnlyChanges(s, s', u)
    ensures EndedUnflagged(s') <==> (Ended(s'.subs[u]) ==> !Flagged(s', u))
  {
    forall v | v in s'.subs && v != u && Ended(s'.subs[v]) ensures !Flagged(s', v) {
      assert !Flagged(s, v);
    }
  }

  lemma AppleEndsIff(s: Store, u: UserId, n: AppleNotice, lands: bool)
    requires Keyed(s) && EndedUnflagged(s) && u in s.subs
    ensures Keyed(Landed(s, OnApple(s, u, n), lands))
    ensures EndedUnflagged(Landed(s, OnApple(s, u, n), lands)) <==> !(EndsOnApple(n) && !lands && s.flags[u])
  {
    assert Ended(s.subs[u]) ==> !Flagged(s, u);
    EndedUnflaggedAt(s, Landed(s, OnApple(s, u, n), lands), u);
  }

  lemma GoogleEndsIff(s: Store, u: UserId, n: GoogleNotice, lands: bool)
    requires Keyed(s) && EndedUnflagged(s) && u in s.subs
    ensures Keyed(Landed(s, OnGoogle(s, u, n), lands))
    ensures EndedUnflagged(Landed(s, OnGoogle(s, u, n), lands)) <==> !(EndsOnGoogle(n) && !lands && s.flags[u])
  {
    assert Ended(s.subs[u]) ==> !Flagged(s, u);
    EndedUnflaggedAt(s, Landed(s, OnGoogle(s, u, n), lands), u);
  }

  lemma VerifyKeepsEnded(s: Store, u: UserId, answer: Answer, receipt: string, product: string, now: int, lands: bool)
    requires Keyed(s)
    ensures var s' := Landed(s, VerifyReceipt(s, u, answer, receipt, product, now), lands);
            Keyed(s') && (EndedUnflagged(s) ==> EndedUnflagged(s'))
  {
  }

  lemma SaveEndsIff(x: State, h: HandlerId)
    requires Possible(x, Save(h)) && EndedUnflagged(x.store)
    ensures EndedUnflagged(StoreAfter(x, Save(h))) <==> !LeavesEndedFlagged(x, Save(h))
  {
    var l, s' := x.inFlight[h], StoreAfter(x, Save(h));
    if LeavesEndedFlagged(x, Save(h)) {
      assert l.u in s'.subs && Ended(s'.subs[l.u]);
    }
  }

  lemma StepKeepsKeyed(x: State, e: Event)
    requires Possible(x, e)
    ensures Keyed(Step(x, e).store)
  {
    match e
    case Verify(u, answer, receipt, product, now, lands) =>
      VerifyKeepsEnded(x.store, u, answer, receipt, product, now, lands);
    case _ =>
  }

  /** A step keeps ended subscriptions unflagged exactly unless it is one of those. */
  lemma StepKeepsEndedIff(x: State, e: Event)
    requires Possible(x, e) && EndedUnflagged(x.store)
    ensures EndedUnflagged(Step(x, e).store) <==> !LeavesEndedFlagged(x, e)
  {
    match e
    case Verify(u, answer, receipt, product, now, lands) =>
      VerifyKeepsEnded(x.store, u, answer, receipt, product, now, lands);
    case Apple(transaction, found, notice, lands) =>
      if found.Some? {
        AppleEndsIff(x.store, found.value, notice, lands);
      }
    case GooglePlay(token, found, notification, lands) =>
      if found.Some? {
        GoogleEndsIff(x.store, found.value, notification, lands);
      }
    case Save(h) => SaveEndsIff(x, h);
    case _ =>
  }

  /** A save of a row whose flag has not changed since it was loaded leaves no ended subscription flagged. */
  lemma UndisturbedSaveIsHarmless(x: State, h: HandlerId)
    requires Possible(x, Save(h)) && EndedUnflagged(x.store)
    requires Get(x.store.flags, x.inFlight[h].u) == Some(x.inFlight[h].flag)
    ensures !LeavesEndedFlagged(x, Save(h)) && Step(x, Save(h)).store == x.store
  {
  }

  ghost predicate NoneLeftFlagged(x: State, es: seq<Event>)
    requires PossibleRun(x, es)
    decreases |es|
  {
    es == [] || (!LeavesEndedFlagged(x, es[0]) && NoneLeftFlagged(Step(x, es[0]), es[1..]))
  }

  lemma {:induction false} RunKeepsEnded(x: State, es: seq<Event>)
    requires EndedUnflagged(x.store) && PossibleRun(x, es) && NoneLeftFlagged(x, es)
    ensures EndedUnflagged(Run(x, es).store)
    decreases |es|
  {
    if es != [] {
      StepKeepsEndedIff(x, es[0]);
      RunKeepsEnded(Step(x, es[0]), es[1..]);
    }
  }

  /** Over any run on both platforms without such a step, an expired or revoked subscription leaves its user
      unflagged. */
  lemma EndedMeansUnflagged(es: seq<Event>, u: UserId)
    requires PossibleRun(START, es) && NoneLeftFlagged(START, es)
    requires u in Run(START, es).store.subs && Ended(Run(START, es).store.subs[u])
    ensures !Flagged(Run(START, es).store, u)
  {
    RunKeepsEnded(START, es);
  }

  // ---------------------------------------------------------------------------
  // Active subscriptions
  // ---------------------------------------------------------------------------

  /** Users of active subscriptions are flagged. */
  ghost predicate ActiveFlagged(s: Store) {
    forall u :: u in s.subs && s.subs[u].status == Active ==> Flagged(s, u)
  }

  predicate ActivatesOnApple(n: AppleNotice) {
    match n
    case DidRenew(reread, webhook, autoRenew) => reread.Some? || webhook.Some?
    case RefundReversed(expires, now) => expires.Some? && expires.value > now
    case _ => false
  }

  /** The step activates an unflagged user's subscription without raising the flag, or writes a lowered flag back
      over an active one. A Google renewal never raises the flag. */
  predicate LeavesActiveUnflagged(x: State, e: Event) {
    match e
    case Verify(u, answer, receipt, product, now, lands) =>
      Verified(answer, receipt, product, now).Some? && !lands && Unflagged(x.store, u)
    case Apple(_, found, notice, lands) =>
      found.Some? && ActivatesOnApple(notice) && !lands && Unflagged(x.store, found.value)
    case GooglePlay(_, found, notification, lands) =>
      found.Some? && notification.Renewed? && notification.result.Some? && Unflagged(x.store, found.value)
    case Save(h) =>
      h in x.inFlight && !x.inFlight[h].flag && x.inFlight[h].u in x.store.subs &&
          x.store.subs[x.inFlight[h].u].status == Active
    case _ => false
  }

  lemma ActiveFlaggedAt(s: Store, s': Store, u: UserId)
    requires Keyed(s) && ActiveFlagged(s) && OnlyChanges(s, s', u)
    ensures ActiveFlagged(s') <==> (s'.subs[u].status == Active ==> Flagged(s', u))
  {
    forall v | v in s'.subs && v != u && s'.subs[v].status == Active ensures Flagged(s', v) {
      assert Flagged(s, v);
    }
  }

  lemma AppleActivatesIff(s: Store, u: UserId, n: AppleNotice, lands: bool)
    requires Keyed(s) && ActiveFlagged(s) && u in s.subs
    ensures ActiveFlagged(Landed(s, OnApple(s, u, n), lands)) <==> !(ActivatesOnApple(n) && !lands && !s.flags[u])
  {
    assert s.subs[u].status == Active ==> Flagged(s, u);
    ActiveFlaggedAt(s, Landed(s, OnApple(s, u, n), lands), u);
  }

  lemma GoogleActivatesIff(s: Store, u: UserId, n: GoogleNotice, lands: bool)
    requires Keyed(s) && ActiveFlagged(s) && u in s.subs
    ensures ActiveFlagged(Landed(s, OnGoogle(s, u, n), lands)) <==> !(n.Renewed? && n.result.Some? && !s.flags[u])
  {
    assert s.subs[u].status == Active ==> Flagged(s, u);
    ActiveFlaggedAt(s, Landed(s, OnGoogle(s, u, n), lands), u);
  }

  lemma VerifiedIsActive(answer: Answer, receipt: string, product: string, now: int)
    ensures Verified(answer, receipt, product, now).Some? ==>
        Verified(answer, receipt, product, now).value.status == Active
  {
  }

  lemma VerifyActivatesIff(s: Store, u: UserId, answer: Answer, receipt: string, product: string, now: int, lands: bool)
    requires Keyed(s) && ActiveFlagged(s)
    ensures ActiveFlagged(Landed(s, VerifyReceipt(s, u, answer, receipt, product, now), lands))
       <==> !(Verified(answer, receipt, product, now).Some? && !lands && Unflagged(s, u))
  {
    VerifiedIsActive(answer, receipt, product, now);
    if Verified(answer, receipt, product, now).Some? && u in s.flags {
      ActiveFlaggedAt(s, Landed(s, VerifyReceipt(s, u, answer, receipt, product, now), lands), u);
    }
  }

  lemma SaveActivatesIff(x: State, h: HandlerId)
    requires Possible(x, Save(h)) && ActiveFlagged(x.store)
    ensures ActiveFlagged(StoreAfter(x, Save(h))) <==> !LeavesActiveUnflagged(x, Save(h))
  {
    var l, s' := x.inFlight[h], StoreAfter(x, Save(h));
    if LeavesActiveUnflagged(x, Save(h)) {
      assert l.u in s'.subs && s'.subs[l.u].status == Active;
    }
  }

  /** A step keeps active subscriptions flagged exactly unless it is one of those. */
  lemma StepKeepsFlaggedIff(x: State, e: Event)
    requires Possible(x, e) && ActiveFlagged(x.store)
    ensures ActiveFlagged(Step(x, e).store) <==> !LeavesActiveUnflagged(x, e)
  {
    match e
    case Verify(u, answer, receipt, product, now, lands) => VerifyActivatesIff(x.store, u, answer, receipt, product,
        now, lands);
    case Apple(transaction, found, notice, lands) =>
      if found.Some? {
        AppleActivatesIff(x.store, found.value, notice, lands);
      }
    case GooglePlay(token, found, notification, lands) =>
      if found.Some? {
        GoogleActivatesIff(x.store, found.value, notification, lands);
      }
    case Save(h) => SaveActivatesIff(x, h);
    case _ =>
  }

  ghost predicate NoneLeftUnflagged(x: State, es: seq<Event>)
    requires PossibleRun(x, es)
    decreases |es|
  {
    es == [] || (!LeavesActiveUnflagged(x, es[0]) && NoneLeftUnflagged(Step(x, es[0]), es[1..]))
  }

  lemma {:induction false} RunKeepsFlagged(x: State, es: seq<Event>)
    requires ActiveFlagged(x.store) && PossibleRun(x, es) && NoneLeftUnflagged(x, es)
    ensures ActiveFlagged(Run(x, es).store)
    decreases |es|
  {
    if es != [] {
      StepKeepsFlaggedIff(x, es[0]);
      RunKeepsFlagged(Step(x, es[0]), es[1..]);
    }
  }

  /** Without such a step the time-based snapshot never grants subscription access to an unflagged user. */
  lemma SnapshotImpliesFlag(es: seq<Event>, u: UserId, now: int)
    requires PossibleRun(START, es) && NoneLeftUnflagged(START, es)
    requires HasActiveSubscription(Run(START, es).store, u, now)
    ensures Flagged(Run(START, es).store, u)
  {
    RunKeepsFlagged(START, es);
  }

  /** Neither a Google notice, nor a save, nor an update that fails half-way. */
  predicate OnAppleAlone(e: Event) {
    !e.GooglePlay? && !e.Save? && (e.Verify? || e.Apple? ==> e.lands)
  }

  /** In particular on iOS alone. */
  lemma {:induction false} AppleAloneLeavesNoneUnflagged(x: State, es: seq<Event>)
    requires PossibleRun(x, es) && forall i :: 0 <= i < |es| ==> OnAppleAlone(es[i])
    ensures NoneLeftUnflagged(x, es)
    decreases |es|
  {
    if es != [] {
      assert OnAppleAlone(es[0]);
      assert forall i :: 0 <= i < |es[1..]| ==> es[1..][i] == es[i + 1];
      AppleAloneLeavesNoneUnflagged(Step(x, es[0]), es[1..]);
    }
  }

  // ---------------------------------------------------------------------------
  // Runs that go wrong
  // ---------------------------------------------------------------------------

  lemma RunStep(x: State, e: Event, es: seq<Event>)
    requires Possible(x, e) && PossibleRun(Step(x, e), es)
    ensures PossibleRun(x, [e] + es) && Run(x, [e] + es) == Run(Step(x, e), es)
  {
    assert ([e] + es)[1..] == es;
  }

  /** An expired Android subscription that Google reports as recovered is active again while the flag stays down. */
  lemma RecoveredAndroidIsUnflagged(x: State, u: UserId, ends: int, now: int)
    requires Keyed(x.store) && EndedUnflagged(x.store) && u in x.store.subs && Ended(x.store.subs[u]) && now < ends
    ensures var e := GooglePlay(x.store.subs[u].purchaseToken, Some(u), Renewed(Some((ends, true))), true);
            && Possible(x, e)
            && HasActiveSubscription(Step(x, e).store, u, now) && Unflagged(Step(x, e).store, u)
  {
    assert !Flagged(x.store, u) && u in x.store.flags;
  }

  /** A profile update loads the row of a subscriber, the subscription expires, and the update saves its row. */
  function StaleSave(u: UserId, answer: Answer, t: string, product: string, now: int): seq<Event> {
    [SignUp(u)] + ([Verify(u, answer, "receipt", product, now, true)] + ([Load("profile", u)]
    + ([Apple(t, Some(u), DidExpire, true)] + ([Save("profile")] + []))))
  }

  /** Then the expired subscription's user is flagged again. */
  lemma StaleSaveRevivesFlag(u: UserId, t: string, product: string, now: int, ends: int)
    requires now < ends
    ensures var es := StaleSave(u, AppleSigned(product, None, Some(ends), Some(t)), t, product, now);
            && PossibleRun(START, es)
            && var s := Run(START, es).store;
               u in s.subs && s.subs[u].status == Expired && Flagged(s, u)
  {
    var answer := AppleSigned(product, None, Some(ends), Some(t));
    var x1 := Step(START, SignUp(u));
    var verify := Verify(u, answer, "receipt", product, now, true);
    var x2 := Step(x1, verify);
    var x3 := Step(x2, Load("profile", u));
    var expire := Apple(t, Some(u), DidExpire, true);
    var x4 := Step(x3, expire);
    StepKeepsKeyed(x3, expire);
    assert PossibleRun(Step(x4, Save("profile")), []);
    RunStep(x4, Save("profile"), []);
    RunStep(x3, expire, [Save("profile")] + []);
    RunStep(x2, Load("profile", u), [expire] + ([Save("profile")] + []));
    RunStep(x1, verify, [Load("profile", u)] + ([expire] + ([Save("profile")] + [])));
    RunStep(START, SignUp(u), [verify] + ([Load("profile", u)] + ([expire] + ([Save("profile")] + []))));
  }
}
