/** Deliveries of App Store notifications. A delivery checks whether its UUID is recorded, inserts the UUID
    under a unique index, and only then applies the notification; these are three separate steps, and the
    steps of any number of deliveries interleave, with each other and with receipt verifications. */
module AppleWebhook {
  import opened Common
  import opened Subscriptions

  /** `transaction` is None when the signed transaction is missing or cannot be decoded. */
  datatype Notification = Notification(uuid: string, transaction: Option<string>, action: AppleNotice)

  /** Which row a lookup by transaction returns. */
  type Finder = (Store, string) -> Option<UserId>

  datatype Insert = Lands | LandsUnacknowledged | Fails

  /** How far the handler gets: all of its updates, the first one only, none, or not even the lookup of the row. */
  datatype Reach = Both | SubscriptionOnly | Neither | LookupFails

  function Apply(find: Finder, s: Store, n: Notification, reach: Reach): Store {
    if n.transaction.None? then s
    else
      var found := find(s, n.transaction.value);
      if found.None? || found.value !in s.subs || found.value !in s.flags then s
      else
        var full := OnApple(s, found.value, n.action);
        match reach
        case Both => full
        case SubscriptionOnly => s.(subs := full.subs)
        case _ => s
  }

  /** The updates a handler makes: of the subscription, and of the user's flag. */
  function Updates(n: AppleNotice): nat {
    match n
    case DidRenew(reread, webhook, _) => if reread.None? && webhook.None? then 0 else 2
    case DidChangeRenewalStatus(_) => 1
    case DidExpire => 2
    case DidFailToRenew(_) => 1
    case GracePeriodExpired => 2
    case Subscribed => 0
    case RefundOrRevoke => 2
    case RefundReversed(expires, now) => if expires.Some? && expires.value > now then 2 else 0
    case Unhandled => 0
  }

  /** Processing ends without an error: nothing to apply, all updates made, or a renewal, whose handler catches its own
      failures. */
  predicate Returns(find: Finder, s: Store, n: Notification, reach: Reach) {
    n.transaction.Some? ==>
      && !reach.LookupFails?
      && var found := find(s, n.transaction.value);
         found.Some? && found.value in s.subs && found.value in s.flags ==>
           n.action.DidRenew? || Updates(n.action) == 0 || reach.Both? ||
               (reach.SubscriptionOnly? && Updates(n.action) == 1)
  }

  /** Processing that ends without an error has had its full effect, unless it was a renewal. */
  lemma ReturningHasFullEffect(find: Finder, s: Store, n: Notification, reach: Reach)
    requires Returns(find, s, n, reach) && !n.action.DidRenew?
    ensures Apply(find, s, n, reach) == Apply(find, s, n, Both)
  {
    if n.transaction.Some? && find(s, n.transaction.value).Some? {
      var u := find(s, n.transaction.value).value;
      if u in s.subs && u in s.flags {
        match n.action
        case Subscribed => assert OnApple(s, u, n.action) == s;
        case Unhandled => assert OnApple(s, u, n.action) == s;
        case RefundReversed(_, _) =>
        case _ =>
      }
    }
  }

  /** What one delivery does: the first one whose record lands has the notification's effect on the row that was found,
      in full or in part; one that was recorded before, or whose record does not land, has none. */
  lemma DeliveryMeans(find: Finder, w: Tables, n: Notification, insert: Insert, reach: Reach)
    ensures var w' := Handle(find, w, Deliver(n, insert, reach));
            && (n.uuid in w.recorded || insert == Fails ==> w' == w)
            && (n.uuid !in w.recorded && insert != Fails ==> w'.recorded == w.recorded + {n.uuid})
            && (insert != Lands ==> w'.store == w.store)
            && (n.uuid !in w.recorded && insert == Lands && n.transaction.Some? ==>
                  var found := find(w.store, n.transaction.value);
                  if found.None? || found.value !in w.store.subs || found.value !in w.store.flags then
                    w'.store == w.store
                  else
                    var full := OnApple(w.store, found.value, n.action);
                    && w'.store.subs == (if reach == Both || reach == SubscriptionOnly then full.subs else w.store.subs)
                    && w'.store.flags == (if reach == Both then full.flags else w.store.flags))
  {
  }

  /** A renewal that fails is acknowledged all the same: it is lost, and the store is not told. */
  lemma FailedRenewalIsAcknowledged(find: Finder, s: Store, n: Notification, u: UserId)
    requires n.transaction.Some? && find(s, n.transaction.value) == Some(u) && u in s.subs && u in s.flags
    requires n.action.DidRenew? && OnApple(s, u, n.action) != s
    ensures Returns(find, s, n, Neither) && Apply(find, s, n, Neither) == s != Apply(find, s, n, Both)
  {
  }

  // ---------------------------------------------------------------------------
  // One delivery at a time
  // ---------------------------------------------------------------------------

  datatype Operation =
    | Deliver(notice: Notification, insert: Insert, reach: Reach)
    | Verify(u: UserId, answer: Answer, receipt: string, product: string, now: int)

  datatype Tables = Tables(recorded: set<string>, store: Store)

  function Handle(find: Finder, w: Tables, o: Operation): Tables {
    match o
    case Verify(u, answer, receipt, product, now) =>
      w.(store := VerifyReceipt(w.store, u, answer, receipt, product, now))
    case Deliver(n, insert, reach) =>
      if n.uuid in w.recorded || insert == Fails then w
      else if insert == LandsUnacknowledged then w.(recorded := w.recorded + {n.uuid})
      else Tables(w.recorded + {n.uuid}, Apply(find, w.store, n, reach))
  }

  function HandleAll(find: Finder, w: Tables, os: seq<Operation>): Tables
    decreases |os|
  {
    if os == [] then w else Handle(find, HandleAll(find, w, os[..|os| - 1]), os[|os| - 1])
  }

  class Handler {
    var recorded: set<string>
    var store: Store

    ghost function View(): Tables
      reads this
    {
      Tables(recorded, store)
    }

    constructor (initial: Store)
      ensures View() == Tables({}, initial)
    {
      recorded, store := {}, initial;
    }

    /** `payload` is None when the signature does not verify or the check for a record fails. */
    method HandleWebhook(find: Finder, payload: Option<Notification>, insert: Insert, reach: Reach)
        returns (accepted: bool)
      modifies this
      ensures payload.None? ==> View() == old(View()) && !accepted
      ensures payload.Some? ==> View() == Handle(find, old(View()), Deliver(payload.value, insert, reach))
      ensures payload.Some? ==>
          (accepted <==>
              payload.value.uuid in old(recorded) ||
                  (insert == Lands && Returns(find, old(store), payload.value, reach)))
    {
      if payload.None? {
        return false;
      }
      var n := payload.value;
      if n.uuid in recorded {
        return true;
      }
      if insert != Fails {
        recorded := recorded + {n.uuid};
      }
      if insert != Lands {
        return false;
      }
      accepted := ProcessNotification(find, n, reach);
    }

    method ProcessNotification(find: Finder, n: Notification, reach: Reach) returns (returned: bool)
      modifies this`store
      ensures store == Apply(find, old(store), n, reach)
      ensures returned <==> Returns(find, old(store), n, reach)
    {
      if n.transaction.None? {
        return true;
      }
      if reach.LookupFails? {
        return false;
      }
      var found := find(store, n.transaction.value);
      if found.None? || found.value !in store.subs || found.value !in store.flags {
        return true;
      }
      var full := OnApple(store, found.value, n.action);
      if reach.Neither? {
        return n.action.DidRenew? || Updates(n.action) == 0;
      }
      store := store.(subs := full.subs);
      if reach.SubscriptionOnly? {
        return n.action.DidRenew? || Updates(n.action) <= 1;
      }
      store := store.(flags := full.flags);
      return true;
    }
  }

  /** An earlier delivery of the same UUID got its record in. */
  ghost predicate Repeats(earlier: seq<Operation>, o: Operation) {
    o.Deliver? && exists i ::
        0 <= i < |earlier| && earlier[i].Deliver? && earlier[i].notice.uuid == o.notice.uuid &&
        earlier[i].insert != Fails
  }

  ghost function FirstOccurrences(os: seq<Operation>): seq<Operation>
    decreases |os|
  {
    if os == [] then []
    else
      var earlier, o := os[..|os| - 1], os[|os| - 1];
      FirstOccurrences(earlier) + if Repeats(earlier, o) then [] else [o]
  }

  lemma {:induction false} RecordedIffDelivered(find: Finder, s: Store, os: seq<Operation>, n: Notification,
      insert: Insert, reach: Reach)
    ensures n.uuid in HandleAll(find, Tables({}, s), os).recorded <==> Repeats(os, Deliver(n, insert, reach))
    decreases |os|
  {
    if os != [] {
      var earlier, o := os[..|os| - 1], os[|os| - 1];
      RecordedIffDelivered(find, s, earlier, n, insert, reach);
      if o.Deliver? && o.insert != Fails && o.notice.uuid == n.uuid {
        assert Repeats(os, Deliver(n, insert, reach));
      }
      if Repeats(earlier, Deliver(n, insert, reach)) {
        var i :| 0 <= i < |earlier| && earlier[i].Deliver? && earlier[i].notice.uuid == n.uuid &&
            earlier[i].insert != Fails;
        assert os[i] == earlier[i];
      }
    }
  }

  /** Redeliveries leave no trace, wherever they fall: the run of first occurrences ends in the same state. */
  lemma {:induction false} DuplicatesAreInert(find: Finder, s: Store, os: seq<Operation>)
    ensures HandleAll(find, Tables({}, s), os) == HandleAll(find, Tables({}, s), FirstOccurrences(os))
    decreases |os|
  {
    if os != [] {
      var earlier, o := os[..|os| - 1], os[|os| - 1];
      DuplicatesAreInert(find, s, earlier);
      if o.Deliver? {
        RecordedIffDelivered(find, s, earlier, o.notice, o.insert, o.reach);
      }
      if Repeats(earlier, o) {
        assert FirstOccurrences(os) == FirstOccurrences(earlier);
      } else {
        assert FirstOccurrences(os)[..|FirstOccurrences(os)| - 1] == FirstOccurrences(earlier);
      }
    }
  }

  // ---------------------------------------------------------------------------
  // Interleaved deliveries
  // ---------------------------------------------------------------------------

  type DeliveryId = string

  datatype Phase = Arrived | Checked | Recorded | Processed | Skipped | Refused

  datatype Delivery = Delivery(notice: Notification, phase: Phase)

  /** `log` lists what was done to the store: `delivery` is the one whose processing it was. */
  datatype Entry = Entry(delivery: DeliveryId, done: Operation)

  datatype State = State(recorded: set<string>, deliveries: map<DeliveryId, Delivery>, store: Store, log: seq<Entry>)

  datatype Event =
    | Arrive(d: DeliveryId, notice: Notification)
    | Check(d: DeliveryId)
    | Record(d: DeliveryId, insert: Insert)
    | Process(d: DeliveryId, reach: Reach)
    | Other(u: UserId, answer: Answer, receipt: string, product: string, now: int)

  predicate InPhase(y: State, d: DeliveryId, phase: Phase) {
    d in y.deliveries && y.deliveries[d].phase == phase
  }

  predicate Possible(y: State, e: Event) {
    match e
    case Arrive(d, n) => d !in y.deliveries
    case Check(d) => InPhase(y, d, Arrived)
    case Record(d, insert) => InPhase(y, d, Checked)
    case Process(d, reach) => InPhase(y, d, Recorded)
    case Other(u, answer, receipt, product, now) => true
  }

  function Moved(y: State, d: DeliveryId, phase: Phase): State
    requires d in y.deliveries
  {
    y.(deliveries := y.deliveries[d := y.deliveries[d].(phase := phase)])
  }

  function Step(find: Finder, y: State, e: Event): State
    requires Possible(y, e)
  {
    match e
    case Arrive(d, n) => y.(deliveries := y.deliveries[d := Delivery(n, Arrived)])
    case Check(d) => Moved(y, d, if y.deliveries[d].notice.uuid in y.recorded then Skipped else Checked)
    case Record(d, insert) =>
      var uuid := y.deliveries[d].notice.uuid;
      if uuid in y.recorded || insert == Fails then Moved(y, d, Refused)
      else Moved(y, d, if insert == Lands then Recorded else Refused).(recorded := y.recorded + {uuid})
    case Process(d, reach) =>
      var n := y.deliveries[d].notice;
      Moved(y, d, Processed).(store := Apply(find, y.store, n, reach),
          log := y.log + [Entry(d, Deliver(n, Lands, reach))])
    case Other(u, answer, receipt, product, now) =>
      y.(store := VerifyReceipt(y.store, u, answer, receipt, product, now),
          log := y.log + [Entry("", Verify(u, answer, receipt, product, now))])
  }

  ghost predicate PossibleRun(find: Finder, y: State, es: seq<Event>)
    decreases |es|
  {
    es == [] || (Possible(y, es[0]) && PossibleRun(find, Step(find, y, es[0]), es[1..]))
  }

  ghost function Run(find: Finder, y: State, es: seq<Event>): State
    requires PossibleRun(find, y, es)
    decreases |es|
  {
    if es == [] then y else Run(find, Step(find, y, es[0]), es[1..])
  }

  function Start(s: Store): State {
    State({}, map[], s, [])
  }

  predicate Holds(y: State, d: DeliveryId) {
    InPhase(y, d, Recorded) || InPhase(y, d, Processed)
  }

  /** Of the deliveries of one UUID at most one holds its record. */
  ghost predicate RecordsHeldOnce(y: State) {
    && (forall d :: Holds(y, d) ==> y.deliveries[d].notice.uuid in y.recorded)
    && (forall c, d :: Holds(y, c) && Holds(y, d) && c != d ==>
        y.deliveries[c].notice.uuid != y.deliveries[d].notice.uuid)
  }

  ghost predicate LogIsProcessed(y: State) {
    && (forall i :: 0 <= i < |y.log| && y.log[i].done.Deliver? ==>
          InPhase(y, y.log[i].delivery, Processed) && y.log[i].done.notice == y.deliveries[y.log[i].delivery].notice &&
              y.log[i].done.insert == Lands)
    && (forall i, j :: 0 <= i < j < |y.log| && y.log[i].done.Deliver? && y.log[j].done.Deliver? ==>
        y.log[i].delivery != y.log[j].delivery)
  }

  ghost predicate Inv(y: State) {
    RecordsHeldOnce(y) && LogIsProcessed(y)
  }

  lemma StepHoldsRecordsOnce(find: Finder, y: State, e: Event)
    requires Inv(y) && Possible(y, e)
    ensures RecordsHeldOnce(Step(find, y, e))
  {
    var y' := Step(find, y, e);
    forall d | Holds(y', d) ensures Holds(y, d) || (e.Record? && e.d == d) {
    }
  }

  lemma StepLogsProcessed(find: Finder, y: State, e: Event)
    requires Inv(y) && Possible(y, e)
    ensures LogIsProcessed(Step(find, y, e))
  {
    var y' := Step(find, y, e);
    assert |y.log| <= |y'.log| && forall i :: 0 <= i < |y.log| ==> y'.log[i] == y.log[i];
  }

  lemma StepKeeps(find: Finder, y: State, e: Event)
    requires Inv(y) && Possible(y, e)
    ensures Inv(Step(find, y, e))
  {
    StepHoldsRecordsOnce(find, y, e);
    StepLogsProcessed(find, y, e);
  }

  lemma {:induction false} RunKeeps(find: Finder, y: State, es: seq<Event>)
    requires Inv(y) && PossibleRun(find, y, es)
    ensures Inv(Run(find, y, es))
    decreases |es|
  {
    if es != [] {
      StepKeeps(find, y, es[0]);
      RunKeeps(find, Step(find, y, es[0]), es[1..]);
    }
  }

  /** Whatever the interleaving, no UUID is processed twice. */
  lemma ProcessedAtMostOnce(find: Finder, s: Store, es: seq<Event>, i: nat, j: nat)
    requires PossibleRun(find, Start(s), es)
    requires i < j < |Run(find, Start(s), es).log|
    requires Run(find, Start(s), es).log[i].done.Deliver? && Run(find, Start(s), es).log[j].done.Deliver?
    ensures Run(find, Start(s), es).log[i].done.notice.uuid != Run(find, Start(s), es).log[j].done.notice.uuid
  {
    RunKeeps(find, Start(s), es);
    var y := Run(find, Start(s), es);
    assert Holds(y, y.log[i].delivery) && Holds(y, y.log[j].delivery);
  }

  function Operations(log: seq<Entry>): (os: seq<Operation>)
    ensures |os| == |log| && forall i :: 0 <= i < |os| ==> os[i] == log[i].done
  {
    seq(|log|, i requires 0 <= i < |log| => log[i].done)
  }

  /** The store is what handling the logged deliveries one after another would have made it. */
  ghost predicate Serial(find: Finder, s: Store, y: State) {
    HandleAll(find, Tables({}, s), Operations(y.log)).store == y.store
  }

  lemma HeldIsUnlogged(find: Finder, s: Store, y: State, d: DeliveryId)
    requires Inv(y) && InPhase(y, d, Recorded)
    ensures y.deliveries[d].notice.uuid !in HandleAll(find, Tables({}, s), Operations(y.log)).recorded
  {
    var n, os := y.deliveries[d].notice, Operations(y.log);
    assert Holds(y, d);
    forall i | 0 <= i < |os| && os[i].Deliver? ensures os[i].notice.uuid != n.uuid {
      assert Holds(y, y.log[i].delivery);
    }
    RecordedIffDelivered(find, s, os, n, Lands, Both);
  }

  lemma StepStaysSerial(find: Finder, s: Store, y: State, e: Event)
    requires Inv(y) && Possible(y, e) && Serial(find, s, y)
    ensures Serial(find, s, Step(find, y, e))
  {
    var y' := Step(find, y, e);
    if y'.log != y.log {
      var os, os' := Operations(y.log), Operations(y'.log);
      assert os'[..|os'| - 1] == os;
      if e.Process? {
        HeldIsUnlogged(find, s, y, e.d);
      }
    } else {
      assert y'.store == y.store;
    }
  }

  lemma {:induction false} RunStaysSerial(find: Finder, s: Store, y: State, es: seq<Event>)
    requires Inv(y) && Serial(find, s, y) && PossibleRun(find, y, es)
    ensures Serial(find, s, Run(find, y, es))
    decreases |es|
  {
    if es != [] {
      StepKeeps(find, y, es[0]);
      StepStaysSerial(find, s, y, es[0]);
      RunStaysSerial(find, s, Step(find, y, es[0]), es[1..]);
    }
  }

  /** Every interleaving leaves the store as the serial handling of what it logged. */
  lemma InterleavedIsSerial(find: Finder, s: Store, es: seq<Event>)
    requires PossibleRun(find, Start(s), es)
    ensures Serial(find, s, Run(find, Start(s), es))
  {
    assert Operations(Start(s).log) == [];
    RunStaysSerial(find, s, Start(s), es);
  }

  // ---------------------------------------------------------------------------
  // When a notification can still take effect
  // ---------------------------------------------------------------------------

  /** Not recorded yet, or recorded by a delivery that is still to be processed. */
  ghost predicate Open(y: State, uuid: string) {
    uuid !in y.recorded || exists d :: InPhase(y, d, Recorded) && y.deliveries[d].notice.uuid == uuid
  }

  ghost predicate LoggedSince(y: State, from: nat, uuid: string) {
    exists i :: from <= i < |y.log| && y.log[i].done.Deliver? && y.log[i].done.notice.uuid == uuid
  }

  lemma StaysClosed(find: Finder, y: State, e: Event, uuid: string)
    requires Possible(y, e) && !Open(y, uuid)
    ensures !Open(Step(find, y, e), uuid)
    ensures !LoggedSince(Step(find, y, e), |y.log|, uuid)
  {
    var y' := Step(find, y, e);
    forall d | InPhase(y', d, Recorded) ensures InPhase(y, d, Recorded) || y'.deliveries[d].notice.uuid != uuid {
    }
  }

  lemma {:induction false} ClosedIsNeverLogged(find: Finder, y: State, es: seq<Event>, uuid: string)
    requires PossibleRun(find, y, es) && !Open(y, uuid)
    ensures |y.log| <= |Run(find, y, es).log| && !LoggedSince(Run(find, y, es), |y.log|, uuid)
    ensures forall i :: 0 <= i < |y.log| ==> Run(find, y, es).log[i] == y.log[i]
    decreases |es|
  {
    if es != [] {
      var y' := Step(find, y, es[0]);
      StaysClosed(find, y, es[0], uuid);
      ClosedIsNeverLogged(find, y', es[1..], uuid);
      assert forall i :: |y.log| <= i < |y'.log| ==> Run(find, y, es).log[i] == y'.log[i];
    }
  }

  /** A run from here that processes the notification. */
  function Completion(d: DeliveryId, n: Notification): seq<Event> {
    [Arrive(d, n), Check(d), Record(d, Lands), Process(d, Both)]
  }

  lemma UnrecordedCanComplete(find: Finder, y: State, d: DeliveryId, n: Notification)
    requires d !in y.deliveries && n.uuid !in y.recorded
    ensures PossibleRun(find, y, Completion(d, n))
    ensures LoggedSince(Run(find, y, Completion(d, n)), |y.log|, n.uuid)
  {
    var es := Completion(d, n);
    var y1 := Step(find, y, es[0]);
    assert es[1..] == [Check(d), Record(d, Lands), Process(d, Both)];
    var y2 := Step(find, y1, Check(d));
    assert es[1..][1..] == [Record(d, Lands), Process(d, Both)];
    var y3 := Step(find, y2, Record(d, Lands));
    assert es[1..][1..][1..] == [Process(d, Both)];
    var y4 := Step(find, y3, Process(d, Both));
    assert es[1..][1..][1..][1..] == [];
    assert PossibleRun(find, y4, []);
    assert PossibleRun(find, y3, [Process(d, Both)]);
    assert Run(find, y3, [Process(d, Both)]) == y4;
    assert PossibleRun(find, y2, es[1..][1..]);
    assert Run(find, y2, es[1..][1..]) == y4;
    assert PossibleRun(find, y1, es[1..]);
    assert Run(find, y1, es[1..]) == y4;
    assert PossibleRun(find, y, es);
    assert Run(find, y, es) == y4;
    assert y4.log[|y.log|].done.notice.uuid == n.uuid;
  }

  lemma RecordedCanComplete(find: Finder, y: State, d: DeliveryId)
    requires InPhase(y, d, Recorded)
    ensures PossibleRun(find, y, [Process(d, Both)])
    ensures LoggedSince(Run(find, y, [Process(d, Both)]), |y.log|, y.deliveries[d].notice.uuid)
  {
    var y' := Step(find, y, Process(d, Both));
    assert PossibleRun(find, y', []);
    assert [Process(d, Both)][1..] == [];
    assert Run(find, y, [Process(d, Both)]) == y';
    assert y'.log[|y.log|].done.notice == y.deliveries[d].notice;
  }

  /** Some continuation, redeliveries included, processes the notification. */
  ghost predicate Processable(find: Finder, y: State, uuid: string) {
    exists es :: ProcessedBy(find, y, es, uuid)
  }

  ghost predicate ProcessedBy(find: Finder, y: State, es: seq<Event>, uuid: string) {
    PossibleRun(find, y, es) && LoggedSince(Run(find, y, es), |y.log|, uuid)
  }

  /** A notification can still be processed exactly while it is open: one whose processing failed after its
      record was made never is again. */
  lemma ProcessableIffOpen(find: Finder, y: State, d: DeliveryId, n: Notification)
    requires d !in y.deliveries
    ensures Processable(find, y, n.uuid) <==> Open(y, n.uuid)
  {
    if n.uuid !in y.recorded {
      UnrecordedCanComplete(find, y, d, n);
      assert ProcessedBy(find, y, Completion(d, n), n.uuid);
    } else if c: DeliveryId :| InPhase(y, c, Recorded) && y.deliveries[c].notice.uuid == n.uuid {
      RecordedCanComplete(find, y, c);
      assert ProcessedBy(find, y, [Process(c, Both)], n.uuid);
    } else {
      forall es | PossibleRun(find, y, es) ensures !LoggedSince(Run(find, y, es), |y.log|, n.uuid) {
        ClosedIsNeverLogged(find, y, es, n.uuid);
      }
    }
  }

  lemma FailedProcessingCloses(find: Finder, y: State, d: DeliveryId, reach: Reach)
    requires Inv(y) && InPhase(y, d, Recorded)
    ensures !Open(Step(find, y, Process(d, reach)), y.deliveries[d].notice.uuid)
  {
    var y' := Step(find, y, Process(d, reach));
    var uuid := y.deliveries[d].notice.uuid;
    assert Holds(y, d) && uuid in y'.recorded;
    forall c | InPhase(y', c, Recorded) ensures y'.deliveries[c].notice.uuid != uuid {
      assert InPhase(y, c, Recorded) && Holds(y, c);
    }
  }
}
