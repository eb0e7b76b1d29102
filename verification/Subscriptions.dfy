/** Subscription rows and the users' access flag: receipt verification, the store notifications of both
    platforms, and the time-based access snapshot. One handler is one step; what the stores answer and
    which of several matching rows a query returns are parameters. */
module Subscriptions {
  import opened Common

  datatype Platform = Ios | Android
  datatype Status = Active | Cancelled | Expired | GracePeriod | BillingRetry | OnHold | Revoked

  datatype Subscription = Subscription(
    platform: Platform,
    tier: string,
    status: Status,
    startDate: int,
    endDate: int,
    autoRenew: bool,
    originalTransactionId: Option<string>,
    purchaseToken: string)

  /** `hasDiscoveryAccess` per user, and at most one subscription row per user. */
  datatype Store = Store(flags: map<UserId, bool>, subs: map<UserId, Subscription>)

  // ---------------------------------------------------------------------------
  // Choosing the receipt
  // ---------------------------------------------------------------------------

  datatype ReceiptInfo = ReceiptInfo(product: Option<string>, purchased: Option<int>, expires: Option<int>,
      transaction: Option<string>)

  predicate Usable(e: ReceiptInfo, product: string) {
    e.product == Some(product) && e.expires.Some? && e.expires.value > 0
  }

  function Filtered(infos: seq<ReceiptInfo>, product: string): (r: seq<ReceiptInfo>)
    ensures forall e :: e in r <==> e in infos && Usable(e, product)
  {
    if infos == [] then []
    else if Usable(infos[0], product) then [infos[0]] + Filtered(infos[1..], product)
    else Filtered(infos[1..], product)
  }

  predicate Descending(infos: seq<ReceiptInfo>) {
    && (forall i :: 0 <= i < |infos| ==> infos[i].expires.Some?)
    && forall i, j :: 0 <= i < j < |infos| ==> infos[i].expires.value >= infos[j].expires.value
  }

  /** Stable insertion by descending expiry. */
  function Inserted(e: ReceiptInfo, sorted: seq<ReceiptInfo>): (r: seq<ReceiptInfo>)
    requires e.expires.Some? && Descending(sorted)
    ensures |r| == |sorted| + 1 && Descending(r)
    ensures forall x :: x in r <==> x == e || x in sorted
  {
    if sorted == [] || e.expires.value >= sorted[0].expires.value then [e] + sorted
    else
      var rest := Inserted(e, sorted[1..]);
      assert forall k :: 0 <= k < |rest| ==> rest[k] in rest;
      [sorted[0]] + rest
  }

  function Sorted(infos: seq<ReceiptInfo>): (r: seq<ReceiptInfo>)
    requires forall e :: e in infos ==> e.expires.Some?
    ensures |r| == |infos| && Descending(r)
    ensures forall x :: x in r <==> x in infos
  {
    if infos == [] then [] else Inserted(infos[0], Sorted(infos[1..]))
  }

  /** The first of the usable receipts by descending expiry. */
  function LatestReceipt(infos: seq<ReceiptInfo>, product: string): (r: Option<ReceiptInfo>)
    ensures r.None? <==> forall e :: e in infos ==> !Usable(e, product)
    ensures r.Some? ==> r.value in infos && Usable(r.value, product)
                        && forall e :: e in infos && Usable(e, product) ==> e.expires.value <= r.value.expires.value
  {
    var sorted := Sorted(Filtered(infos, product));
    if sorted == [] then None
    else
      assert sorted[0] in sorted;
      Some(sorted[0])
  }

  // ---------------------------------------------------------------------------
  // Receipt verification
  // ---------------------------------------------------------------------------

  /** What a store says about a receipt, reduced to what the code reads. */
  datatype Answer =
    | Google(paid: bool, starts: int, ends: int, autoRenew: bool, order: Option<string>)
    | AppleReceipt(ok: bool, infos: seq<ReceiptInfo>, autoRenew: bool)
    | AppleSigned(signedProduct: string, signedPurchased: Option<int>, signedExpires: Option<int>,
        signedTransaction: Option<string>)
    | NoAnswer

  /** The store confirms the purchase of this product up to `ends`: Google a paid one, Apple the latest expiry on the
      receipt, or the one a signed transaction carries. */
  ghost predicate Confirms(answer: Answer, product: string, ends: int) {
    match answer
    case NoAnswer => false
    case Google(paid, _, until, _, _) => paid && until == ends
    case AppleReceipt(ok, infos, _) =>
      && ok && (exists e :: e in infos && Usable(e, product) && e.expires.value == ends)
      && forall e :: e in infos && Usable(e, product) ==> e.expires.value <= ends
    case AppleSigned(signedProduct, _, expires, _) => signedProduct == product && expires == Some(ends)
  }

  /** Apple's confirmations count only while they last. */
  ghost predicate Grants(answer: Answer, product: string, now: int) {
    exists ends :: Confirms(answer, product, ends) && (answer.Google? || now < ends)
  }

  /** The row to store, or None when the receipt is refused. A signed transaction comes without surrounding blanks. */
  function Verified(answer: Answer, receipt: string, product: string, now: int): Option<Subscription> {
    match answer
    case NoAnswer => None
    case Google(paid, starts, expires, autoRenew, order) =>
      if !paid then None
      else Some(Subscription(Android, product, Active, starts, expires, autoRenew, order, receipt))
    case AppleReceipt(ok, infos, autoRenew) =>
      if !ok then None
      else
        var latest := LatestReceipt(infos, product);
        if latest.None? || latest.value.expires.value <= now then None
        else
          var starts := if latest.value.purchased.Some? then latest.value.purchased.value else now;
          Some(Subscription(Ios, product, Active, starts, latest.value.expires.value, autoRenew,
              latest.value.transaction, receipt))
    case AppleSigned(signedProduct, purchased, expires, transaction) =>
      if signedProduct != product || expires.None? || expires.value <= now then None
      else
        var starts := if purchased.Some? then purchased.value else now;
        Some(Subscription(Ios, product, Active, starts, expires.value, true, transaction,
                          if |receipt| <= 255 then receipt else receipt[..255]))
  }

  lemma VerifiedIffGranted(answer: Answer, receipt: string, product: string, now: int)
    ensures Verified(answer, receipt, product, now).Some? <==> Grants(answer, product, now)
    ensures Verified(answer, receipt, product, now).Some? ==>
              forall ends :: Confirms(answer, product, ends) <==>
                  ends == Verified(answer, receipt, product, now).value.endDate
  {
    match answer
    case NoAnswer =>
    case Google(paid, _, until, _, _) =>
      if paid {
        assert Confirms(answer, product, until);
      }
    case AppleReceipt(ok, infos, _) =>
      var latest := LatestReceipt(infos, product);
      if ok && latest.Some? {
        assert Confirms(answer, product, latest.value.expires.value);
      }
    case AppleSigned(_, _, expires, _) =>
      if expires.Some? && Verified(answer, receipt, product, now).Some? {
        assert Confirms(answer, product, expires.value);
      }
  }

  /** A signed transaction without an original id leaves the one in the row, as an update skips absent values. */
  function StoredTransaction(s: Store, u: UserId, answer: Answer, row: Subscription): Option<string> {
    if answer.AppleSigned? && row.originalTransactionId.None? && u in s.subs then s.subs[u].originalTransactionId
    else row.originalTransactionId
  }

  function VerifyReceipt(s: Store, u: UserId, answer: Answer, receipt: string, product: string, now: int): Store {
    var row := Verified(answer, receipt, product, now);
    if row.None? || u !in s.flags then s
    else Store(s.flags[u := true], s.subs[u := row.value.(originalTransactionId := StoredTransaction(s, u, answer,
        row.value))])
  }

  // ---------------------------------------------------------------------------
  // Store notifications; u is the user of the subscription row that was found
  // ---------------------------------------------------------------------------

  /** `reread` is the expiry read back from Apple, `webhook` the one in the notification. */
  datatype AppleNotice =
    | DidRenew(reread: Option<int>, webhook: Option<int>, autoRenew: bool)
    | DidChangeRenewalStatus(autoRenew: bool)
    | DidExpire
    | DidFailToRenew(grace: bool)
    | GracePeriodExpired
    | Subscribed
    | RefundOrRevoke
    | RefundReversed(expires: Option<int>, now: int)
    | Unhandled

  function OnApple(s: Store, u: UserId, n: AppleNotice): Store
    requires u in s.subs && u in s.flags
  {
    var sub := s.subs[u];
    match n
    case DidRenew(reread, webhook, autoRenew) =>
      var expires := if reread.Some? then reread else webhook;
      if expires.None? then s
      else Store(s.flags[u := true], s.subs[u := sub.(endDate := expires.value, status := Active,
          autoRenew := autoRenew)])
    case DidChangeRenewalStatus(autoRenew) =>
      s.(subs := s.subs[u := sub.(autoRenew := autoRenew, status := if autoRenew then sub.status else Cancelled)])
    case DidExpire => Store(s.flags[u := false], s.subs[u := sub.(status := Expired)])
    case DidFailToRenew(grace) => s.(subs := s.subs[u := sub.(status := if grace then GracePeriod else BillingRetry)])
    case GracePeriodExpired => Store(s.flags[u := false], s.subs[u := sub.(status := Expired)])
    case Subscribed => s
    case RefundOrRevoke => Store(s.flags[u := false], s.subs[u := sub.(status := Revoked, autoRenew := false)])
    case RefundReversed(expires, now) =>
      if expires.None? || expires.value <= now then s
      else Store(s.flags[u := true], s.subs[u := sub.(status := Active, endDate := expires.value)])
    case Unhandled => s
  }

  /** Renewed, recovered and restarted are handled alike; `result` is Google's answer, None when the call fails. */
  datatype GoogleNotice =
    | Renewed(result: Option<(int, bool)>)
    | Canceled
    | SubscriptionExpired
    | InGracePeriod
    | PutOnHold
    | SubscriptionRevoked
    | Purchased
    | Other

  function OnGoogle(s: Store, u: UserId, n: GoogleNotice): Store
    requires u in s.subs && u in s.flags
  {
    var sub := s.subs[u];
    match n
    case Renewed(result) =>
      if result.None? then s
      else s.(subs := s.subs[u := sub.(endDate := result.value.0, status := Active, autoRenew := result.value.1)])
    case Canceled => s.(subs := s.subs[u := sub.(status := Cancelled, autoRenew := false)])
    case SubscriptionExpired => Store(s.flags[u := false], s.subs[u := sub.(status := Expired)])
    case InGracePeriod => s.(subs := s.subs[u := sub.(status := GracePeriod)])
    case PutOnHold => s.(subs := s.subs[u := sub.(status := OnHold)])
    case SubscriptionRevoked => Store(s.flags[u := false], s.subs[u := sub.(status := Revoked, autoRenew := false)])
    case Purchased => s
    case Other => s
  }

  // ---------------------------------------------------------------------------
  // The access snapshot
  // ---------------------------------------------------------------------------

  predicate HasActiveSubscription(s: Store, u: UserId, now: int) {
    u in s.subs && now < s.subs[u].endDate && s.subs[u].status == Active
  }

  // ---------------------------------------------------------------------------
  // The services
  // ---------------------------------------------------------------------------

  class PurchaseTables {
    var flags: map<UserId, bool>
    var subs: map<UserId, Subscription>

    constructor ()
      ensures View() == Store(map[], map[])
    {
      flags, subs := map[], map[];
    }

    ghost function View(): Store
      reads this
    {
      Store(flags, subs)
    }

    method UpsertVerified(u: UserId, answer: Answer, receipt: string, product: string, now: int) returns (success: bool)
      modifies this
      ensures View() == VerifyReceipt(old(View()), u, answer, receipt, product, now)
      ensures success <==> u in old(flags) && Grants(answer, product, now)
    {
      var row := Verified(answer, receipt, product, now);
      VerifiedIffGranted(answer, receipt, product, now);
      if row.None? || u !in flags {
        return false;
      }
      if u in subs {
        var transaction := if answer.AppleSigned? &&
            row.value.originalTransactionId.None? then subs[u].originalTransactionId
                           else row.value.originalTransactionId;
        subs := subs[u := subs[u].(platform := row.value.platform, tier := row.value.tier, status := Active,
          startDate := row.value.startDate, endDate := row.value.endDate, autoRenew := row.value.autoRenew,
          originalTransactionId := transaction, purchaseToken := row.value.purchaseToken)];
      } else {
        subs := subs[u := row.value];
      }
      flags := flags[u := true];
      return true;
    }

    method HandleAppleNotice(u: UserId, n: AppleNotice)
      requires u in subs && u in flags
      modifies this
      ensures View() == OnApple(old(View()), u, n)
    {
      var sub := subs[u];
      match n {
        case DidRenew(reread, webhook, autoRenew) =>
          var expires := if reread.Some? then reread else webhook;
          if expires.None? {
            return;
          }
          subs := subs[u := sub.(endDate := expires.value, status := Active, autoRenew := autoRenew)];
          flags := flags[u := true];
        case DidChangeRenewalStatus(autoRenew) =>
          subs := subs[u := sub.(autoRenew := autoRenew, status := if autoRenew then sub.status else Cancelled)];
        case DidExpire =>
          subs := subs[u := sub.(status := Expired)];
          flags := flags[u := false];
        case DidFailToRenew(grace) =>
          if grace {
            subs := subs[u := sub.(status := GracePeriod)];
          } else {
            subs := subs[u := sub.(status := BillingRetry)];
          }
        case GracePeriodExpired =>
          subs := subs[u := sub.(status := Expired)];
          flags := flags[u := false];
        case Subscribed =>
        case RefundOrRevoke =>
          subs := subs[u := sub.(status := Revoked, autoRenew := false)];
          flags := flags[u := false];
        case RefundReversed(expires, now) =>
          if expires.Some? && expires.value > now {
            subs := subs[u := sub.(status := Active, endDate := expires.value)];
            flags := flags[u := true];
          }
        case Unhandled =>
      }
    }

    method HandleGoogleNotice(u: UserId, n: GoogleNotice)
      requires u in subs && u in flags
      modifies this
      ensures View() == OnGoogle(old(View()), u, n)
    {
      var sub := subs[u];
      match n {
        case Renewed(result) =>
          if result.Some? {
            subs := subs[u := sub.(endDate := result.value.0, status := Active, autoRenew := result.value.1)];
          }
        case Canceled => subs := subs[u := sub.(status := Cancelled, autoRenew := false)];
        case SubscriptionExpired =>
          subs := subs[u := sub.(status := Expired)];
          flags := flags[u := false];
        case InGracePeriod => subs := subs[u := sub.(status := GracePeriod)];
        case PutOnHold => subs := subs[u := sub.(status := OnHold)];
        case SubscriptionRevoked =>
          subs := subs[u := sub.(status := Revoked, autoRenew := false)];
          flags := flags[u := false];
        case Purchased =>
        case Other =>
      }
    }
  }
}
