/** What a verified receipt and each store notification mean for the row, for the flag, and for access over time. */
module SubscriptionLaws {
  import opened Common
  import opened Subscriptions

  /** Nobody else's row or flag changes. */
  ghost predicate OnlyUser(s: Store, s': Store, u: UserId) {
    forall v :: v != u ==> Get(s'.subs, v) == Get(s.subs, v) && Get(s'.flags, v) == Get(s.flags, v)
  }

  /** What a purchase row says besides its term: who sold it, when it began, whether it renews, and by which id the
      store will speak of it. */
  ghost predicate Describes(row: Subscription, answer: Answer, receipt: string, product: string, now: int,
      former: Option<Subscription>) {
    && row.tier == product
    && match answer
       case NoAnswer => false
       case Google(_, starts, _, autoRenew, order) =>
         && row.platform == Android && row.startDate == starts && row.autoRenew == autoRenew
         && row.originalTransactionId == order && row.purchaseToken == receipt
       case AppleReceipt(_, infos, autoRenew) =>
         && row.platform == Ios && row.autoRenew == autoRenew && row.purchaseToken == receipt
         && exists e :: e in infos && Usable(e, product) && e.expires.value == row.endDate
                        && row.startDate == (if e.purchased.Some? then e.purchased.value else now)
                        && row.originalTransactionId == e.transaction
       case AppleSigned(_, purchased, _, transaction) =>
         && row.platform == Ios && row.autoRenew
         && row.startDate == (if purchased.Some? then purchased.value else now)
         && row.purchaseToken == (if |receipt| <= 255 then receipt else receipt[..255])
         && row.originalTransactionId ==
              if transaction.None? && former.Some? then former.value.originalTransactionId else transaction
  }

  /** A receipt gives an existing user access exactly up to the expiry the store confirms, raises the flag, and leaves
      everybody else alone; one that is not good changes nothing. */
  lemma ReceiptGivesAccess(s: Store, u: UserId, answer: Answer, receipt: string, product: string, now: int)
    ensures var s' := VerifyReceipt(s, u, answer, receipt, product, now);
            if u in s.flags && Grants(answer, product, now) then
              && u in s'.subs && Get(s'.flags, u) == Some(true) && OnlyUser(s, s', u)
              && Describes(s'.subs[u], answer, receipt, product, now, Get(s.subs, u))
              && Confirms(answer, product, s'.subs[u].endDate)
              && (forall ends :: Confirms(answer, product, ends) ==> ends == s'.subs[u].endDate)
              && forall t :: HasActiveSubscription(s', u, t) <==> t < s'.subs[u].endDate
            else s' == s
  {
    var s' := VerifyReceipt(s, u, answer, receipt, product, now);
    VerifiedIffGranted(answer, receipt, product, now);
    if u in s.flags && Grants(answer, product, now) {
      ReceiptIsStored(s, u, answer, receipt, product, now);
      RowDescribes(s, u, answer, receipt, product, now);
      ConfirmedEnd(answer, receipt, product, now);
    }
  }

  /** The receipt's row is stored as active under the user, with the flag raised. */
  lemma ReceiptIsStored(s: Store, u: UserId, answer: Answer, receipt: string, product: string, now: int)
    requires u in s.flags && Verified(answer, receipt, product, now).Some?
    ensures var row := Verified(answer, receipt, product, now).value;
            var s' := VerifyReceipt(s, u, answer, receipt, product, now);
            && u in s'.subs && s'.subs[u] == row.(originalTransactionId := StoredTransaction(s, u, answer, row))
            && Get(s'.flags, u) == Some(true) && OnlyUser(s, s', u)
            && forall t :: HasActiveSubscription(s', u, t) <==> row.status == Active && t < row.endDate
  {
  }

  lemma ConfirmedEnd(answer: Answer, receipt: string, product: string, now: int)
    requires Verified(answer, receipt, product, now).Some?
    ensures Confirms(answer, product, Verified(answer, receipt, product, now).value.endDate)
    ensures forall ends :: Confirms(answer, product, ends) ==>
        ends == Verified(answer, receipt, product, now).value.endDate
  {
    VerifiedIffGranted(answer, receipt, product, now);
  }

  lemma RowDescribes(s: Store, u: UserId, answer: Answer, receipt: string, product: string, now: int)
    requires Verified(answer, receipt, product, now).Some?
    ensures var row := Verified(answer, receipt, product, now).value;
            && row.status == Active
            && Describes(row.(originalTransactionId := StoredTransaction(s, u, answer, row)), answer, receipt,
                product, now, Get(s.subs, u))
  {
    if answer.AppleReceipt? {
      var latest := LatestReceipt(answer.infos, product).value;
      assert latest in answer.infos && Usable(latest, product);
    }
  }

  /** What identifies a subscription stays. */
  predicate SameSubscription(a: Subscription, b: Subscription) {
    && b.platform == a.platform && b.tier == a.tier && b.startDate == a.startDate
    && b.originalTransactionId == a.originalTransactionId && b.purchaseToken == a.purchaseToken
  }

  /** A change of the term, the status, the renewal and the flag; None leaves a part alone. */
  datatype Change = Change(endDate: Option<int>, status: Option<Status>, autoRenew: Option<bool>, flag: Option<bool>)

  function Or<T>(part: Option<T>, former: T): T {
    if part.Some? then part.value else former
  }

  ghost predicate Makes(s: Store, s': Store, u: UserId, c: Change)
    requires u in s.subs && u in s.flags
  {
    && OnlyUser(s, s', u) && u in s'.subs && u in s'.flags
    && SameSubscription(s.subs[u], s'.subs[u])
    && s'.subs[u].endDate == Or(c.endDate, s.subs[u].endDate)
    && s'.subs[u].status == Or(c.status, s.subs[u].status)
    && s'.subs[u].autoRenew == Or(c.autoRenew, s.subs[u].autoRenew)
    && s'.flags[u] == Or(c.flag, s.flags[u])
  }

  const NOTHING := Change(None, None, None, None)

  /** Each App Store notification, row by row of the table its documentation would have. */
  lemma AppleNoticeMeans(s: Store, u: UserId, n: AppleNotice)
    requires u in s.subs && u in s.flags
    ensures n.DidRenew? && n.reread.Some? ==>
              Makes(s, OnApple(s, u, n), u, Change(n.reread, Some(Active), Some(n.autoRenew), Some(true)))
    ensures n.DidRenew? && n.reread.None? && n.webhook.Some? ==>
              Makes(s, OnApple(s, u, n), u, Change(n.webhook, Some(Active), Some(n.autoRenew), Some(true)))
    ensures n.DidRenew? && n.reread.None? && n.webhook.None? ==> OnApple(s, u, n) == s
    ensures n == DidChangeRenewalStatus(true) ==> Makes(s, OnApple(s, u, n), u, Change(None, None, Some(true), None))
    ensures n == DidChangeRenewalStatus(false) ==>
              Makes(s, OnApple(s, u, n), u, Change(None, Some(Cancelled), Some(false), None))
    ensures n == DidExpire || n == GracePeriodExpired ==>
              Makes(s, OnApple(s, u, n), u, Change(None, Some(Expired), None, Some(false)))
    ensures n == DidFailToRenew(true) ==> Makes(s, OnApple(s, u, n), u, Change(None, Some(GracePeriod), None, None))
    ensures n == DidFailToRenew(false) ==> Makes(s, OnApple(s, u, n), u, Change(None, Some(BillingRetry), None, None))
    ensures n == RefundOrRevoke ==>
              Makes(s, OnApple(s, u, n), u, Change(None, Some(Revoked), Some(false), Some(false)))
    ensures n.RefundReversed? && n.expires.Some? && n.now < n.expires.value ==>
              Makes(s, OnApple(s, u, n), u, Change(n.expires, Some(Active), None, Some(true)))
    ensures n.RefundReversed? && (n.expires.None? || n.expires.value <= n.now) ==> OnApple(s, u, n) == s
    ensures n == Subscribed || n == Unhandled ==> OnApple(s, u, n) == s
  {
  }

  /** The same for Google Play. No notification of Google's raises the flag. */
  lemma GoogleNoticeMeans(s: Store, u: UserId, n: GoogleNotice)
    requires u in s.subs && u in s.flags
    ensures n.Renewed? && n.result.Some? ==>
              Makes(s, OnGoogle(s, u, n), u, Change(Some(n.result.value.0), Some(Active), Some(n.result.value.1), None))
    ensures n.Renewed? && n.result.None? ==> OnGoogle(s, u, n) == s
    ensures n == Canceled ==> Makes(s, OnGoogle(s, u, n), u, Change(None, Some(Cancelled), Some(false), None))
    ensures n == SubscriptionExpired ==>
              Makes(s, OnGoogle(s, u, n), u, Change(None, Some(Expired), None, Some(false)))
    ensures n == InGracePeriod ==> Makes(s, OnGoogle(s, u, n), u, Change(None, Some(GracePeriod), None, None))
    ensures n == PutOnHold ==> Makes(s, OnGoogle(s, u, n), u, Change(None, Some(OnHold), None, None))
    ensures n == SubscriptionRevoked ==>
              Makes(s, OnGoogle(s, u, n), u, Change(None, Some(Revoked), Some(false), Some(false)))
    ensures n == Purchased || n == Other ==> OnGoogle(s, u, n) == s
  {
  }

  /** A renewal of either store moves access to exactly the new expiry. */
  lemma RenewalMovesAccess(s: Store, u: UserId, ends: int, autoRenew: bool, t: int)
    requires u in s.subs && u in s.flags
    ensures HasActiveSubscription(OnApple(s, u, DidRenew(Some(ends), None, autoRenew)), u, t) <==> t < ends
    ensures HasActiveSubscription(OnGoogle(s, u, Renewed(Some((ends, autoRenew)))), u, t) <==> t < ends
  {
  }

  /** The snapshot gives access for as long as an active subscription lasts. */
  lemma SnapshotReadsTheRow(s: Store, u: UserId, now: int)
    ensures HasActiveSubscription(s, u, now) <==> u in s.subs && s.subs[u].status == Active && now < s.subs[u].endDate
  {
  }
}
