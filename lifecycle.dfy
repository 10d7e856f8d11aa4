/** The subscription lifecycle across the routes that write the subscription table:
    the payment route records the intent, the gateway's notification activates it. */
module Lifecycle {
  import opened Common
  import opened Schema
  import UsageTracker
  import PaymentCreate
  import PaymentCallback

  /** A user on a FREE row who pays for a plan, and whose payment the gateway confirms,
      ends with an ACTIVE row that is still FREE: the payment route only stamps the
      trade number on the existing row and the notification only changes status and
      period. The usage gate therefore keeps granting the FREE quota of 3. The trade
      number is assumed fresh, as the generator's timestamp makes it. */
  lemma PaidUpgradeKeepsFreeQuota(subs: seq<Subscription>, userId: string, plan: Plan, tradeNo: string,
                                  now: Millis, later: Millis, usage: UsageTable, kind: string,
                                  month: UsageTracker.Now)
    requires UsageTracker.ValidNow(month)
    requires SubscriptionOf(subs, userId).Some? && SubscriptionOf(subs, userId).value.plan == Free
    requires forall s :: s in subs ==> s.tradeNo != Some(tradeNo)
    ensures var paid := PaymentCallback.Activate(PaymentCreate.UpsertIntent(subs, userId, plan, tradeNo, now),
                                                 Some(tradeNo), later);
      && SubscriptionOf(paid, userId).Some?
      && SubscriptionOf(paid, userId).value.plan == Free
      && SubscriptionOf(paid, userId).value.status == Active
      && SubscriptionOf(paid, userId).value.periodEnd == later + ThirtyDaysMs
      && UsageTracker.CheckUsageLimit(paid, usage, userId, kind, month, false, false).limit == 3
  {
    UpgradeActivatesOwnRow(subs, userId, plan, tradeNo, now, later);
  }

  /** The row the payment route stamped is the one the notification activates, and it
      keeps the plan it had. */
  lemma UpgradeActivatesOwnRow(subs: seq<Subscription>, userId: string, plan: Plan, tradeNo: string,
                               now: Millis, later: Millis)
    requires SubscriptionIndex(subs, userId).Some?
    requires forall s :: s in subs ==> s.tradeNo != Some(tradeNo)
    ensures var paid := PaymentCallback.Activate(PaymentCreate.UpsertIntent(subs, userId, plan, tradeNo, now),
                                                 Some(tradeNo), later);
      var i := SubscriptionIndex(subs, userId).value;
      SubscriptionOf(paid, userId) == Some(subs[i].(status := Active, periodStart := later,
        periodEnd := later + ThirtyDaysMs, updatedAt := later, tradeNo := Some(tradeNo)))
  {
    var i := SubscriptionIndex(subs, userId).value;
    var r := PaymentCreate.UpsertIntent(subs, userId, plan, tradeNo, now);
    IntentRowIsFirstMatch(subs, userId, plan, tradeNo, now);
    var paid := PaymentCallback.Activate(r, Some(tradeNo), later);
    PaymentCreate.SameUserIds(subs, r, userId);
    PaymentCreate.SameUserIds(r, paid, userId);
  }

  /** With a fresh trade number, the only row carrying it is the one the payment route stamped. */
  lemma IntentRowIsFirstMatch(subs: seq<Subscription>, userId: string, plan: Plan, tradeNo: string, now: Millis)
    requires SubscriptionIndex(subs, userId).Some?
    requires forall s :: s in subs ==> s.tradeNo != Some(tradeNo)
    ensures PaymentCallback.FirstMatch(PaymentCreate.UpsertIntent(subs, userId, plan, tradeNo, now), Some(tradeNo))
         == SubscriptionIndex(subs, userId)
  {
    var i := SubscriptionIndex(subs, userId).value;
    var r := PaymentCreate.UpsertIntent(subs, userId, plan, tradeNo, now);
    forall j | 0 <= j < |r| && j != i ensures !PaymentCallback.Matches(r[j], Some(tradeNo)) {
      assert r[j] == subs[j] && subs[j] in subs;
    }
  }
}
