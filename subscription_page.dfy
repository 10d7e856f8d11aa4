/** The decisions the subscription page makes (app/subscription/page.tsx): the toast
    shown for the payment outcome in the query string, the plan shown as current, the
    remaining monthly quota, and which upgrade cards can be clicked. */
module SubscriptionPage {
  import opened Common
  import opened Schema
  import PaymentCreate

  datatype Toast = SuccessToast(text: string) | ErrorToast(text: string)

  /** The usage record the page fetched: this month's count and the plan's limit. */
  datatype UsageData = UsageData(current: int, limit: int)

  /** The toast for `?payment=…`: the query values are those `URLSearchParams.get`
      returns, `None` for a missing one (printed as "null"). */
  function PaymentToast(payment: Option<string>, tradeNo: Option<string>, message: Option<string>): (t: Option<Toast>)
    ensures t.Some? <==> payment in {Some("success"), Some("failed"), Some("error")}
    ensures payment == Some("success") ==> t == Some(SuccessToast("付款成功！訂單號：" + TemplateOrNull(tradeNo)))
    ensures payment == Some("failed") ==> t == Some(ErrorToast("付款失敗：" + OrDefault(message, "未知錯誤")))
    ensures payment == Some("error") ==> t == Some(ErrorToast("付款過程中發生錯誤，請聯繫客服"))
  {
    if payment == Some("success") then Some(SuccessToast("付款成功！訂單號：" + TemplateOrNull(tradeNo)))
    else if payment == Some("failed") then Some(ErrorToast("付款失敗：" + OrDefault(message, "未知錯誤")))
    else if payment == Some("error") then Some(ErrorToast("付款過程中發生錯誤，請聯繫客服"))
    else None
  }

  /** `subscription ? planConfig[subscription.plan] : planConfig.FREE`. */
  function CurrentPlan(sub: Option<Plan>): (p: Plan)
    ensures sub.None? ==> p == Free
    ensures sub.Some? ==> p == sub.value
  {
    if sub.Some? then sub.value else Free
  }

  /** `usage?.limit ? Math.max(0, usage.limit - (usage.current || 0)) : 0`. */
  function Remaining(usage: Option<UsageData>): (n: int)
    ensures n >= 0
    ensures usage.None? || usage.value.limit == 0 ==> n == 0
    ensures usage.Some? && usage.value.limit != 0 && usage.value.current <= usage.value.limit ==>
      n == usage.value.limit - usage.value.current
    ensures usage.Some? && usage.value.current >= usage.value.limit ==> n == 0
  {
    if usage.None? || usage.value.limit == 0 then 0 else Max(0, usage.value.limit - usage.value.current)
  }

  /** The upgrade cards: `Object.entries(planConfig)` in declaration order, FREE skipped. */
  const UpgradeCards: seq<Plan> := [Creator, Pro, Enterprise]

  predicate IsCurrentPlan(sub: Option<Plan>, target: Plan)
  {
    sub == Some(target)
  }

  /** `subscription && indexOf(subscription.plan) > indexOf(planKey)` over the keys
      [FREE, CREATOR, PRO, ENTERPRISE]. */
  predicate IsDowngrade(sub: Option<Plan>, target: Plan)
  {
    sub.Some? && PlanRank(sub.value) > PlanRank(target)
  }

  /** `disabled={isCurrentPlan || isDowngrade || upgrading}`. */
  predicate Disabled(sub: Option<Plan>, target: Plan, upgrading: bool)
  {
    IsCurrentPlan(sub, target) || IsDowngrade(sub, target) || upgrading
  }

  /** The click handler starts an upgrade only for a card that is neither current nor
      a downgrade. */
  predicate ClickStartsUpgrade(sub: Option<Plan>, target: Plan)
  {
    !IsCurrentPlan(sub, target) && !IsDowngrade(sub, target)
  }

  /** The card's button label, in the order the page tests the conditions. */
  function ButtonLabel(sub: Option<Plan>, target: Plan, upgrading: bool): (s: string)
    ensures s == "立即升級" <==> !Disabled(sub, target, upgrading)
  {
    if IsCurrentPlan(sub, target) then "目前方案"
    else if IsDowngrade(sub, target) then "無法降級"
    else if upgrading then "處理中..."
    else "立即升級"
  }

  /** FREE is never offered, and every paid plan is offered once. */
  lemma CardsAreThePaidPlans()
    ensures Free !in UpgradeCards
    ensures forall p :: p != Free ==> p in UpgradeCards
    ensures Distinct(UpgradeCards)
  {
  }

  /** An enabled button is one whose click starts an upgrade; a click may still start
      one while another is in flight, since the handler does not look at `upgrading`. */
  lemma EnabledMeansClickable(sub: Option<Plan>, target: Plan, upgrading: bool)
    ensures !Disabled(sub, target, upgrading) ==> ClickStartsUpgrade(sub, target)
    ensures ClickStartsUpgrade(sub, target) <==> !Disabled(sub, target, false)
  {
  }

  /** For a paid target the page greys out exactly the cards the payment route would
      refuse: the current plan or a lower one, when the current plan is paid. On FREE
      or without a subscription every card is open, as the route allows. */
  lemma PageAgreesWithServer(sub: Option<Subscription>, target: Plan)
    requires target != Free
    ensures var shown := if sub.Some? then Some(sub.value.plan) else None;
      IsCurrentPlan(shown, target) || IsDowngrade(shown, target) <==> PaymentCreate.Blocked(sub, target)
  {
    PaymentCreate.BlockedMeansNotAnUpgrade(sub, target);
    if sub.Some? && sub.value.plan != target {
      assert PlanRank(sub.value.plan) != PlanRank(target) by {
        if PlanRank(sub.value.plan) == PlanRank(target) {
          PlanRankInjective(sub.value.plan, target);
        }
      }
    }
  }

  /** A user on ENTERPRISE has no card left to click; a user without a subscription,
      or on FREE, can click every card. */
  lemma ClickableCards(sub: Option<Plan>)
    ensures sub == Some(Enterprise) ==> forall p :: p in UpgradeCards ==> !ClickStartsUpgrade(sub, p)
    ensures sub.None? || sub == Some(Free) ==> forall p :: p in UpgradeCards ==> ClickStartsUpgrade(sub, p)
  {
  }
}
