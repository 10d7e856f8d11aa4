/** `POST /api/payment/create` (app/api/payment/create/route.ts): a signed-in user asks
    to buy a paid plan; the route refuses anything that is not an upgrade over a paid
    plan, opens a checkout with the gateway, and records the trade number on the
    user's subscription row. */
module PaymentCreate {
  import opened Common
  import opened Schema
  import opened ECPay

  /** The signed-in user, as the session carries it. */
  datatype Session = Session(userId: string, email: Option<string>)

  /** The request body: not JSON at all, JSON that is not an object, or an object with
      its `plan` member. */
  datatype Body = Malformed | NotObject(received: string) | Object(plan: JsonField)

  datatype CreateReply =
    | Created(paymentHtml: string, tradeNo: string, planName: string, amount: int)
    | Rejected(status: int, error: string, details: Option<string>)

  const GenericError := "付款創建過程中發生錯誤"
  const DowngradeError := "無法降級到更低級的方案"

  /** The plan the body asks for, when it is one of the three paid plans. */
  function RequestedPlan(body: Body): (r: Option<Plan>)
    ensures r.Some? ==> r.value != Free && body.Object? && body.plan == Text(PlanName(r.value))
    ensures body.Object? && body.plan.Text? && body.plan.s in {"CREATOR", "PRO", "ENTERPRISE"} ==> r.Some?
  {
    if !body.Object? || !body.plan.Text? then None
    else
      var p := ParsePlan(body.plan.s);
      if p.Some? && p.value != Free then p else None
  }

  const PlanOptions := "'CREATOR' | 'PRO' | 'ENTERPRISE'"

  /** The first issue zod reports for a body that does not name a paid plan: the body
      is no object, `plan` is missing, `plan` is no string, or it is some other string. */
  function PlanIssue(body: Body): string
    requires !body.Malformed? && RequestedPlan(body).None?
  {
    match body
    case NotObject(t) => "Expected object, received " + t
    case Object(Missing) => "Required"
    case Object(NotString(t)) => "Expected " + PlanOptions + ", received " + t
    case Object(Text(v)) => "Invalid enum value. Expected " + PlanOptions + ", received '" + v + "'"
  }

  /** Each way of getting the body wrong has its own message. */
  lemma PlanIssueNamesTheCase(body: Body)
    requires !body.Malformed? && RequestedPlan(body).None?
    ensures PlanIssue(body) == "Required" <==> body == Object(Missing)
    ensures StartsWith(PlanIssue(body), "Expected object") <==> body.NotObject?
    ensures StartsWith(PlanIssue(body), "Invalid enum value") <==> body.Object? && body.plan.Text?
  {
    var m := PlanIssue(body);
    match body
    case NotObject(t) =>
      assert m[..15] == "Expected object";
      assert m[0] != "Invalid enum value"[0];
    case Object(Missing) =>
    case Object(NotString(t)) =>
      var head := "Expected " + PlanOptions;
      assert m == head + (", received " + t);
      assert m[9] == head[9] == '\'';
      assert m[9] != "Expected object"[9];
      assert m[0] != "Invalid enum value"[0];
    case Object(Text(v)) =>
      assert m[..18] == "Invalid enum value";
      assert m[0] != "Expected object"[0];
  }

  /** The no-downgrade rule: a user on a paid plan may only move to a plan further
      along [CREATOR, PRO, ENTERPRISE]; asking for the same plan is refused too. The
      subscription's status plays no part. */
  predicate Blocked(sub: Option<Subscription>, plan: Plan)
  {
    sub.Some? && sub.value.plan != Free && PlanRank(plan) <= PlanRank(sub.value.plan)
  }

  /** Without a subscription, or on FREE, every paid plan may be bought; on a paid
      plan exactly the strictly higher ones may. */
  lemma BlockedMeansNotAnUpgrade(sub: Option<Subscription>, plan: Plan)
    requires plan != Free
    ensures sub.None? || sub.value.plan == Free ==> !Blocked(sub, plan)
    ensures sub.Some? && sub.value.plan != Free ==>
      (Blocked(sub, plan) <==> plan == sub.value.plan || PlanRank(plan) < PlanRank(sub.value.plan))
  {
    if sub.Some? && PlanRank(plan) == PlanRank(sub.value.plan) {
      PlanRankInjective(plan, sub.value.plan);
    }
  }

  /** The upsert that records the payment intent: an existing row only gets the new
      trade number and `updatedAt`; otherwise a row is created for the requested plan,
      INCOMPLETE, for the 30 days from now. */
  function UpsertIntent(subs: seq<Subscription>, userId: string, plan: Plan, tradeNo: string,
                        now: Millis): (r: seq<Subscription>)
    ensures SubscriptionIndex(subs, userId).Some? ==>
      var i := SubscriptionIndex(subs, userId).value;
      && |r| == |subs|
      && (forall j :: 0 <= j < |subs| && j != i ==> r[j] == subs[j])
      && r[i].userId == userId && r[i].plan == subs[i].plan && r[i].status == subs[i].status
      && r[i].periodStart == subs[i].periodStart && r[i].periodEnd == subs[i].periodEnd
      && r[i].tradeNo == Some(tradeNo) && r[i].updatedAt == now
    ensures SubscriptionIndex(subs, userId).None? ==>
      && |r| == |subs| + 1 && r[..|subs|] == subs
      && r[|subs|] == Subscription(userId, plan, Incomplete, now, now + ThirtyDaysMs, Some(tradeNo), now)
    ensures SubscriptionOf(r, userId).Some? && SubscriptionOf(r, userId).value.tradeNo == Some(tradeNo)
  {
    var i := SubscriptionIndex(subs, userId);
    if i.Some? then
      var r := subs[i.value := subs[i.value].(tradeNo := Some(tradeNo), updatedAt := now)];
      assert SubscriptionIndex(r, userId) == i by {
        SameUserIds(subs, r, userId);
      }
      r
    else
      var r := subs + [Subscription(userId, plan, Incomplete, now, now + ThirtyDaysMs, Some(tradeNo), now)];
      assert forall j :: 0 <= j < |subs| ==> r[j].userId != userId by {
        forall j | 0 <= j < |subs| ensures r[j].userId != userId {
          assert r[j] == subs[j] && subs[j] in subs;
        }
      }
      LastIsFirstMatch(r, userId);
      r
  }

  lemma {:induction false} SameUserIds(a: seq<Subscription>, b: seq<Subscription>, userId: string)
    requires |a| == |b|
    requires forall j :: 0 <= j < |a| ==> a[j].userId == b[j].userId
    ensures SubscriptionIndex(a, userId) == SubscriptionIndex(b, userId)
  {
    if a != [] && a[0].userId != userId {
      assert b[0].userId != userId;
      assert forall j :: 0 <= j < |a| - 1 ==> a[1..][j].userId == a[j + 1].userId == b[1..][j].userId;
      SameUserIds(a[1..], b[1..], userId);
    }
  }

  lemma {:induction false} LastIsFirstMatch(r: seq<Subscription>, userId: string)
    requires |r| > 0 && r[|r| - 1].userId == userId
    requires forall j :: 0 <= j < |r| - 1 ==> r[j].userId != userId
    ensures SubscriptionIndex(r, userId) == Some(|r| - 1)
  {
    if |r| > 1 {
      LastIsFirstMatch(r[1..], userId);
    }
  }

  /** The upsert keeps the schema's constraints: still one subscription per user, each
      belonging to an existing user. */
  lemma UpsertIntentKeepsInvariant(users: seq<User>, subs: seq<Subscription>, usage: UsageTable,
                                   userId: string, plan: Plan, tradeNo: string, now: Millis)
    requires TablesInvariant(users, subs, usage)
    requires UserById(users, userId).Some?
    ensures TablesInvariant(users, UpsertIntent(subs, userId, plan, tradeNo, now), usage)
  {
    IntentOwnersExist(users, subs, usage, userId, plan, tradeNo, now);
    IntentOwnersUnique(subs, userId, plan, tradeNo, now);
  }

  lemma IntentOwnersExist(users: seq<User>, subs: seq<Subscription>, usage: UsageTable,
                          userId: string, plan: Plan, tradeNo: string, now: Millis)
    requires TablesInvariant(users, subs, usage)
    requires UserById(users, userId).Some?
    ensures forall s :: s in UpsertIntent(subs, userId, plan, tradeNo, now) ==> UserById(users, s.userId).Some?
  {
    var r := UpsertIntent(subs, userId, plan, tradeNo, now);
    var idx := SubscriptionIndex(subs, userId);
    forall s | s in r ensures UserById(users, s.userId).Some? {
      var j :| 0 <= j < |r| && r[j] == s;
      if j < |subs| && (idx.None? || j != idx.value) {
        assert subs[j] in subs;
      }
    }
  }

  lemma IntentOwnersUnique(subs: seq<Subscription>, userId: string, plan: Plan, tradeNo: string, now: Millis)
    requires forall i, j :: 0 <= i < j < |subs| ==> subs[i].userId != subs[j].userId
    ensures var r := UpsertIntent(subs, userId, plan, tradeNo, now);
      forall i, j :: 0 <= i < j < |r| ==> r[i].userId != r[j].userId
  {
    var r := UpsertIntent(subs, userId, plan, tradeNo, now);
    var idx := SubscriptionIndex(subs, userId);
    forall i, j | 0 <= i < j < |r| ensures r[i].userId != r[j].userId {
      if idx.None? && j == |subs| {
        assert subs[i] in subs;
      }
    }
  }

  /** What one request does: the reply, and the subscription table after it. The steps
      of the route, in order: session, body, user, downgrade rule, checkout, upsert.
      `now` is the request's clock reading, `suffix` the random trade-number suffix,
      `tradeDate` the formatted date and `checkout` the SDK's form generator. */
  function CreateEffect(users: seq<User>, subs: seq<Subscription>, session: Option<Session>, body: Body,
                        cfg: Config, now: nat, suffix: nat, tradeDate: string,
                        checkout: PaymentData -> Result<string, Option<string>>): (e: (CreateReply, seq<Subscription>))
    requires suffix < 1000
  {
    if session.None? then (Rejected(401, "請先登入", None), subs)
    else if body.Malformed? then (Rejected(500, GenericError, None), subs)
    else
      var plan := RequestedPlan(body);
      var userId := session.value.userId;
      if plan.None? then (Rejected(400, PlanIssue(body), None), subs)
      else if UserById(users, userId).None? then (Rejected(404, "用戶不存在", None), subs)
      else if Blocked(SubscriptionOf(subs, userId), plan.value) then (Rejected(400, DowngradeError, None), subs)
      else
        var payment := CreateSubscriptionPayment(cfg, plan.value, PlanPrice(plan.value), tradeDate,
                                                 now, suffix, checkout);
        if payment.PaymentFailed? then (Rejected(500, "付款創建失敗", Some(payment.error)), subs)
        else
          (Created(payment.html, payment.tradeNo, PlanDisplayName(plan.value), PlanPrice(plan.value)),
           UpsertIntent(subs, userId, plan.value, payment.tradeNo, now))
  }

  /** The outcome of a request: every refusal the route makes, and on success the
      plan's price and name, the generated trade number and the upsert; a refusal
      writes nothing. */
  lemma CreateOutcomes(users: seq<User>, subs: seq<Subscription>, session: Option<Session>, body: Body,
                       cfg: Config, now: nat, suffix: nat, tradeDate: string,
                       checkout: PaymentData -> Result<string, Option<string>>)
    requires suffix < 1000
    ensures var e := CreateEffect(users, subs, session, body, cfg, now, suffix, tradeDate, checkout);
      && (session.None? ==> e.0 == Rejected(401, "請先登入", None))
      && (session.Some? && body.Malformed? ==> e.0 == Rejected(500, GenericError, None))
      && (session.Some? && !body.Malformed? && RequestedPlan(body).None? ==>
          e.0 == Rejected(400, PlanIssue(body), None))
      && (session.Some? && RequestedPlan(body).Some? && UserById(users, session.value.userId).None? ==>
          e.0 == Rejected(404, "用戶不存在", None))
      && (session.Some? && RequestedPlan(body).Some? && UserById(users, session.value.userId).Some?
              && Blocked(SubscriptionOf(subs, session.value.userId), RequestedPlan(body).value) ==>
          e.0 == Rejected(400, DowngradeError, None))
      && (e.0.Rejected? && e.0.status == 500 && !body.Malformed? ==> e.0.error == "付款創建失敗")
      && (e.0.Created? ==>
          && session.Some? && RequestedPlan(body).Some?
          && UserById(users, session.value.userId).Some?
          && !Blocked(SubscriptionOf(subs, session.value.userId), RequestedPlan(body).value)
          && e.0.amount == PlanPrice(RequestedPlan(body).value)
          && e.0.planName == PlanDisplayName(RequestedPlan(body).value)
          && e.0.tradeNo == GenerateTradeNo(now, suffix)
          && e.1 == UpsertIntent(subs, session.value.userId, RequestedPlan(body).value, e.0.tradeNo, now))
      && (e.0.Rejected? ==> e.1 == subs)
  {
  }

  /** Every request keeps the schema's constraints. */
  lemma CreateKeepsInvariant(users: seq<User>, subs: seq<Subscription>, usage: UsageTable,
                             session: Option<Session>, body: Body, cfg: Config, now: nat, suffix: nat,
                             tradeDate: string, checkout: PaymentData -> Result<string, Option<string>>)
    requires TablesInvariant(users, subs, usage) && suffix < 1000
    ensures TablesInvariant(users, CreateEffect(users, subs, session, body, cfg, now, suffix, tradeDate,
                                                checkout).1, usage)
  {
    var e := CreateEffect(users, subs, session, body, cfg, now, suffix, tradeDate, checkout);
    CreateOutcomes(users, subs, session, body, cfg, now, suffix, tradeDate, checkout);
    if e.0.Created? {
      UpsertIntentKeepsInvariant(users, subs, usage, session.value.userId, RequestedPlan(body).value,
                                 e.0.tradeNo, now);
    }
  }

  /** The route handler, in the source's own steps. */
  method CreatePayment(db: Tables, session: Option<Session>, body: Body, cfg: Config,
                       now: nat, suffix: nat, tradeDate: string,
                       checkout: PaymentData -> Result<string, Option<string>>)
    returns (reply: CreateReply)
    requires db.Valid() && suffix < 1000
    modifies db`subscriptions
    ensures db.Valid()
    ensures (reply, db.subscriptions)
         == CreateEffect(old(db.users), old(db.subscriptions), session, body, cfg, now, suffix, tradeDate,
                         checkout)
  {
    if session.None? {
      return Rejected(401, "請先登入", None);
    }
    if body.Malformed? {
      return Rejected(500, GenericError, None);
    }
    var plan := RequestedPlan(body);
    if plan.None? {
      return Rejected(400, PlanIssue(body), None);
    }
    var userId := session.value.userId;
    var user := UserById(db.users, userId);
    if user.None? {
      return Rejected(404, "用戶不存在", None);
    }
    var sub := SubscriptionOf(db.subscriptions, userId);
    if sub.Some? && sub.value.plan != Free {
      var currentPlanLevel := PlanRank(sub.value.plan) - 1;
      var newPlanLevel := PlanRank(plan.value) - 1;
      if newPlanLevel <= currentPlanLevel {
        return Rejected(400, DowngradeError, None);
      }
    }
    var paymentResult := CreateSubscriptionPayment(cfg, plan.value, PlanPrice(plan.value), tradeDate,
                                                   now, suffix, checkout);
    if paymentResult.PaymentFailed? {
      return Rejected(500, "付款創建失敗", Some(paymentResult.error));
    }
    UpsertIntentKeepsInvariant(db.users, db.subscriptions, db.usage, userId, plan.value, paymentResult.tradeNo, now);
    db.SetSubscriptions(UpsertIntent(db.subscriptions, userId, plan.value, paymentResult.tradeNo, now));
    reply := Created(paymentResult.html, paymentResult.tradeNo, PlanDisplayName(plan.value),
                     PlanPrice(plan.value));
  }

  /** A user who already has a FREE row and pays for a plan keeps plan FREE: the
      upsert never writes the plan of an existing row. */
  lemma ExistingRowKeepsItsPlan(subs: seq<Subscription>, userId: string, plan: Plan,
                                tradeNo: string, now: Millis)
    requires SubscriptionOf(subs, userId).Some?
    ensures SubscriptionOf(UpsertIntent(subs, userId, plan, tradeNo, now), userId).value.plan
         == SubscriptionOf(subs, userId).value.plan
  {
    var r := UpsertIntent(subs, userId, plan, tradeNo, now);
    var i := SubscriptionIndex(subs, userId).value;
    SameUserIds(subs, r, userId);
  }

  /** A user without a subscription who opens a checkout for a plan and abandons it
      is left with an INCOMPLETE row of that plan, and asking for the same plan again
      is refused as a downgrade. */
  lemma AbandonedCheckoutBlocksRetry(subs: seq<Subscription>, userId: string, plan: Plan,
                                     tradeNo: string, now: Millis)
    requires plan != Free
    requires SubscriptionOf(subs, userId).None?
    ensures var after := SubscriptionOf(UpsertIntent(subs, userId, plan, tradeNo, now), userId);
      after.Some? && after.value.status == Incomplete && Blocked(after, plan)
  {
    var r := UpsertIntent(subs, userId, plan, tradeNo, now);
    LastIsFirstMatch(r, userId);
  }
}
