/** The persisted entities of the storefront (users, subscriptions, monthly usage
    records) and the in-memory tables that stand in for the relational store. */
module Schema {
  import opened Common

  /** Subscription tiers, in the order the pricing tables list them. */
  datatype Plan = Free | Creator | Pro | Enterprise

  datatype Status = Active | Canceled | PastDue | Incomplete

  /** The plan's enum name as stored and as sent to clients. */
  function PlanName(p: Plan): (s: string)
    ensures s in {"FREE", "CREATOR", "PRO", "ENTERPRISE"}
  {
    match p
    case Free => "FREE"
    case Creator => "CREATOR"
    case Pro => "PRO"
    case Enterprise => "ENTERPRISE"
  }

  /** Reading an enum name back; anything else is not a plan. */
  function ParsePlan(s: string): (r: Option<Plan>)
    ensures r.Some? ==> PlanName(r.value) == s
  {
    if s == "FREE" then Some(Free)
    else if s == "CREATOR" then Some(Creator)
    else if s == "PRO" then Some(Pro)
    else if s == "ENTERPRISE" then Some(Enterprise)
    else None
  }

  lemma ParsePlanName(p: Plan)
    ensures ParsePlan(PlanName(p)) == Some(p)
  {
    match p
    case Free =>
    case Creator =>
    case Pro =>
    case Enterprise =>
  }

  /** The plan's position in [FREE, CREATOR, PRO, ENTERPRISE]; the pricing page ranks
      plans by it, and the payment route by its position among the paid plans. */
  function PlanRank(p: Plan): (r: nat)
    ensures r < 4
    ensures r == 0 <==> p == Free
  {
    match p
    case Free => 0
    case Creator => 1
    case Pro => 2
    case Enterprise => 3
  }

  lemma PlanRankInjective(a: Plan, b: Plan)
    requires PlanRank(a) == PlanRank(b)
    ensures a == b
  {
  }

  /** 30 * 24 * 60 * 60 * 1000: the billing period every route adds to `Date.now()`. */
  const ThirtyDaysMs: int := 30 * 24 * 60 * 60 * 1000

  /** Instants are milliseconds since the epoch, as `Date.now()` returns them. */
  type Millis = int

  datatype User = User(id: string, name: string, email: string, password: string)

  datatype Subscription = Subscription(
    userId: string,
    plan: Plan,
    status: Status,
    periodStart: Millis,
    periodEnd: Millis,
    tradeNo: Option<string>,   // ecpayMerchantTradeNo, nullable
    updatedAt: Millis)

  /** The composite unique key of a usage record: (user, feature type, month, year). */
  datatype UsageKey = UsageKey(userId: string, kind: string, month: int, year: int)

  type UsageTable = map<UsageKey, int>

  /** `findUnique({ where: { userId } })` on the subscription table. */
  function SubscriptionOf(subs: seq<Subscription>, userId: string): (r: Option<Subscription>)
    ensures r.Some? ==> r.value in subs && r.value.userId == userId
    ensures r.None? <==> forall s :: s in subs ==> s.userId != userId
  {
    if subs == [] then None
    else if subs[0].userId == userId then Some(subs[0])
    else SubscriptionOf(subs[1..], userId)
  }

  /** The position of the first subscription of `userId`, if any. */
  function SubscriptionIndex(subs: seq<Subscription>, userId: string): (r: Option<nat>)
    ensures r.Some? ==> r.value < |subs| && subs[r.value].userId == userId
    ensures r.Some? ==> forall j :: 0 <= j < r.value ==> subs[j].userId != userId
    ensures r.None? <==> forall s :: s in subs ==> s.userId != userId
    ensures r.Some? ==> SubscriptionOf(subs, userId) == Some(subs[r.value])
    ensures r.None? ==> SubscriptionOf(subs, userId).None?
  {
    if subs == [] then None
    else if subs[0].userId == userId then Some(0)
    else
      var r := SubscriptionIndex(subs[1..], userId);
      if r.Some? then Some(r.value + 1) else None
  }

  function UserById(users: seq<User>, id: string): (r: Option<User>)
    ensures r.Some? ==> r.value in users && r.value.id == id
    ensures r.None? <==> forall u :: u in users ==> u.id != id
  {
    if users == [] then None
    else if users[0].id == id then Some(users[0])
    else UserById(users[1..], id)
  }

  function UserByEmail(users: seq<User>, email: string): (r: Option<User>)
    ensures r.Some? ==> r.value in users && r.value.email == email
    ensures r.None? <==> forall u :: u in users ==> u.email != email
  {
    if users == [] then None
    else if users[0].email == email then Some(users[0])
    else UserByEmail(users[1..], email)
  }

  /** The unique constraints and the foreign key of the schema. */
  ghost predicate TablesInvariant(users: seq<User>, subs: seq<Subscription>, usage: UsageTable)
  {
    && (forall i, j :: 0 <= i < j < |users| ==> users[i].id != users[j].id)
    && (forall i, j :: 0 <= i < j < |users| ==> users[i].email != users[j].email)
    && (forall i, j :: 0 <= i < j < |subs| ==> subs[i].userId != subs[j].userId)
    && (forall s :: s in subs ==> UserById(users, s.userId).Some?)
    && (forall k :: k in usage ==> 1 <= k.month <= 12)
  }

  /** The relational store: three tables the route handlers update in place. */
  class Tables {
    var users: seq<User>
    var subscriptions: seq<Subscription>
    var usage: UsageTable

    ghost predicate Valid()
      reads this
    {
      TablesInvariant(users, subscriptions, usage)
    }

    /** Replaces the subscription table by one that keeps the constraints. */
    method SetSubscriptions(next: seq<Subscription>)
      requires TablesInvariant(users, next, usage)
      modifies this`subscriptions
      ensures Valid() && subscriptions == next
    {
      subscriptions := next;
    }

    constructor ()
      ensures Valid()
      ensures users == [] && subscriptions == [] && usage == map[]
    {
      users := [];
      subscriptions := [];
      usage := map[];
    }
  }
}
