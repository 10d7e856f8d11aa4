/** Quota accounting: the monthly usage counter, the plan-limit table, the
    admission check and the yearly statistics (lib/usage-tracker.ts). */
module UsageTracker {
  import opened Common
  import opened Schema

  /** What `new Date()` yields through `getMonth()` (zero-based) and `getFullYear()`. */
  datatype Now = Now(monthIndex: int, fullYear: int)

  /** `getMonth()` always lies in 0..11. */
  predicate ValidNow(now: Now)
  {
    0 <= now.monthIndex < 12
  }

  /** The record key for "this month": the month component is `getMonth() + 1`. */
  function CurrentKey(userId: string, kind: string, now: Now): (k: UsageKey)
    requires ValidNow(now)
    ensures 1 <= k.month <= 12
    ensures k.userId == userId && k.kind == kind && k.year == now.fullYear
  {
    UsageKey(userId, kind, now.monthIndex + 1, now.fullYear)
  }

  /** `record?.count || 0`: the stored count, 0 when there is no record. */
  function Count(t: UsageTable, k: UsageKey): int
  {
    if k in t then t[k] else 0
  }

  /** The upsert-with-increment: create the record with `count`, or add `count`. */
  function Upsert(t: UsageTable, k: UsageKey, count: int): (t': UsageTable)
    ensures t'.Keys == t.Keys + {k}
    ensures Count(t', k) == Count(t, k) + count
    ensures k !in t ==> t'[k] == count
    ensures forall k' :: k' != k ==> Count(t', k') == Count(t, k')
  {
    t[k := Count(t, k) + count]
  }

  /** `trackUsage`: one upsert on the current key; a storage failure is reported as
      `false` and leaves the table as it was. */
  method TrackUsage(db: Tables, userId: string, kind: string, count: int, now: Now, storageFails: bool)
    returns (ok: bool)
    requires db.Valid() && ValidNow(now)
    modifies db`usage
    ensures db.Valid()
    ensures ok == !storageFails
    ensures db.usage == if ok then Upsert(old(db.usage), CurrentKey(userId, kind, now), count) else old(db.usage)
  {
    if storageFails {
      return false;
    }
    db.usage := Upsert(db.usage, CurrentKey(userId, kind, now), count);
    ok := true;
  }

  /** `getCurrentUsage`: the count for the current key, 0 when absent, and 0 as well
      when the store fails. */
  function GetCurrentUsage(t: UsageTable, userId: string, kind: string, now: Now, storageFails: bool): (n: int)
    requires ValidNow(now)
    ensures storageFails ==> n == 0
    ensures !storageFails ==> n == Count(t, UsageKey(userId, kind, now.monthIndex + 1, now.fullYear))
  {
    if storageFails then 0 else Count(t, CurrentKey(userId, kind, now))
  }

  /** The plan-limit table `{ FREE: 3, CREATOR: 50, PRO: 250, ENTERPRISE: 2000 }`. Every
      stored plan is one of the four enum values, so the `|| 0` fallback never fires. */
  function PlanLimit(p: Plan): (n: nat)
  {
    match p
    case Free => 3
    case Creator => 50
    case Pro => 250
    case Enterprise => 2000
  }

  /** A higher tier always grants strictly more monthly uses. */
  lemma PlanLimitTable()
    ensures PlanLimit(Free) == 3 && PlanLimit(Creator) == 50
    ensures PlanLimit(Pro) == 250 && PlanLimit(Enterprise) == 2000
    ensures PlanLimit(Free) < PlanLimit(Creator) < PlanLimit(Pro) < PlanLimit(Enterprise)
  {
  }

  datatype LimitCheck = LimitCheck(canUse: bool, currentUsage: int, limit: int, plan: string)

  /** `checkUsageLimit`. `lookupFails` is a failure of the subscription lookup (caught,
      giving plan "ERROR"); `usageFails` is a failure inside `getCurrentUsage`, which that
      function swallows itself. */
  function CheckUsageLimit(subs: seq<Subscription>, usage: UsageTable, userId: string, kind: string,
                           now: Now, lookupFails: bool, usageFails: bool): (r: LimitCheck)
    requires ValidNow(now)
    ensures lookupFails ==> r == LimitCheck(false, 0, 0, "ERROR")
    ensures !lookupFails && SubscriptionOf(subs, userId).None? ==> r == LimitCheck(false, 0, 0, "NONE")
    ensures !lookupFails && SubscriptionOf(subs, userId).Some? ==>
      var s := SubscriptionOf(subs, userId).value;
      && r.limit == PlanLimit(s.plan)
      && r.plan == PlanName(s.plan)
      && r.currentUsage == GetCurrentUsage(usage, userId, kind, now, usageFails)
    ensures r.canUse <==>
      && !lookupFails
      && SubscriptionOf(subs, userId).Some?
      && SubscriptionOf(subs, userId).value.status == Active
      && r.currentUsage < r.limit
  {
    if lookupFails then LimitCheck(false, 0, 0, "ERROR")
    else match SubscriptionOf(subs, userId)
      case None => LimitCheck(false, 0, 0, "NONE")
      case Some(s) =>
        var limit := PlanLimit(s.plan);
        var current := GetCurrentUsage(usage, userId, kind, now, usageFails);
        LimitCheck(current < limit && s.status == Active, current, limit, PlanName(s.plan))
  }

  /** One row of `findMany` on the usage table, reduced to the fields the statistics use. */
  datatype MonthRecord = MonthRecord(month: int, count: int)

  function RecordsFrom(usage: UsageTable, userId: string, kind: string, year: int, m: int): (rs: seq<MonthRecord>)
    requires 1 <= m <= 13
    ensures forall i :: 0 <= i < |rs| ==> m <= rs[i].month <= 12
    decreases 13 - m
  {
    if m == 13 then []
    else HeadRecord(usage, userId, kind, year, m) + RecordsFrom(usage, userId, kind, year, m + 1)
  }

  /** The record of month `m`, if the table has one. */
  function HeadRecord(usage: UsageTable, userId: string, kind: string, year: int, m: int): (rs: seq<MonthRecord>)
    ensures |rs| <= 1 && forall i :: 0 <= i < |rs| ==> rs[i].month == m
  {
    var k := UsageKey(userId, kind, m, year);
    if k in usage then [MonthRecord(m, usage[k])] else []
  }

  /** `findMany({ where: { userId, type, year }, orderBy: { month: 'asc' } })`: every month
      of a stored key lies in 1..12, so these are all of the year's records. */
  function YearRecords(usage: UsageTable, userId: string, kind: string, year: int): (rs: seq<MonthRecord>)
    requires forall k :: k in usage ==> 1 <= k.month <= 12
    ensures forall i :: 0 <= i < |rs| ==> 1 <= rs[i].month <= 12
  {
    RecordsFrom(usage, userId, kind, year, 1)
  }

  /** `records.find(r => r.month === month)?.count || 0`. */
  function FindCount(rs: seq<MonthRecord>, month: int): int
  {
    if rs == [] then 0
    else if rs[0].month == month then rs[0].count
    else FindCount(rs[1..], month)
  }

  datatype MonthEntry = MonthEntry(month: int, count: int, limit: int)

  /** `Array.from({ length: 12 }, ...)`: one entry per calendar month. */
  function MonthlyData(rs: seq<MonthRecord>, limit: int): (md: seq<MonthEntry>)
    ensures |md| == 12
    ensures forall i :: 0 <= i < 12 ==> md[i].month == i + 1 && md[i].limit == limit
  {
    seq(12, i requires 0 <= i < 12 => MonthEntry(i + 1, FindCount(rs, i + 1), limit))
  }

  /** `records.reduce((sum, r) => sum + r.count, 0)`. */
  function TotalUsage(rs: seq<MonthRecord>): int
  {
    if rs == [] then 0 else rs[0].count + TotalUsage(rs[1..])
  }

  function SumEntries(md: seq<MonthEntry>): int
  {
    if md == [] then 0 else md[0].count + SumEntries(md[1..])
  }

  datatype UsageStats = UsageStats(
    monthlyData: seq<MonthEntry>,
    totalUsage: int,
    currentMonthUsage: int,
    limit: int,
    plan: string,
    canUse: bool)

  /** `getUserUsageStats`; `None` is the `null` returned when a query fails. */
  function GetUserUsageStats(subs: seq<Subscription>, usage: UsageTable, userId: string, kind: string,
                             now: Now, queryFails: bool, usageFails: bool): (r: Option<UsageStats>)
    requires ValidNow(now)
    requires forall k :: k in usage ==> 1 <= k.month <= 12
    ensures r.None? <==> queryFails
    ensures r.Some? ==>
      var sub := SubscriptionOf(subs, userId);
      && r.value.limit == (if sub.Some? then PlanLimit(sub.value.plan) else 0)
      && r.value.plan == (if sub.Some? then PlanName(sub.value.plan) else "FREE")
      && r.value.currentMonthUsage == GetCurrentUsage(usage, userId, kind, now, usageFails)
      && (r.value.canUse <==>
            r.value.currentMonthUsage < r.value.limit
            && sub.Some? && (sub.value.status == Active || sub.value.plan == Free))
    ensures r.Some? ==>
      var records := YearRecords(usage, userId, kind, now.fullYear);
      r.value.monthlyData == MonthlyData(records, r.value.limit) && r.value.totalUsage == TotalUsage(records)
  {
    if queryFails then None
    else
      var records := YearRecords(usage, userId, kind, now.fullYear);
      var sub := SubscriptionOf(subs, userId);
      var limit := if sub.Some? then PlanLimit(sub.value.plan) else 0;
      var current := GetCurrentUsage(usage, userId, kind, now, usageFails);
      Some(UsageStats(
        MonthlyData(records, limit),
        TotalUsage(records),
        current,
        limit,
        if sub.Some? then PlanName(sub.value.plan) else "FREE",
        current < limit && sub.Some? && (sub.value.status == Active || sub.value.plan == Free)))
  }

  // ---------------------------------------------------------------------------
  // Properties

  /** Applying a run of `trackUsage` calls to one key. */
  function ApplyTracks(t: UsageTable, k: UsageKey, counts: seq<int>): UsageTable
    decreases counts
  {
    if counts == [] then t else ApplyTracks(Upsert(t, k, counts[0]), k, counts[1..])
  }

  function Sum(xs: seq<int>): int
  {
    if xs == [] then 0 else xs[0] + Sum(xs[1..])
  }

  /** The stored count for a key is the sum of the increments applied to it, and no
      other key moves. */
  lemma {:induction false} CountIsSumOfIncrements(t: UsageTable, k: UsageKey, counts: seq<int>)
    ensures Count(ApplyTracks(t, k, counts), k) == Count(t, k) + Sum(counts)
    ensures forall k' :: k' != k ==> Count(ApplyTracks(t, k, counts), k') == Count(t, k')
    decreases counts
  {
    if counts != [] {
      CountIsSumOfIncrements(Upsert(t, k, counts[0]), k, counts[1..]);
    }
  }

  /** The count of a month, seen through the records of its year. */
  lemma {:induction false} FindCountInRecords(usage: UsageTable, userId: string, kind: string, year: int, m0: int, m: int)
    requires 1 <= m0 <= 13 && m0 <= m <= 12
    ensures FindCount(RecordsFrom(usage, userId, kind, year, m0), m) == Count(usage, UsageKey(userId, kind, m, year))
    decreases 13 - m0
  {
    if m == m0 {
      FindCountHere(usage, userId, kind, year, m0);
    } else {
      FindCountInRecords(usage, userId, kind, year, m0 + 1, m);
      FindCountSkips(HeadRecord(usage, userId, kind, year, m0), RecordsFrom(usage, userId, kind, year, m0 + 1), m);
    }
  }

  lemma FindCountHere(usage: UsageTable, userId: string, kind: string, year: int, m: int)
    requires 1 <= m <= 12
    ensures FindCount(RecordsFrom(usage, userId, kind, year, m), m) == Count(usage, UsageKey(userId, kind, m, year))
  {
    var head := HeadRecord(usage, userId, kind, year, m);
    var rest := RecordsFrom(usage, userId, kind, year, m + 1);
    if head == [] {
      assert head + rest == rest;
      FindCountAbsent(rest, m);
    } else {
      assert (head + rest)[0] == head[0];
    }
  }

  /** Records of other months in front do not change what `find` returns. */
  lemma FindCountSkips(head: seq<MonthRecord>, rest: seq<MonthRecord>, m: int)
    requires |head| <= 1 && forall i :: 0 <= i < |head| ==> head[i].month != m
    ensures FindCount(head + rest, m) == FindCount(rest, m)
  {
    if head != [] {
      assert (head + rest)[1..] == rest;
    } else {
      assert head + rest == rest;
    }
  }

  lemma {:induction false} FindCountAbsent(rs: seq<MonthRecord>, m: int)
    requires forall i :: 0 <= i < |rs| ==> rs[i].month != m
    ensures FindCount(rs, m) == 0
  {
    if rs != [] {
      assert rs[0].month != m;
      FindCountAbsent(rs[1..], m);
    }
  }

  function SumMonths(usage: UsageTable, userId: string, kind: string, year: int, m: int): int
    requires 1 <= m <= 13
    decreases 13 - m
  {
    if m == 13 then 0 else Count(usage, UsageKey(userId, kind, m, year)) + SumMonths(usage, userId, kind, year, m + 1)
  }

  lemma {:induction false} TotalOfRecordsFrom(usage: UsageTable, userId: string, kind: string, year: int, m: int)
    requires 1 <= m <= 13
    ensures TotalUsage(RecordsFrom(usage, userId, kind, year, m)) == SumMonths(usage, userId, kind, year, m)
    decreases 13 - m
  {
    if m < 13 {
      TotalOfRecordsFrom(usage, userId, kind, year, m + 1);
      var k := UsageKey(userId, kind, m, year);
      var rs := RecordsFrom(usage, userId, kind, year, m);
      if k in usage {
        assert rs[1..] == RecordsFrom(usage, userId, kind, year, m + 1);
      } else {
        assert rs == RecordsFrom(usage, userId, kind, year, m + 1);
      }
    }
  }

  lemma {:induction false} SumOfMonthlySuffix(usage: UsageTable, userId: string, kind: string, year: int,
                                              md: seq<MonthEntry>, i: int)
    requires 0 <= i <= 12 && |md| == 12
    requires forall j :: 0 <= j < 12 ==> md[j].count == Count(usage, UsageKey(userId, kind, j + 1, year))
    ensures SumEntries(md[i..]) == SumMonths(usage, userId, kind, year, i + 1)
    decreases 12 - i
  {
    if i < 12 {
      SumOfMonthlySuffix(usage, userId, kind, year, md, i + 1);
      assert md[i..][1..] == md[i + 1..];
    } else {
      assert md[i..] == [];
    }
  }

  /** Each month's entry holds that month's stored count, 0 when there is no record. */
  lemma MonthlyDataCounts(usage: UsageTable, userId: string, kind: string, year: int, limit: int)
    requires forall k :: k in usage ==> 1 <= k.month <= 12
    ensures var md := MonthlyData(YearRecords(usage, userId, kind, year), limit);
      forall i :: 0 <= i < 12 ==> md[i].count == Count(usage, UsageKey(userId, kind, i + 1, year))
  {
    forall i | 0 <= i < 12
      ensures MonthlyData(YearRecords(usage, userId, kind, year), limit)[i].count
           == Count(usage, UsageKey(userId, kind, i + 1, year))
    {
      MonthCount(usage, userId, kind, year, limit, i);
    }
  }

  lemma MonthCount(usage: UsageTable, userId: string, kind: string, year: int, limit: int, i: int)
    requires forall k :: k in usage ==> 1 <= k.month <= 12
    requires 0 <= i < 12
    ensures MonthlyData(YearRecords(usage, userId, kind, year), limit)[i].count
         == Count(usage, UsageKey(userId, kind, i + 1, year))
  {
    MonthlyDataAt(YearRecords(usage, userId, kind, year), limit, i);
    FindCountInRecords(usage, userId, kind, year, 1, i + 1);
  }

  lemma MonthlyDataAt(rs: seq<MonthRecord>, limit: int, i: int)
    requires 0 <= i < 12
    ensures MonthlyData(rs, limit)[i].count == FindCount(rs, i + 1)
  {
  }

  /** The yearly total equals the sum of the twelve monthly entries. */
  lemma MonthlyDataMatchesTotal(usage: UsageTable, userId: string, kind: string, year: int, limit: int)
    requires forall k :: k in usage ==> 1 <= k.month <= 12
    ensures SumEntries(MonthlyData(YearRecords(usage, userId, kind, year), limit))
         == TotalUsage(YearRecords(usage, userId, kind, year))
  {
    MonthlyDataCounts(usage, userId, kind, year, limit);
    SumOfMonths(usage, userId, kind, year, MonthlyData(YearRecords(usage, userId, kind, year), limit));
    TotalOfRecordsFrom(usage, userId, kind, year, 1);
  }

  lemma SumOfMonths(usage: UsageTable, userId: string, kind: string, year: int, md: seq<MonthEntry>)
    requires |md| == 12
    requires forall j :: 0 <= j < 12 ==> md[j].count == Count(usage, UsageKey(userId, kind, j + 1, year))
    ensures SumEntries(md) == SumMonths(usage, userId, kind, year, 1)
  {
    SumOfMonthlySuffix(usage, userId, kind, year, md, 0);
    assert md[0..] == md;
  }

  /** The two admission rules disagree exactly for a FREE subscription that is not
      ACTIVE and still under its limit: only the statistics admit it. */
  lemma AdmissionRulesDiffer(subs: seq<Subscription>, usage: UsageTable, userId: string, kind: string,
                             now: Now, usageFails: bool)
    requires ValidNow(now)
    requires forall k :: k in usage ==> 1 <= k.month <= 12
    ensures var check := CheckUsageLimit(subs, usage, userId, kind, now, false, usageFails);
      var stats := GetUserUsageStats(subs, usage, userId, kind, now, false, usageFails).value;
      var sub := SubscriptionOf(subs, userId);
      && (check.canUse ==> stats.canUse)
      && (stats.canUse != check.canUse <==>
            sub.Some? && sub.value.plan == Free && sub.value.status != Active
            && GetCurrentUsage(usage, userId, kind, now, usageFails) < 3)
  {
  }

  /** Whenever the current count has reached the limit, or there is no subscription,
      the statistics refuse. */
  lemma StatsRefuseAtLimit(subs: seq<Subscription>, usage: UsageTable, userId: string, kind: string,
                           now: Now, usageFails: bool)
    requires ValidNow(now)
    requires forall k :: k in usage ==> 1 <= k.month <= 12
    ensures var stats := GetUserUsageStats(subs, usage, userId, kind, now, false, usageFails).value;
      (stats.currentMonthUsage >= stats.limit || SubscriptionOf(subs, userId).None?) ==> !stats.canUse
  {
  }

  /** Sequential use of the gate keeps the counter within the plan's limit: a single
      admitted call followed by a one-unit `trackUsage` never passes the limit. */
  lemma GateThenTrackStaysWithinLimit(subs: seq<Subscription>, usage: UsageTable, userId: string, kind: string, now: Now)
    requires ValidNow(now)
    requires CheckUsageLimit(subs, usage, userId, kind, now, false, false).canUse
    ensures var k := CurrentKey(userId, kind, now);
      Count(Upsert(usage, k, 1), k) <= PlanLimit(SubscriptionOf(subs, userId).value.plan)
  {
  }

  /** A failing usage store reads as zero uses, so a FREE user who has already used
      the whole quota is admitted again. */
  lemma StorageFailureReadsAsAvailable(userId: string, kind: string, now: Now)
    requires ValidNow(now)
    ensures var k := CurrentKey(userId, kind, now);
      var subs := [Subscription(userId, Free, Active, 0, ThirtyDaysMs, None, 0)];
      var usage := map[k := 3];
      && !CheckUsageLimit(subs, usage, userId, kind, now, false, false).canUse
      && CheckUsageLimit(subs, usage, userId, kind, now, false, true).canUse
  {
    var subs := [Subscription(userId, Free, Active, 0, ThirtyDaysMs, None, 0)];
    assert SubscriptionOf(subs, userId) == Some(subs[0]);
  }

  /** A new FREE user is admitted three times and refused the fourth time with
      currentUsage = 3 and limit = 3. */
  lemma FreeQuotaScenario(userId: string, kind: string, now: Now)
    requires ValidNow(now)
    ensures var k := CurrentKey(userId, kind, now);
      var subs := [Subscription(userId, Free, Active, 0, ThirtyDaysMs, None, 0)];
      && CheckUsageLimit(subs, map[], userId, kind, now, false, false).canUse
      && CheckUsageLimit(subs, ApplyTracks(map[], k, [1]), userId, kind, now, false, false).canUse
      && CheckUsageLimit(subs, ApplyTracks(map[], k, [1, 1]), userId, kind, now, false, false).canUse
      && CheckUsageLimit(subs, ApplyTracks(map[], k, [1, 1, 1]), userId, kind, now, false, false)
         == LimitCheck(false, 3, 3, "FREE")
  {
    var k := CurrentKey(userId, kind, now);
    var subs := [Subscription(userId, Free, Active, 0, ThirtyDaysMs, None, 0)];
    assert SubscriptionOf(subs, userId) == Some(subs[0]);
    CountIsSumOfIncrements(map[], k, [1]);
    CountIsSumOfIncrements(map[], k, [1, 1]);
    CountIsSumOfIncrements(map[], k, [1, 1, 1]);
  }
}
