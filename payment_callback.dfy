/** The gateway's server-to-server notification (app/api/payment/callback/route.ts):
    the form fields are copied into an object, the signature is checked, and the
    subscription carrying the trade number is activated (on success) or marked
    INCOMPLETE (otherwise). The gateway is answered `1|OK` or `0|ERROR`. */
module PaymentCallback {
  import opened Common
  import opened Schema
  import opened ECPay
  import opened FormFields

  datatype CallbackReply = CallbackReply(status: int, body: string)

  const Acknowledged := CallbackReply(200, "1|OK")
  const Failed := CallbackReply(500, "0|ERROR")

  /** The filter `{ ecpayMerchantTradeNo: tradeNo }`. A trade number that is
      `undefined` is dropped from the filter, which then matches every row. */
  predicate Matches(s: Subscription, tradeNo: Option<string>)
  {
    tradeNo.None? || s.tradeNo == tradeNo
  }

  /** `findFirst`: the position of the first matching row. */
  function FirstMatch(subs: seq<Subscription>, tradeNo: Option<string>): (r: Option<nat>)
    ensures r.Some? ==> r.value < |subs| && Matches(subs[r.value], tradeNo)
    ensures r.Some? ==> forall j :: 0 <= j < r.value ==> !Matches(subs[j], tradeNo)
    ensures r.None? <==> forall j :: 0 <= j < |subs| ==> !Matches(subs[j], tradeNo)
  {
    if subs == [] then None
    else if Matches(subs[0], tradeNo) then Some(0)
    else
      var r := FirstMatch(subs[1..], tradeNo);
      assert forall j :: 1 <= j < |subs| ==> subs[1..][j - 1] == subs[j];
      if r.Some? then Some(r.value + 1) else None
  }

  /** A verified, successful payment: the first row with the trade number becomes
      ACTIVE for the 30 days from now; without such a row nothing changes. */
  function Activate(subs: seq<Subscription>, tradeNo: Option<string>, now: Millis): (r: seq<Subscription>)
    ensures |r| == |subs|
    ensures FirstMatch(subs, tradeNo).None? ==> r == subs
    ensures FirstMatch(subs, tradeNo).Some? ==>
      var i := FirstMatch(subs, tradeNo).value;
      && r[i] == subs[i].(status := Active, periodStart := now, periodEnd := now + ThirtyDaysMs, updatedAt := now)
      && forall j :: 0 <= j < |subs| && j != i ==> r[j] == subs[j]
  {
    var i := FirstMatch(subs, tradeNo);
    if i.None? then subs
    else subs[i.value := subs[i.value].(status := Active, periodStart := now,
                                        periodEnd := now + ThirtyDaysMs, updatedAt := now)]
  }

  /** A verified but unsuccessful payment: every row with the trade number becomes
      INCOMPLETE. */
  function MarkIncomplete(subs: seq<Subscription>, tradeNo: Option<string>, now: Millis): (r: seq<Subscription>)
    ensures |r| == |subs|
    ensures forall j :: 0 <= j < |subs| && Matches(subs[j], tradeNo) ==>
      r[j] == subs[j].(status := Incomplete, updatedAt := now)
    ensures forall j :: 0 <= j < |subs| && !Matches(subs[j], tradeNo) ==> r[j] == subs[j]
  {
    if subs == [] then []
    else
      var head := if Matches(subs[0], tradeNo) then subs[0].(status := Incomplete, updatedAt := now) else subs[0];
      var r := [head] + MarkIncomplete(subs[1..], tradeNo, now);
      assert forall j :: 1 <= j < |subs| ==> subs[1..][j - 1] == subs[j] && r[j] == MarkIncomplete(subs[1..], tradeNo, now)[j - 1];
      r
  }

  /** What one notification does: the reply, and the subscription table after it.
      `form` is `None` when the body cannot be read as form data. */
  function CallbackEffect(subs: seq<Subscription>, form: Option<seq<Entry>>, cfg: Config,
                          sha256: string -> seq<Byte>, now: Millis): (e: (CallbackReply, seq<Subscription>))
    ensures e.0 == Failed ==> e.1 == subs
    ensures e.0 == Failed || e.0 == Acknowledged
    ensures |e.1| == |subs|
    ensures forall j :: 0 <= j < |subs| ==> e.1[j].plan == subs[j].plan && e.1[j].userId == subs[j].userId
    ensures e.0 == Acknowledged <==>
      form.Some? && Verdict(FormKeys(form.value), FormValues(form.value), cfg, sha256)
  {
    if form.None? then (Failed, subs)
    else
      var result := PaymentResultOf(FormKeys(form.value), FormValues(form.value), cfg, sha256);
      if result.Err? then (Failed, subs)
      else if result.value.success then
        ActivateKeepsOwners(subs, result.value.tradeNo, now);
        (Acknowledged, Activate(subs, result.value.tradeNo, now))
      else
        MarkIncompleteKeepsOwners(subs, result.value.tradeNo, now);
        (Acknowledged, MarkIncomplete(subs, result.value.tradeNo, now))
  }

  predicate SameOwnersAndPlans(before: seq<Subscription>, after: seq<Subscription>)
  {
    |after| == |before| &&
    forall j :: 0 <= j < |before| ==> after[j].plan == before[j].plan && after[j].userId == before[j].userId
  }

  lemma ActivateKeepsOwners(subs: seq<Subscription>, tradeNo: Option<string>, now: Millis)
    ensures SameOwnersAndPlans(subs, Activate(subs, tradeNo, now))
  {
  }

  lemma MarkIncompleteKeepsOwners(subs: seq<Subscription>, tradeNo: Option<string>, now: Millis)
    ensures SameOwnersAndPlans(subs, MarkIncomplete(subs, tradeNo, now))
  {
    var r := MarkIncomplete(subs, tradeNo, now);
    forall j | 0 <= j < |subs| ensures r[j].plan == subs[j].plan && r[j].userId == subs[j].userId {
      if Matches(subs[j], tradeNo) {
        assert r[j] == subs[j].(status := Incomplete, updatedAt := now);
      }
    }
  }

  /** `POST`: copies the form into an object, checks the callback and applies its
      transition. */
  method Post(db: Tables, form: Option<seq<Entry>>, cfg: Config, sha256: string -> seq<Byte>, now: Millis)
    returns (reply: CallbackReply)
    requires db.Valid()
    modifies db`subscriptions
    ensures db.Valid()
    ensures (reply, db.subscriptions) == CallbackEffect(old(db.subscriptions), form, cfg, sha256, now)
  {
    if form.None? {
      return Failed;
    }
    var subs := db.subscriptions;
    var result := Interpret(form.value, cfg, sha256);
    if result.Err? {
      return Failed;
    }
    var next := if result.value.success then Activate(subs, result.value.tradeNo, now)
                else MarkIncomplete(subs, result.value.tradeNo, now);
    assert next == CallbackEffect(subs, form, cfg, sha256, now).1;
    EffectKeepsInvariant(db.users, subs, db.usage, form, cfg, sha256, now);
    db.SetSubscriptions(next);
    reply := Acknowledged;
  }

  /** Lines 9-18: the posted fields copied into a fresh object, then checked and read. */
  method Interpret(form: seq<Entry>, cfg: Config, sha256: string -> seq<Byte>)
    returns (result: Result<PaymentOutcome, string>)
    ensures result == PaymentResultOf(FormKeys(form), FormValues(form), cfg, sha256)
  {
    var params := ReadForm(form);
    result := HandlePaymentResult(params, cfg, sha256);
  }

  lemma EffectKeepsInvariant(users: seq<User>, subs: seq<Subscription>, usage: UsageTable,
                             form: Option<seq<Entry>>, cfg: Config, sha256: string -> seq<Byte>, now: Millis)
    requires TablesInvariant(users, subs, usage)
    ensures TablesInvariant(users, CallbackEffect(subs, form, cfg, sha256, now).1, usage)
  {
    KeepsInvariant(users, subs, CallbackEffect(subs, form, cfg, sha256, now).1, usage);
  }

  /** `GET` hands the request to `POST`. */
  method Get(db: Tables, form: Option<seq<Entry>>, cfg: Config, sha256: string -> seq<Byte>, now: Millis)
    returns (reply: CallbackReply)
    requires db.Valid()
    modifies db`subscriptions
    ensures db.Valid()
    ensures (reply, db.subscriptions) == CallbackEffect(old(db.subscriptions), form, cfg, sha256, now)
  {
    reply := Post(db, form, cfg, sha256, now);
  }

  /** Rewriting rows without touching their owners keeps the schema's constraints. */
  lemma KeepsInvariant(users: seq<User>, before: seq<Subscription>, after: seq<Subscription>, usage: UsageTable)
    requires TablesInvariant(users, before, usage)
    requires |after| == |before|
    requires forall j :: 0 <= j < |before| ==> after[j].userId == before[j].userId
    ensures TablesInvariant(users, after, usage)
  {
    forall s | s in after ensures UserById(users, s.userId).Some? {
      var j :| 0 <= j < |after| && after[j] == s;
      assert before[j] in before;
    }
  }

  /** The success path changes at most one row; the failure path changes every row
      with the trade number and no other. */
  lemma {:induction false} SuccessTouchesOneRow(subs: seq<Subscription>, tradeNo: Option<string>, now: Millis,
                                                i: nat, j: nat)
    requires i < |subs| && j < |subs| && i != j
    requires Activate(subs, tradeNo, now)[i] != subs[i]
    ensures Activate(subs, tradeNo, now)[j] == subs[j]
    ensures i == FirstMatch(subs, tradeNo).value
  {
  }

  /** On failure, every other row holding the same trade number is marked too. */
  lemma FailureTouchesAllMatches(subs: seq<Subscription>, t: string, now: Millis, i: nat, j: nat)
    requires i < |subs| && j < |subs| && subs[i].tradeNo == Some(t) && subs[j].tradeNo == Some(t)
    ensures MarkIncomplete(subs, Some(t), now)[i].status == Incomplete
    ensures MarkIncomplete(subs, Some(t), now)[j].status == Incomplete
    ensures forall k :: 0 <= k < |subs| && subs[k].tradeNo != Some(t) ==> MarkIncomplete(subs, Some(t), now)[k] == subs[k]
  {
  }

  /** An authentic notification that lacks `MerchantTradeNo` activates whichever row
      the table lists first, and a failed one marks every row INCOMPLETE. */
  lemma MissingTradeNoMatchesEveryRow(subs: seq<Subscription>, now: Millis)
    requires |subs| > 0
    ensures Activate(subs, None, now)[0].status == Active
    ensures forall j :: 0 <= j < |subs| ==> MarkIncomplete(subs, None, now)[j].status == Incomplete
  {
  }

  /** A body that is not form data, or a forged signature, is answered `0|ERROR` and
      changes nothing. */
  lemma UnverifiedChangesNothing(subs: seq<Subscription>, form: Option<seq<Entry>>, cfg: Config,
                                 sha256: string -> seq<Byte>, now: Millis)
    requires form.None? || !Verdict(FormKeys(form.value), FormValues(form.value), cfg, sha256)
    ensures CallbackEffect(subs, form, cfg, sha256, now) == (Failed, subs)
  {
  }

  /** A successful payment whose trade number no row carries is still acknowledged
      and changes nothing. */
  lemma UnknownTradeNoAcknowledged(subs: seq<Subscription>, entries: seq<Entry>, cfg: Config,
                                   sha256: string -> seq<Byte>, now: Millis)
    requires Verdict(FormKeys(entries), FormValues(entries), cfg, sha256)
    requires Lookup(FormValues(entries), "RtnCode") == Some("1")
    requires Lookup(FormValues(entries), "MerchantTradeNo").Some?
    requires forall s :: s in subs ==> s.tradeNo != Lookup(FormValues(entries), "MerchantTradeNo")
    ensures CallbackEffect(subs, Some(entries), cfg, sha256, now) == (Acknowledged, subs)
  {
    var values := FormValues(entries);
    var t := Lookup(values, "MerchantTradeNo");
    VerifiedEffect(subs, entries, cfg, sha256, now);
    assert Field(values, "RtnCode") == Some("1") && Field(values, "MerchantTradeNo") == t;
    forall j | 0 <= j < |subs| ensures !Matches(subs[j], t) {
      assert subs[j] in subs;
    }
  }

  /** A notification whose signature holds is acknowledged, and applies the transition
      its `RtnCode` selects to the rows its trade number matches. */
  lemma VerifiedEffect(subs: seq<Subscription>, entries: seq<Entry>, cfg: Config,
                       sha256: string -> seq<Byte>, now: Millis)
    requires Verdict(FormKeys(entries), FormValues(entries), cfg, sha256)
    ensures var values := FormValues(entries);
      var t := Field(values, "MerchantTradeNo");
      CallbackEffect(subs, Some(entries), cfg, sha256, now)
        == (Acknowledged, if Field(values, "RtnCode") == Some("1") then Activate(subs, t, now)
                          else MarkIncomplete(subs, t, now))
  {
  }
}
