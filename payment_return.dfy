/** The page the gateway sends the buyer's browser back to
    (app/api/payment/return/route.ts): both handlers redirect to the subscription page
    with the outcome in the query string. `POST` reads the posted form, `GET` the
    request's own query. */
module PaymentReturn {
  import opened Common
  import opened UriEncoding
  import opened ECPay
  import opened FormFields

  const SuccessPrefix := "/subscription?payment=success&tradeNo="
  const FailurePrefix := "/subscription?payment=failed&message="
  const DefaultMessage := "付款失敗"

  /** Where `POST` sends the browser when the body cannot be read as form data. */
  const ErrorTarget := "/subscription?payment=error"

  /** The target of a redirect: the trade number is interpolated as it is, the
      message is escaped with `encodeURIComponent`. */
  function Target(rtnCode: Option<string>, tradeNo: string, rtnMsg: Option<string>): (t: string)
    ensures rtnCode == Some("1") ==> t == SuccessPrefix + tradeNo
    ensures rtnCode != Some("1") ==> t == FailurePrefix + EncodeURIComponent(OrDefault(rtnMsg, DefaultMessage))
  {
    if rtnCode == Some("1") then SuccessPrefix + tradeNo
    else FailurePrefix + EncodeURIComponent(OrDefault(rtnMsg, DefaultMessage))
  }

  /** The redirect `POST` answers with: the fields are copied into an object (a repeated
      name keeps its last value) and a missing trade number prints as "undefined". */
  function PostTarget(form: Option<seq<Entry>>): (t: string)
  {
    if form.None? then ErrorTarget
    else
      var params := FormValues(form.value);
      Target(Lookup(params, "RtnCode"), TemplateOrUndefined(Lookup(params, "MerchantTradeNo")),
             Lookup(params, "RtnMsg"))
  }

  method Post(form: Option<seq<Entry>>) returns (target: string)
    ensures target == PostTarget(form)
  {
    if form.None? {
      return ErrorTarget;
    }
    var params := ReadForm(form.value);
    var rtnCode := params.Get("RtnCode");
    var tradeNo := params.Get("MerchantTradeNo");
    target := Target(rtnCode, TemplateOrUndefined(tradeNo), params.Get("RtnMsg"));
  }

  /** The redirect `GET` answers with: `URLSearchParams.get` takes a name's first value
      and a missing trade number prints as "null". */
  function GetTarget(query: seq<Entry>): (t: string)
  {
    Target(FirstValue(query, "RtnCode"), TemplateOrNull(FirstValue(query, "MerchantTradeNo")),
           FirstValue(query, "RtnMsg"))
  }

  /** The buyer lands on the success page exactly when the gateway's `RtnCode` is "1";
      every other code, and a missing one, lands on the failure page. */
  lemma SuccessIffRtnCodeOne(form: seq<Entry>)
    ensures StartsWith(PostTarget(Some(form)), SuccessPrefix)
        <==> Lookup(FormValues(form), "RtnCode") == Some("1")
    ensures StartsWith(PostTarget(Some(form)), FailurePrefix)
        <==> Lookup(FormValues(form), "RtnCode") != Some("1")
  {
    var params := FormValues(form);
    TargetPrefixes(Lookup(params, "RtnCode"), TemplateOrUndefined(Lookup(params, "MerchantTradeNo")),
                   Lookup(params, "RtnMsg"));
  }

  /** Which of the two pages a target names depends on the return code alone. */
  lemma TargetPrefixes(rtnCode: Option<string>, tradeNo: string, rtnMsg: Option<string>)
    ensures StartsWith(Target(rtnCode, tradeNo, rtnMsg), SuccessPrefix) <==> rtnCode == Some("1")
    ensures StartsWith(Target(rtnCode, tradeNo, rtnMsg), FailurePrefix) <==> rtnCode != Some("1")
  {
    assert SuccessPrefix[22] == 's' && FailurePrefix[22] == 'f';
    if rtnCode == Some("1") {
      PrefixOf(SuccessPrefix, tradeNo);
      DivergentPrefix(SuccessPrefix, FailurePrefix, tradeNo, 22);
    } else {
      var rest := EncodeURIComponent(OrDefault(rtnMsg, DefaultMessage));
      PrefixOf(FailurePrefix, rest);
      DivergentPrefix(FailurePrefix, SuccessPrefix, rest, 22);
    }
  }

  /** A string that starts with `p` does not start with a `q` that differs from `p` at `i`. */
  lemma DivergentPrefix(p: string, q: string, rest: string, i: nat)
    requires i < |p| && i < |q| && p[i] != q[i]
    ensures !StartsWith(p + rest, q)
  {
    var s := p + rest;
    assert s[i] == p[i];
    if |q| <= |s| {
      assert s[..|q|][i] == s[i];
    }
  }

  lemma PrefixOf(p: string, rest: string)
    ensures StartsWith(p + rest, p)
    ensures forall i :: 0 <= i < |p| ==> (p + rest)[i] == p[i]
  {
    assert (p + rest)[..|p|] == p;
  }

  /** The failure message is the rest of the URL and holds no `&`, `#` or `+`, so the
      subscription page reads it back whole: percent-decoding it gives exactly the UTF-8
      octets of the message (the gateway's `RtnMsg`, or 付款失敗 when it is missing or
      empty). */
  lemma FailureMessageReadsBack(rtnCode: Option<string>, tradeNo: string, rtnMsg: Option<string>)
    requires rtnCode != Some("1")
    ensures var v := Target(rtnCode, tradeNo, rtnMsg)[|FailurePrefix|..];
      && '&' !in v && '#' !in v && '+' !in v
      && PercentDecode(v) == Some(Utf8String(OrDefault(rtnMsg, DefaultMessage)))
  {
    var m := OrDefault(rtnMsg, DefaultMessage);
    var v := EncodeURIComponent(m);
    assert (FailurePrefix + v)[|FailurePrefix|..] == v;
    EncodeURIComponentAlphabet(m);
    NoSeparators(v);
    DecodeEncodeURIComponent(m);
  }

  lemma NoSeparators(v: string)
    requires forall i :: 0 <= i < |v| ==> ComponentChar(v[i])
    ensures '&' !in v && '#' !in v && '+' !in v
  {
    forall i | 0 <= i < |v| ensures v[i] != '&' && v[i] != '#' && v[i] != '+' {
      assert ComponentChar(v[i]);
    }
  }

  /** A trade number the store generates is letters and digits only, so interpolating
      it unescaped still yields a query whose `tradeNo` is that very number. */
  lemma GeneratedTradeNoNeedsNoEscaping(timestamp: nat, suffix: nat)
    requires suffix < 1000
    ensures forall i :: 0 <= i < |GenerateTradeNo(timestamp, suffix)| ==>
      UriUnescaped(GenerateTradeNo(timestamp, suffix)[i])
    ensures '&' !in GenerateTradeNo(timestamp, suffix) && '#' !in GenerateTradeNo(timestamp, suffix)
  {
    var t := GenerateTradeNo(timestamp, suffix);
    forall i | 0 <= i < |t| ensures UriUnescaped(t[i]) {
      if i >= 3 {
        assert t[3..][i - 3] == t[i];
      }
    }
  }

  /** When no name repeats and the trade number is present, `GET` and `POST` redirect
      to the same place. */
  lemma GetAgreesWithPostOnUniqueNames(entries: seq<Entry>)
    requires UniqueNames(entries)
    requires FirstValue(entries, "MerchantTradeNo").Some?
    ensures GetTarget(entries) == PostTarget(Some(entries))
  {
    FirstIsLastWhenUnique(entries, "RtnCode");
    FirstIsLastWhenUnique(entries, "MerchantTradeNo");
    FirstIsLastWhenUnique(entries, "RtnMsg");
  }

  /** Otherwise they can differ: without a trade number `POST` prints "undefined" where
      `GET` prints "null". */
  lemma MissingTradeNoPrintsDifferently()
    ensures PostTarget(Some([("RtnCode", "1")])) == SuccessPrefix + "undefined"
    ensures GetTarget([("RtnCode", "1")]) == SuccessPrefix + "null"
  {
    var one := [("RtnCode", "1")];
    assert one[..0] == [];
    assert FormValues(one) == map["RtnCode" := "1"];
    assert Lookup(FormValues(one), "MerchantTradeNo").None?;
    assert FirstValue(one, "RtnCode") == Some("1");
    assert FirstValue(one, "MerchantTradeNo").None?;
  }

  /** With a repeated `RtnCode` the two reach opposite verdicts. */
  lemma RepeatedRtnCodeDisagrees()
    ensures var entries := [("RtnCode", "1"), ("RtnCode", "0")];
      StartsWith(GetTarget(entries), SuccessPrefix) && StartsWith(PostTarget(Some(entries)), FailurePrefix)
  {
    var entries := [("RtnCode", "1"), ("RtnCode", "0")];
    RepeatedNameDisagrees();
    SuccessIffRtnCodeOne(entries);
    var t := GetTarget(entries);
    assert t == SuccessPrefix + TemplateOrNull(FirstValue(entries, "MerchantTradeNo"));
    PrefixOf(SuccessPrefix, TemplateOrNull(FirstValue(entries, "MerchantTradeNo")));
  }
}
