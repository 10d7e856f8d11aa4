/** The ECPay gateway integration (lib/ecpay.ts): trade numbers, the paid plan table,
    creation of a checkout, and the check of the `CheckMacValue` signature that every
    gateway callback carries. SHA-256, the SDK's checkout-form generator and the clock
    are parameters. */
module ECPay {
  import opened Common
  import opened Schema
  import opened UriEncoding
  import opened KeySort
  import UsageTracker

  // ---------------------------------------------------------------------------
  // Configuration (lib/ecpay.ts:69-78)

  datatype Config = Config(
    merchantId: string,
    hashKey: string,
    hashIv: string,
    mode: string,
    returnUrl: string,
    orderResultUrl: string,
    clientBackUrl: string)

  function Env(env: map<string, string>, name: string): Option<string>
  {
    if name in env then Some(env[name]) else None
  }

  /** Reads the merchant settings from the environment; a missing variable reads as
      the empty string, and the site URL defaults to the local development server. */
  function LoadConfig(env: map<string, string>): (c: Config)
    ensures c.mode == "1" <==> Env(env, "NODE_ENV") == Some("production")
    ensures c.mode == "0" || c.mode == "1"
    ensures Env(env, "ECPAY_HASH_KEY").None? ==> c.hashKey == ""
    ensures Env(env, "ECPAY_HASH_IV").None? ==> c.hashIv == ""
    ensures Env(env, "NEXTAUTH_URL").None? ==> c.clientBackUrl == "http://localhost:3000"
  {
    Config(
      OrDefault(Env(env, "ECPAY_MERCHANT_ID"), ""),
      OrDefault(Env(env, "ECPAY_HASH_KEY"), ""),
      OrDefault(Env(env, "ECPAY_HASH_IV"), ""),
      if Env(env, "NODE_ENV") == Some("production") then "1" else "0",
      OrDefault(Env(env, "ECPAY_RETURN_URL"), ""),
      OrDefault(Env(env, "ECPAY_ORDER_RESULT_URL"), ""),
      OrDefault(Env(env, "NEXTAUTH_URL"), "http://localhost:3000"))
  }

  // ---------------------------------------------------------------------------
  // Trade numbers (lib/ecpay.ts:99-103)

  /** The gateway's limit on the length of a merchant trade number. */
  const MaxTradeNoLength := 20

  /** `CSP` + the timestamp in milliseconds + the random suffix padded to three
      digits, cut to 20 characters. `suffix` is `Math.floor(Math.random() * 1000)`. */
  function GenerateTradeNo(timestamp: nat, suffix: nat): (r: string)
    requires suffix < 1000
    ensures |r| <= MaxTradeNoLength
    ensures StartsWith(r, "CSP")
    ensures AllDigits(r[3..])
  {
    var d, p := DecimalString(timestamp), PadStart3(DecimalString(suffix));
    var full := "CSP" + (d + p);
    DigitsConcat(d, p);
    assert full[..3] == "CSP" && full[3..] == d + p;
    if |full| <= MaxTradeNoLength then full
    else
      assert full[..MaxTradeNoLength][..3] == "CSP";
      assert full[..MaxTradeNoLength][3..] == (d + p)[..MaxTradeNoLength - 3];
      full[..MaxTradeNoLength]
  }

  lemma DigitsConcat(a: string, b: string)
    requires AllDigits(a) && AllDigits(b)
    ensures AllDigits(a + b)
  {
    forall i | 0 <= i < |a + b| ensures IsAsciiDigit((a + b)[i]) {
      if i < |a| { assert (a + b)[i] == a[i]; } else { assert (a + b)[i] == b[i - |a|]; }
    }
  }

  lemma SuffixDigits(suffix: nat)
    requires suffix < 1000
    ensures |PadStart3(DecimalString(suffix))| == 3
    ensures DecimalValue(PadStart3(DecimalString(suffix))) == suffix
  {
    DecimalLengthBound(suffix, 3);
    PadStart3Value(DecimalString(suffix));
    DecimalRoundTrip(suffix);
  }

  /** For any timestamp below 10^14 (until the year 5138) nothing is cut off: the trade
      number reads back as its timestamp followed by the three-digit suffix. */
  lemma {:induction false} TradeNoReadsBack(timestamp: nat, suffix: nat)
    requires suffix < 1000 && timestamp < Pow10(14)
    ensures var r := GenerateTradeNo(timestamp, suffix);
      && |r| == 6 + |DecimalString(timestamp)|
      && DecimalValue(r[3..|r| - 3]) == timestamp
      && DecimalValue(r[|r| - 3..]) == suffix
  {
    var d, p := DecimalString(timestamp), PadStart3(DecimalString(suffix));
    SuffixDigits(suffix);
    DecimalLengthBound(timestamp, 14);
    DecimalRoundTrip(timestamp);
    var r := GenerateTradeNo(timestamp, suffix);
    assert r == "CSP" + d + p;
    assert r[3..|r| - 3] == d;
    assert r[|r| - 3..] == p;
  }

  /** With a 13-digit millisecond timestamp (September 2001 to November 2286) every
      trade number has exactly 19 characters. */
  lemma TradeNoLengthThisEra(timestamp: nat, suffix: nat)
    requires suffix < 1000 && Pow10(12) <= timestamp < Pow10(13)
    ensures |GenerateTradeNo(timestamp, suffix)| == 19
  {
    DecimalLength(timestamp, 13);
    TradeNoReadsBack(timestamp, suffix);
  }

  /** Two calls in different milliseconds, or with different suffixes, give different
      trade numbers (while no truncation happens). */
  lemma TradeNoInjective(t1: nat, s1: nat, t2: nat, s2: nat)
    requires s1 < 1000 && s2 < 1000 && t1 < Pow10(14) && t2 < Pow10(14)
    requires GenerateTradeNo(t1, s1) == GenerateTradeNo(t2, s2)
    ensures t1 == t2 && s1 == s2
  {
    TradeNoReadsBack(t1, s1);
    TradeNoReadsBack(t2, s2);
  }

  // ---------------------------------------------------------------------------
  // The paid plans (lib/ecpay.ts:205-224)

  /** Monthly price in New Taiwan dollars. */
  function PlanPrice(p: Plan): (price: nat)
    requires p != Free
    ensures price > 0
  {
    match p
    case Creator => 890
    case Pro => 2090
    case Enterprise => 9090
  }

  /** The plan's display name. */
  function PlanDisplayName(p: Plan): (name: string)
    requires p != Free
    ensures name in {"創作者版", "專業版", "企業版"}
  {
    match p
    case Creator => "創作者版"
    case Pro => "專業版"
    case Enterprise => "企業版"
  }

  /** Monthly number of swaps. */
  function PlanQuota(p: Plan): (quota: nat)
    requires p != Free
    ensures quota == UsageTracker.PlanLimit(p)
  {
    match p
    case Creator => 50
    case Pro => 250
    case Enterprise => 2000
  }

  /** A higher plan costs more, grants more, and is cheaper per swap. */
  lemma HigherPlanIsBetterValue(a: Plan, b: Plan)
    requires a != Free && b != Free && PlanRank(a) < PlanRank(b)
    ensures PlanPrice(a) < PlanPrice(b)
    ensures PlanQuota(a) < PlanQuota(b)
    ensures PlanPrice(b) * PlanQuota(a) < PlanPrice(a) * PlanQuota(b)
  {
  }

  // ---------------------------------------------------------------------------
  // Creating a checkout (lib/ecpay.ts:106-150)

  datatype PaymentData = PaymentData(
    merchantTradeNo: string,
    merchantTradeDate: string,
    paymentType: string,
    totalAmount: int,
    tradeDesc: string,
    itemName: string,
    returnUrl: string,
    orderResultUrl: string,
    clientBackUrl: string,
    choosePayment: string,
    encryptType: int)

  datatype PaymentResult =
    | PaymentCreated(html: string, tradeNo: string, data: PaymentData)
    | PaymentFailed(error: string)

  /** `createSubscriptionPayment`. `tradeDate` is the formatted local date,
      `timestamp`/`suffix` feed the trade number, and `checkout` is the SDK's form
      generator: it yields the HTML form, or fails with an error message (`None` when
      what it throws is not an `Error`). */
  function CreateSubscriptionPayment(cfg: Config, plan: Plan, amount: int, tradeDate: string,
                                     timestamp: nat, suffix: nat,
                                     checkout: PaymentData -> Result<string, Option<string>>): (r: PaymentResult)
    requires plan != Free && suffix < 1000
    ensures r.PaymentCreated? ==>
      && r.tradeNo == r.data.merchantTradeNo == GenerateTradeNo(timestamp, suffix)
      && r.data.totalAmount == amount
      && r.data.clientBackUrl == cfg.clientBackUrl + "/subscription?payment=success"
      && r.data.returnUrl == cfg.returnUrl
      && checkout(r.data) == Ok(r.html)
    ensures r.PaymentCreated? <==> checkout(PaymentDataFor(cfg, plan, amount, tradeDate, timestamp, suffix)).Ok?
    ensures var c := checkout(PaymentDataFor(cfg, plan, amount, tradeDate, timestamp, suffix));
      c.Err? && c.error.Some? ==> r == PaymentFailed(c.error.value)
    ensures checkout(PaymentDataFor(cfg, plan, amount, tradeDate, timestamp, suffix)) == Err(None)
            ==> r == PaymentFailed("Unknown error")
  {
    var data := PaymentDataFor(cfg, plan, amount, tradeDate, timestamp, suffix);
    match checkout(data)
    case Ok(html) => PaymentCreated(html, data.merchantTradeNo, data)
    case Err(msg) => PaymentFailed(if msg.Some? then msg.value else "Unknown error")
  }

  function PaymentDataFor(cfg: Config, plan: Plan, amount: int, tradeDate: string,
                          timestamp: nat, suffix: nat): PaymentData
    requires suffix < 1000
  {
    PaymentData(
      GenerateTradeNo(timestamp, suffix),
      tradeDate,
      "aio",
      amount,
      "ContentSwap Pro " + PlanName(plan) + " 訂閱",
      "ContentSwap Pro " + PlanName(plan) + " 月費方案",
      cfg.returnUrl,
      cfg.orderResultUrl,
      cfg.clientBackUrl + "/subscription?payment=success",
      "ALL",
      1)
  }

  // ---------------------------------------------------------------------------
  // The callback's parameter object

  /** The keys without `k`, in their order. */
  function Without(keys: seq<string>, k: string): (r: seq<string>)
    ensures forall x :: x in r <==> x in keys && x != k
  {
    if keys == [] then []
    else if keys[0] == k then Without(keys[1..], k)
    else [keys[0]] + Without(keys[1..], k)
  }

  lemma {:induction false} WithoutDistinct(keys: seq<string>, k: string)
    requires Distinct(keys)
    ensures Distinct(Without(keys, k))
  {
    if keys != [] {
      assert keys[0] !in keys[1..];
      WithoutDistinct(keys[1..], k);
    }
  }

  lemma {:induction false} WithoutMultiset(keys: seq<string>, k: string)
    ensures multiset(Without(keys, k)) == multiset(keys)[k := 0]
  {
    if keys != [] {
      assert keys == [keys[0]] + keys[1..];
      WithoutMultiset(keys[1..], k);
    }
  }

  /** The name whose assignment on a plain object goes to the inherited `__proto__`
      setter; a string value is ignored there and no field is created. */
  const ProtoKey := "__proto__"

  /** A key JavaScript treats as an array index: the canonical decimal form of an
      integer below 2^32 - 1. */
  predicate IsArrayIndex(k: string)
  {
    |k| > 0 && AllDigits(k) && (k[0] != '0' || |k| == 1) && DecimalValue(k) < 0xFFFF_FFFF
  }

  /** The order an object enumerates its own keys in: the array-index keys first, in
      ascending numeric order, and every other key after them. */
  predicate IndexKeysFirst(keys: seq<string>)
  {
    forall i, j :: 0 <= i < j < |keys| && IsArrayIndex(keys[j]) ==>
      IsArrayIndex(keys[i]) && DecimalValue(keys[i]) <= DecimalValue(keys[j])
  }

  /** The place of a new array-index key: after every index key not above it. */
  function IndexSlot(keys: seq<string>, key: string): (p: nat)
    requires IsArrayIndex(key)
    ensures p <= |keys|
    ensures forall i :: 0 <= i < p ==> IsArrayIndex(keys[i]) && DecimalValue(keys[i]) <= DecimalValue(key)
    ensures p < |keys| ==> !IsArrayIndex(keys[p]) || DecimalValue(keys[p]) > DecimalValue(key)
  {
    if keys == [] then 0
    else if IsArrayIndex(keys[0]) && DecimalValue(keys[0]) <= DecimalValue(key) then
      var p := IndexSlot(keys[1..], key);
      assert forall i :: 1 <= i < p + 1 ==> keys[i] == keys[1..][i - 1];
      p + 1
    else 0
  }

  /** Where a key the object did not have is enumerated: an array index in its numeric
      place among the index keys, any other key last. */
  function AddKey(keys: seq<string>, key: string): (r: seq<string>)
    ensures |r| == |keys| + 1
    ensures forall x :: x in r <==> x in keys || x == key
    ensures multiset(r) == multiset(keys) + multiset{key}
    ensures !IsArrayIndex(key) ==> r == keys + [key]
  {
    if IsArrayIndex(key) then
      var p := IndexSlot(keys, key);
      assert keys == keys[..p] + keys[p..];
      keys[..p] + [key] + keys[p..]
    else keys + [key]
  }

  /** Adding a key keeps the enumeration order. */
  lemma AddKeyKeepsOrder(keys: seq<string>, key: string)
    requires IndexKeysFirst(keys)
    ensures IndexKeysFirst(AddKey(keys, key))
  {
    var r := AddKey(keys, key);
    if IsArrayIndex(key) {
      var p := IndexSlot(keys, key);
      assert r == keys[..p] + [key] + keys[p..];
      forall i, j | 0 <= i < j < |r| && IsArrayIndex(r[j])
        ensures IsArrayIndex(r[i]) && DecimalValue(r[i]) <= DecimalValue(r[j])
      {
        if j < p {
          assert r[i] == keys[i] && r[j] == keys[j];
        } else if j == p {
          assert r[i] == keys[i];
        } else if i < p {
          assert r[i] == keys[i] && r[j] == keys[j - 1];
        } else if i == p {
          assert r[j] == keys[j - 1];
          assert IsArrayIndex(keys[p]) && DecimalValue(keys[p]) <= DecimalValue(keys[j - 1]);
        } else {
          assert r[i] == keys[i - 1] && r[j] == keys[j - 1];
        }
      }
    }
  }

  /** Removing a key keeps the enumeration order. */
  lemma {:induction false} WithoutKeepsOrder(keys: seq<string>, k: string)
    requires IndexKeysFirst(keys)
    ensures IndexKeysFirst(Without(keys, k))
  {
    if keys != [] {
      var rest := keys[1..];
      assert IndexKeysFirst(rest) by {
        forall i, j | 0 <= i < j < |rest| && IsArrayIndex(rest[j])
          ensures IsArrayIndex(rest[i]) && DecimalValue(rest[i]) <= DecimalValue(rest[j])
        {
          assert rest[i] == keys[i + 1] && rest[j] == keys[j + 1];
        }
      }
      WithoutKeepsOrder(rest, k);
      if keys[0] != k {
        var w := Without(rest, k);
        var r := [keys[0]] + w;
        forall j | 0 < j < |r| && IsArrayIndex(r[j])
          ensures IsArrayIndex(r[0]) && DecimalValue(r[0]) <= DecimalValue(r[j])
        {
          assert r[j] == w[j - 1] && w[j - 1] in rest;
          var m :| 0 <= m < |rest| && rest[m] == w[j - 1];
          assert keys[m + 1] == r[j];
        }
        forall i, j | 0 < i < j < |r| && IsArrayIndex(r[j])
          ensures IsArrayIndex(r[i]) && DecimalValue(r[i]) <= DecimalValue(r[j])
        {
          assert r[i] == w[i - 1] && r[j] == w[j - 1];
        }
      }
    }
  }

  /** A plain JavaScript object of string fields: its keys in enumeration order, and
      their values. */
  class ParamsObject {
    var keys: seq<string>
    var values: map<string, string>

    ghost predicate Valid()
      reads this
    {
      && Distinct(keys)
      && IndexKeysFirst(keys)
      && ProtoKey !in keys
      && forall k :: k in values <==> k in keys
    }

    constructor ()
      ensures Valid() && keys == [] && values == map[]
    {
      keys := [];
      values := map[];
    }

    function Get(key: string): (r: Option<string>)
      reads this
      ensures r.Some? <==> key in values
      ensures r.Some? ==> r.value == values[key]
    {
      if key in values then Some(values[key]) else None
    }

    /** `params[key] = value`: an existing key keeps its place and takes the new value;
        a new key takes its place in the enumeration order; `__proto__` changes nothing. */
    method Put(key: string, value: string)
      requires Valid()
      modifies this
      ensures Valid()
      ensures values == if key == ProtoKey then old(values) else old(values)[key := value]
      ensures keys == if key == ProtoKey || key in old(values) then old(keys) else AddKey(old(keys), key)
    {
      if key == ProtoKey {
        return;
      }
      if key !in values {
        AddKeyKeepsOrder(keys, key);
        keys := AddKey(keys, key);
      }
      values := values[key := value];
    }

    /** `delete params[key]`. */
    method Delete(key: string)
      requires Valid()
      modifies this
      ensures Valid()
      ensures values == old(values) - {key}
      ensures keys == Without(old(keys), key)
    {
      WithoutDistinct(keys, key);
      WithoutKeepsOrder(keys, key);
      keys := Without(keys, key);
      values := values - {key};
    }
  }

  function Field(values: map<string, string>, k: string): Option<string>
  {
    if k in values then Some(values[k]) else None
  }

  // ---------------------------------------------------------------------------
  // The signature check (lib/ecpay.ts:153-181)

  const MacField := "CheckMacValue"

  /** The fields that are signed, in the order they are signed in: every key except
      `CheckMacValue`, in UTF-16 code-unit order. */
  function SignedKeys(keys: seq<string>): (ks: seq<string>)
    ensures SortedKeys(ks)
    ensures forall k :: k in ks <==> k in keys && k != MacField
  {
    var w := Without(keys, MacField);
    var ks := SortKeys(w);
    assert forall k :: k in ks <==> k in w by {
      forall k ensures k in ks <==> k in w {
        assert k in ks <==> k in multiset(ks);
        assert k in w <==> k in multiset(w);
      }
    }
    ks
  }

  /** `k=v` for each key, in the given order. */
  function Pairs(keys: seq<string>, values: map<string, string>): (parts: seq<string>)
    requires forall k :: k in keys ==> k in values
    ensures |parts| == |keys|
    ensures forall i :: 0 <= i < |keys| ==> parts[i] == keys[i] + "=" + values[keys[i]]
  {
    if keys == [] then [] else [keys[0] + "=" + values[keys[0]]] + Pairs(keys[1..], values)
  }

  predicate Complete(keys: seq<string>, values: map<string, string>)
  {
    forall k :: k in keys ==> k in values
  }

  /** `HashKey=<key>&<k1=v1&k2=v2…>&HashIV=<iv>`. */
  function HashString(keys: seq<string>, values: map<string, string>, cfg: Config): (s: string)
    requires Complete(keys, values)
    ensures StartsWith(s, "HashKey=" + cfg.hashKey + "&")
  {
    Wrap(cfg, Join(Pairs(SignedKeys(keys), values), "&"))
  }

  function Wrap(cfg: Config, fields: string): (s: string)
    ensures StartsWith(s, "HashKey=" + cfg.hashKey + "&")
  {
    var pre := "HashKey=" + cfg.hashKey + "&";
    assert (pre + fields + "&HashIV=" + cfg.hashIv)[..|pre|] == pre;
    pre + fields + "&HashIV=" + cfg.hashIv
  }

  /** `digest('hex')`: two lowercase hexadecimal digits per byte. */
  function HexDigest(bs: seq<Byte>): (s: string)
    ensures |s| == 2 * |bs|
    ensures forall i :: 0 <= i < |s| ==> IsHexLower(s[i])
  {
    if bs == [] then ""
    else
      var rest := HexDigest(bs[1..]);
      var s := [HexLower(bs[0] / 16), HexLower(bs[0] % 16)] + rest;
      assert forall i :: 2 <= i < |s| ==> s[i] == rest[i - 2];
      s
  }

  /** The signature the merchant expects for a callback. */
  function ExpectedMac(keys: seq<string>, values: map<string, string>, cfg: Config,
                       sha256: string -> seq<Byte>): string
    requires Complete(keys, values)
  {
    UpperAscii(HexDigest(sha256(GatewayEncode(HashString(keys, values, cfg)))))
  }

  /** The callback is authentic: it carries a `CheckMacValue` equal to the expected
      signature. */
  predicate Verdict(keys: seq<string>, values: map<string, string>, cfg: Config,
                    sha256: string -> seq<Byte>)
    requires Complete(keys, values)
  {
    MacField in values && ExpectedMac(keys, values, cfg, sha256) == values[MacField]
  }

  lemma {:induction false} PairsAgree(keys: seq<string>, v1: map<string, string>, v2: map<string, string>)
    requires Complete(keys, v1) && Complete(keys, v2)
    requires forall k :: k in keys ==> v1[k] == v2[k]
    ensures Pairs(keys, v1) == Pairs(keys, v2)
  {
  }

  /** `verifyCallback`: removes `CheckMacValue` from the caller's object and leaves
      every other entry as it was, and answers whether the signature was authentic. */
  method VerifyCallback(params: ParamsObject, cfg: Config, sha256: string -> seq<Byte>) returns (ok: bool)
    requires params.Valid()
    modifies params
    ensures params.Valid()
    ensures params.values == old(params.values) - {MacField}
    ensures params.keys == Without(old(params.keys), MacField)
    ensures ok == Verdict(old(params.keys), old(params.values), cfg, sha256)
  {
    ghost var keys0, values0 := params.keys, params.values;
    var checkMacValue := params.Get(MacField);
    params.Delete(MacField);
    assert SortKeys(params.keys) == SignedKeys(keys0);
    var sortedParams := Join(Pairs(SortKeys(params.keys), params.values), "&");
    var hashString := "HashKey=" + cfg.hashKey + "&" + sortedParams + "&HashIV=" + cfg.hashIv;
    var encodedString := GatewayEncode(hashString);
    var hash := UpperAscii(HexDigest(sha256(encodedString)));
    ok := checkMacValue.Some? && hash == checkMacValue.value;
    assert SortKeys(params.keys) == SignedKeys(keys0);
    PairsAgree(SignedKeys(keys0), params.values, values0);
  }

  /** The signature is compared exactly, so a callback can only pass with a
      `CheckMacValue` written in uppercase hexadecimal: 64 digits, as a SHA-256 digest
      has 32 octets. */
  lemma AuthenticMacIsUpperHex(keys: seq<string>, values: map<string, string>, cfg: Config,
                               sha256: string -> seq<Byte>)
    requires forall s :: |sha256(s)| == 32
    requires Complete(keys, values) && Verdict(keys, values, cfg, sha256)
    ensures var mac := values[MacField];
      |mac| == 64 && forall i :: 0 <= i < |mac| ==> IsAsciiDigit(mac[i]) || 'A' <= mac[i] <= 'F'
  {
  }

  /** The fields' arrival order does not matter: the signature depends only on which
      fields arrived. */
  lemma VerdictOrderIndependent(k1: seq<string>, k2: seq<string>, values: map<string, string>,
                                cfg: Config, sha256: string -> seq<Byte>)
    requires Complete(k1, values) && Complete(k2, values)
    requires multiset(k1) == multiset(k2)
    ensures Verdict(k1, values, cfg, sha256) == Verdict(k2, values, cfg, sha256)
  {
    WithoutMultiset(k1, MacField);
    WithoutMultiset(k2, MacField);
    SortKeysPermutationInvariant(Without(k1, MacField), Without(k2, MacField));
  }

  lemma {:induction false} JoinLower(parts: seq<string>, sep: string)
    ensures LowerAscii(Join(parts, sep)) == Join(seq(|parts|, i requires 0 <= i < |parts| => LowerAscii(parts[i])), LowerAscii(sep))
  {
    if |parts| > 1 {
      JoinLower(parts[1..], sep);
      LowerAsciiConcat(parts[0] + sep, Join(parts[1..], sep));
      LowerAsciiConcat(parts[0], sep);
      var l := seq(|parts|, i requires 0 <= i < |parts| => LowerAscii(parts[i]));
      assert l[1..] == seq(|parts| - 1, i requires 0 <= i < |parts| - 1 => LowerAscii(parts[1..][i]));
    }
  }

  lemma {:induction false} PairsLower(keys: seq<string>, v1: map<string, string>, v2: map<string, string>)
    requires Complete(keys, v1) && Complete(keys, v2)
    requires forall k :: k in keys ==> LowerAscii(v1[k]) == LowerAscii(v2[k])
    ensures forall i :: 0 <= i < |keys| ==> LowerAscii(Pairs(keys, v1)[i]) == LowerAscii(Pairs(keys, v2)[i])
  {
    forall i | 0 <= i < |keys|
      ensures LowerAscii(Pairs(keys, v1)[i]) == LowerAscii(Pairs(keys, v2)[i])
    {
      var k := keys[i];
      LowerAsciiConcat(k + "=", v1[k]);
      LowerAsciiConcat(k + "=", v2[k]);
    }
  }

  /** The signed field string differs only in letter case when the values do. */
  lemma FieldStringCaseBlind(ks: seq<string>, v1: map<string, string>, v2: map<string, string>)
    requires Complete(ks, v1) && Complete(ks, v2)
    requires forall k :: k in ks ==> LowerAscii(v1[k]) == LowerAscii(v2[k])
    ensures LowerAscii(Join(Pairs(ks, v1), "&")) == LowerAscii(Join(Pairs(ks, v2), "&"))
  {
    var p1, p2 := Pairs(ks, v1), Pairs(ks, v2);
    PairsLower(ks, v1, v2);
    JoinLower(p1, "&");
    JoinLower(p2, "&");
    var l1 := seq(|p1|, i requires 0 <= i < |p1| => LowerAscii(p1[i]));
    var l2 := seq(|p2|, i requires 0 <= i < |p2| => LowerAscii(p2[i]));
    assert |l1| == |l2|;
    forall i | 0 <= i < |l1| ensures l1[i] == l2[i] {
      assert l1[i] == LowerAscii(p1[i]);
    }
    assert l1 == l2;
  }

  lemma WrapCaseBlind(cfg: Config, a: string, b: string)
    requires LowerAscii(a) == LowerAscii(b)
    ensures LowerAscii(Wrap(cfg, a)) == LowerAscii(Wrap(cfg, b))
  {
    var pre := "HashKey=" + cfg.hashKey + "&";
    var post := "&HashIV=" + cfg.hashIv;
    assert Wrap(cfg, a) == (pre + a) + post;
    assert Wrap(cfg, b) == (pre + b) + post;
    LowerAsciiConcat(pre + a, post);
    LowerAsciiConcat(pre, a);
    LowerAsciiConcat(pre + b, post);
    LowerAsciiConcat(pre, b);
  }

  lemma HashStringCaseBlind(keys: seq<string>, v1: map<string, string>, v2: map<string, string>, cfg: Config)
    requires Complete(keys, v1) && Complete(keys, v2)
    requires forall k :: k in keys && k != MacField ==> LowerAscii(v1[k]) == LowerAscii(v2[k])
    ensures LowerAscii(HashString(keys, v1, cfg)) == LowerAscii(HashString(keys, v2, cfg))
  {
    var ks := SignedKeys(keys);
    assert forall k :: k in ks ==> LowerAscii(v1[k]) == LowerAscii(v2[k]);
    FieldStringCaseBlind(ks, v1, v2);
    WrapCaseBlind(cfg, Join(Pairs(ks, v1), "&"), Join(Pairs(ks, v2), "&"));
  }

  /** Changing the letter case of any field value leaves the expected signature as it
      was: the gateway's encoding lowercases everything before hashing. */
  lemma SignatureCaseBlind(keys: seq<string>, v1: map<string, string>, v2: map<string, string>,
                           cfg: Config, sha256: string -> seq<Byte>)
    requires Complete(keys, v1) && Complete(keys, v2)
    requires forall k :: k in keys && k != MacField ==> LowerAscii(v1[k]) == LowerAscii(v2[k])
    ensures ExpectedMac(keys, v1, cfg, sha256) == ExpectedMac(keys, v2, cfg, sha256)
  {
    HashStringCaseBlind(keys, v1, v2, cfg);
    GatewayEncodeCaseBlind(HashString(keys, v1, cfg), HashString(keys, v2, cfg));
  }

  // ---------------------------------------------------------------------------
  // Interpreting a callback (lib/ecpay.ts:184-200)

  datatype PaymentOutcome = PaymentOutcome(
    success: bool,
    tradeNo: Option<string>,
    paymentDate: Option<string>,
    paymentType: Option<string>,
    rtnMsg: Option<string>)

  /** What `handlePaymentResult` reports for a callback with these fields. */
  function PaymentResultOf(keys: seq<string>, values: map<string, string>, cfg: Config,
                           sha256: string -> seq<Byte>): (r: Result<PaymentOutcome, string>)
    requires Complete(keys, values)
    ensures r.Err? <==> !Verdict(keys, values, cfg, sha256)
    ensures r.Err? ==> r.error == "Invalid callback signature"
    ensures r.Ok? ==> (r.value.success <==> Field(values, "RtnCode") == Some("1"))
    ensures r.Ok? ==> r.value.tradeNo == Field(values, "MerchantTradeNo")
    ensures r.Ok? ==> r.value.rtnMsg == Field(values, "RtnMsg")
  {
    if !Verdict(keys, values, cfg, sha256) then Err("Invalid callback signature")
    else Ok(PaymentOutcome(
      Field(values, "RtnCode") == Some("1"),
      Field(values, "MerchantTradeNo"),
      Field(values, "PaymentDate"),
      Field(values, "PaymentType"),
      Field(values, "RtnMsg")))
  }

  /** `handlePaymentResult`: checks the signature (removing `CheckMacValue` from the
      object as it goes), then reads the outcome from the remaining fields. */
  method HandlePaymentResult(params: ParamsObject, cfg: Config, sha256: string -> seq<Byte>)
    returns (r: Result<PaymentOutcome, string>)
    requires params.Valid()
    modifies params
    ensures params.Valid()
    ensures params.values == old(params.values) - {MacField}
    ensures params.keys == Without(old(params.keys), MacField)
    ensures r == PaymentResultOf(old(params.keys), old(params.values), cfg, sha256)
  {
    var isValid := VerifyCallback(params, cfg, sha256);
    if !isValid {
      return Err("Invalid callback signature");
    }
    var rtnCode := params.Get("RtnCode");
    var tradeNo := params.Get("MerchantTradeNo");
    var paymentDate := params.Get("PaymentDate");
    var paymentType := params.Get("PaymentType");
    var rtnMsg := params.Get("RtnMsg");
    r := Ok(PaymentOutcome(rtnCode == Some("1"), tradeNo, paymentDate, paymentType, rtnMsg));
  }
}
