# Face-swap storefront: quota and billing core

This project models the quota and billing slice of a Next.js storefront. Signed-in users upload two images, the site starts an AI face swap with an external model host, and the browser polls until the swap finishes. Access is metered by a monthly quota per subscription plan. Plans are bought through the ECPay payment gateway.

The model covers these parts of the system:

- **Quota accounting** (`UsageTracker`). The usage table is keyed by user, feature, month and year, and each use is an upsert-increment. The plan-limit table is FREE 3, CREATOR 50, PRO 250 and ENTERPRISE 2000. There are two admission rules: `checkUsageLimit` and the statistics' `canUse`. The statistics also build a twelve-month series and a yearly total.
- **ECPay integration** (`ECPay`, `KeySort`, `UriEncoding`).
  - Trade numbers are `CSP`, then the millisecond timestamp, then a three-digit random suffix, cut to 20 characters.
  - A callback signature is computed by:
    1. dropping `CheckMacValue`;
    2. sorting the keys in UTF-16 code-unit order;
    3. wrapping the `k=v&…` string in `HashKey=…&…&HashIV=…`;
    4. applying ECMA-262 `encodeURIComponent` (UTF-8 per RFC 3629);
    5. lowercasing, turning `%20` into `+` and re-escaping `!'()*`;
    6. comparing the uppercase hexadecimal SHA-256 digest with the callback's `CheckMacValue`.
  - The paid plan table, checkout creation and `handlePaymentResult` are also modelled.
- **Subscription lifecycle** over in-memory user and subscription tables:
  - registration (`Register`) creates the user and a FREE/ACTIVE subscription;
  - payment creation (`PaymentCreate`) applies the no-downgrade rule and the tentative upsert;
  - the gateway's notification (`PaymentCallback`) activates the row or marks it INCOMPLETE;
  - `Lifecycle` chains the last two.
- **The browser's swap store** (`FaceSwapStore`). This is a class holding the store's fields. Its poll loop consumes a sequence of status replies, at most 60 of them.
- **Small decision functions**:
  - the route guard (`Middleware`);
  - the image picker's checks (`ImageUpload`);
  - the gateway's browser return page (`PaymentReturn`, with `FormFields` for reading forms and queries);
  - the swap route's input checks, model choice and base64 data URLs per section 4 of RFC 4648 (`SwapRoute`, `Base64`);
  - the subscription page's upgrade buttons, remaining quota and payment toast (`SubscriptionPage`).

Foreign primitives are parameters of the operations that use them:

- SHA-256 is a function `string -> seq<Byte>`.
- The checkout form generator is a function from the payment data to a page or an error.
- The model host's `createFaceSwap` is a function that may fail.
- bcrypt, zod's e-mail check, `URL.createObjectURL`, the clock, the month and year, and `Math.random` are all parameters.
- Each HTTP reply the browser store receives is an input value.

The database tables are fields of a `Tables` class, and the route handlers update them in place.

Where the code and the system's design description differ, the model follows the code:

- **An upgrade on an existing row does not change the plan.** The design says an upgrade request writes the target plan as an INCOMPLETE row. In the code, the upsert on an existing row only writes the trade number and `updatedAt`. The callback then changes only the status and period. So a FREE user who pays stays on FREE (`Lifecycle.PaidUpgradeKeepsFreeQuota`).
- **The swap route ignores the quota.** The design says the metered action is gated by the quota and increments the counter. The swap route does neither (`SwapRoute.ExhaustedQuotaStillSwaps`).
- **The return page's `GET` and `POST` can differ.** They agree only when no field name repeats and the trade number is present (`PaymentReturn.GetAgreesWithPostOnUniqueNames`, `PaymentReturn.RepeatedRtnCodeDisagrees`).

## Model

| member | source | states |
|---|---|---|
| Schema.PlanRank | app/subscription/page.tsx:311 | a plan's tier is below 4, and tier 0 is exactly FREE, so every paid plan outranks FREE |
| Schema.PlanRankInjective | app/api/payment/create/route.ts:40-41 | two plans of equal rank are the same plan |
| Schema.SubscriptionOf | lib/usage-tracker.ts:112-114 | the lookup by user finds a row of that user, and finds none exactly when no row belongs to the user |
| Schema.UserByEmail | app/api/auth/register/route.ts:48-50 | the lookup by address finds a user with that address, and finds none exactly when nobody has it |
| Schema.Tables.constructor | lib/prisma.ts:34-40 | the store starts with empty tables that satisfy the schema's constraints |
| UsageTracker.CurrentKey | lib/usage-tracker.ts:44-46 | the key's month is `getMonth()+1`, so always 1..12, with the user, feature and full year |
| UsageTracker.Upsert | lib/usage-tracker.ts:50-71 | the key's count grows by exactly `count`; a missing record is created with `count`; every other key keeps its count |
| UsageTracker.TrackUsage | lib/usage-tracker.ts:43-78 | the usage table becomes the upsert on the current key and the call returns true; on a storage failure it returns false and the table is unchanged |
| UsageTracker.GetCurrentUsage | lib/usage-tracker.ts:80-102 | the stored count for the current key, 0 without a record, and 0 on a storage failure |
| UsageTracker.PlanLimitTable | lib/usage-tracker.ts:126-131 | the limits are 3, 50, 250 and 2000, strictly increasing with the tier |
| UsageTracker.CheckUsageLimit | lib/usage-tracker.ts:104-151 | a failed lookup gives plan "ERROR" and a missing subscription gives "NONE" (both refused, 0/0); otherwise the plan's limit and name and the current usage; canUse holds iff the status is ACTIVE and usage < limit |
| UsageTracker.YearRecords | lib/usage-tracker.ts:159-168 | the year's records all lie in months 1..12 |
| UsageTracker.MonthlyData | lib/usage-tracker.ts:185-193 | exactly twelve entries for months 1..12 in order, each carrying the same limit |
| UsageTracker.GetUserUsageStats | lib/usage-tracker.ts:153-210 | null exactly on a query failure; otherwise the limit (0 without a subscription), the plan (FREE by default) and the current usage; canUse holds iff usage < limit and the status is ACTIVE or the plan is FREE; the monthly series and the total are those of the user's records of that kind in the current year |
| UsageTracker.CountIsSumOfIncrements | lib/usage-tracker.ts:50-71 | after a run of tracks on one key its count is the old count plus the sum of the increments, and no other key moves |
| UsageTracker.MonthlyDataCounts | lib/usage-tracker.ts:185-193 | each month's entry holds that month's stored count, or 0 |
| UsageTracker.MonthlyDataMatchesTotal | lib/usage-tracker.ts:195 | the yearly total equals the sum of the twelve monthly entries |
| UsageTracker.AdmissionRulesDiffer | lib/usage-tracker.ts:204 | the statistics admit whenever the gate does, and they disagree exactly for a FREE subscription that is not ACTIVE and under 3 uses |
| UsageTracker.StatsRefuseAtLimit | lib/usage-tracker.ts:182-204 | the statistics refuse when usage has reached the limit or there is no subscription |
| UsageTracker.GateThenTrackStaysWithinLimit | lib/usage-tracker.ts:137 | an admitted call followed by a one-unit track never takes the count past the plan's limit |
| UsageTracker.StorageFailureReadsAsAvailable | lib/usage-tracker.ts:98-101 | a FREE user with 3 uses is refused, but is admitted when the usage store fails |
| UsageTracker.FreeQuotaScenario | lib/usage-tracker.ts:126-141 | a new FREE user is admitted three times and the fourth check gives canUse=false, currentUsage=3, limit=3, plan FREE |
| Base64.Encode | app/api/swap/image/route.ts:59 | the encoding of n octets has 4·⌈n/3⌉ characters |
| Base64.DigitRoundTrip | app/api/swap/image/route.ts:59 | every 6-bit group's character decodes back to that group |
| Base64.DecodeEncode | app/api/swap/image/route.ts:59 | decoding the encoding gives back the octets |
| Base64.EncodeInjective | app/api/swap/image/route.ts:59 | different octet strings never share an encoding |
| Base64.EncodeAlphabet | app/api/swap/image/route.ts:59 | an encoding holds only alphabet characters and trailing `=` padding |
| KeySort.Utf16Rank | lib/ecpay.ts:160 | characters below the surrogate range keep their code as their rank |
| KeySort.RankInjective | lib/ecpay.ts:160 | different characters have different ranks |
| KeySort.RankOfSupplementary | lib/ecpay.ts:160 | a character outside the BMP sorts after U+D7FF and before U+E000..U+FFFF, as UTF-16 code units do |
| KeySort.KeyLessIrreflexive | lib/ecpay.ts:160 | no key sorts before itself |
| KeySort.KeyLessTransitive | lib/ecpay.ts:160 | the key order is transitive |
| KeySort.KeyLessTotal | lib/ecpay.ts:160 | any two different keys are ordered one way or the other |
| KeySort.KeyLessAsymmetric | lib/ecpay.ts:160 | two keys are never ordered both ways |
| KeySort.Insert | lib/ecpay.ts:160 | inserting into a sorted list keeps it sorted and adds exactly that key |
| KeySort.SortKeys | lib/ecpay.ts:159-160 | `keys.sort()` is sorted in code-unit order and is a permutation of the keys |
| KeySort.SortedUnique | lib/ecpay.ts:159-160 | two sorted arrangements of the same keys are identical |
| KeySort.SortKeysPermutationInvariant | lib/ecpay.ts:159-160 | the sorted order does not depend on the order the keys arrived in |
| UriEncoding.Utf8 | lib/ecpay.ts:165 | one to four octets per character, a single octet for ASCII and only high octets otherwise (RFC 3629) |
| UriEncoding.LowerPctUpperAll | lib/ecpay.ts:166 | lowercasing `%XX` escapes gives the lowercase-hex escapes of the same octets |
| UriEncoding.PctLowerIs20 | lib/ecpay.ts:167 | an escape is `%20` exactly when its octet is the space |
| UriEncoding.ReplaceOverEscapes | lib/ecpay.ts:167 | replacing `%20` over a run of escapes works escape by escape, and a match never straddles two escapes |
| UriEncoding.EscapeMarksLeavesEscapes | lib/ecpay.ts:168 | re-escaping `!'()*` leaves already-escaped octets alone |
| UriEncoding.GatewayEncodeIsDialect | lib/ecpay.ts:165-168 | the encode, lowercase, `%20`→`+` and re-escape pipeline equals a character-by-character encoding |
| UriEncoding.GatewayEncodeShape | lib/ecpay.ts:165-168 | the result has no uppercase letter, no space and no `%20`; each `%` starts a lowercase escape; the only other literals are lowercase letters, digits, `-._~` and `+` |
| UriEncoding.GatewayEncodeOne | lib/ecpay.ts:165-168 | each character's encoding in the pipeline is its dialect encoding |
| UriEncoding.SpaceIsPlus | lib/ecpay.ts:167 | a space is written `+` |
| UriEncoding.MarkEscaped | lib/ecpay.ts:168 | each of `!'()*` becomes `%` and its code in lowercase hex |
| UriEncoding.MarksEscaped | lib/ecpay.ts:168 | `!'()*` become `%21 %27 %28 %29 %2a` |
| UriEncoding.DialectCharCaseBlind | lib/ecpay.ts:166 | two letters differing only in case are encoded alike |
| UriEncoding.GatewayEncodeCaseBlind | lib/ecpay.ts:166 | two strings differing only in ASCII letter case encode identically |
| UriEncoding.HexValue | app/api/payment/return/route.ts:27 | a hexadecimal digit's value is below 16 |
| UriEncoding.DecodeEncodeURIComponent | app/api/payment/return/route.ts:27 | percent-decoding the output of `encodeURIComponent` gives exactly the UTF-8 octets of the input |
| UriEncoding.EncodeURIComponentAlphabet | app/api/payment/return/route.ts:27 | `encodeURIComponent` writes only unescaped characters, `%` and uppercase hex digits |
| ECPay.LoadConfig | lib/ecpay.ts:73-81 | mode "1" iff NODE_ENV is production, else "0"; missing keys read as ""; the client URL defaults to http://localhost:3000 |
| ECPay.GenerateTradeNo | lib/ecpay.ts:99-103 | at most 20 characters, starting `CSP`, digits after that |
| ECPay.SuffixDigits | lib/ecpay.ts:101 | the padded suffix is three digits whose value is the random number |
| ECPay.TradeNoReadsBack | lib/ecpay.ts:99-103 | below 10^14 ms nothing is cut, and the timestamp and suffix read back from the trade number |
| ECPay.TradeNoLengthThisEra | lib/ecpay.ts:102 | with a 13-digit timestamp the trade number has 19 characters |
| ECPay.TradeNoInjective | lib/ecpay.ts:99-103 | different timestamps or suffixes give different trade numbers |
| ECPay.PlanPrice | lib/ecpay.ts:205-223 | every paid plan has a positive monthly price |
| ECPay.PlanDisplayName | lib/ecpay.ts:205-223 | the display name is one of 創作者版, 專業版, 企業版 |
| ECPay.PlanQuota | lib/ecpay.ts:205-223 | the table's quota equals the usage gate's limit for that plan |
| ECPay.HigherPlanIsBetterValue | lib/ecpay.ts:205-223 | a higher plan costs more, grants more uses, and costs less per use |
| ECPay.CreateSubscriptionPayment | lib/ecpay.ts:106-150 | success exactly when the checkout generator accepts the payment data, with the generated trade number; a failure carries the thrown error's message when it has one and "Unknown error" otherwise |
| ECPay.Without | lib/ecpay.ts:156 | the keys without the deleted one, and nothing else |
| ECPay.WithoutDistinct | lib/ecpay.ts:156 | deleting a key keeps the key list free of repeats |
| ECPay.WithoutMultiset | lib/ecpay.ts:156 | deleting removes exactly the occurrences of that key |
| ECPay.ParamsObject.constructor | app/api/payment/callback/route.ts:9 | a new object has no keys |
| ECPay.ParamsObject.Get | lib/ecpay.ts:155 | reading a field gives its value, or nothing when absent |
| ECPay.ParamsObject.Put | app/api/payment/callback/route.ts:11-13 | assigning sets the value and an existing key keeps its place; a new array-index key (canonical decimal below 2^32-1) joins the ascending run of index keys at the front, any other new key is enumerated last; assigning `__proto__` changes nothing |
| ECPay.AddKey | app/api/payment/callback/route.ts:11-13 | a new own property adds exactly that key; a key that is not an array index goes last |
| ECPay.AddKeyKeepsOrder | app/api/payment/callback/route.ts:11-13 | adding a key keeps the object's enumeration order: array-index keys first, ascending |
| ECPay.WithoutKeepsOrder | lib/ecpay.ts:156 | deleting a key keeps that enumeration order |
| ECPay.ParamsObject.Delete | lib/ecpay.ts:156 | `delete` removes the key and its value and leaves every other entry as it was |
| ECPay.SignedKeys | lib/ecpay.ts:156-160 | the signed keys are every key but `CheckMacValue`, sorted |
| ECPay.Pairs | lib/ecpay.ts:161 | one `k=v` per key, in order |
| ECPay.HashString | lib/ecpay.ts:164 | the signed string starts `HashKey=<key>&` |
| ECPay.HexDigest | lib/ecpay.ts:170-174 | two lowercase hexadecimal digits per digest byte |
| ECPay.PairsAgree | lib/ecpay.ts:161 | equal values under the signed keys give equal pairs |
| ECPay.VerifyCallback | lib/ecpay.ts:153-181 | deletes `CheckMacValue` from the caller's object in place and returns true iff the supplied MAC equals the uppercase hex SHA-256 of the encoded string |
| ECPay.AuthenticMacIsUpperHex | lib/ecpay.ts:170-176 | given a digest of 32 octets, a callback can pass only with a 64-character uppercase hexadecimal MAC |
| ECPay.VerdictOrderIndependent | lib/ecpay.ts:159-164 | the verdict does not depend on the fields' arrival order |
| ECPay.JoinLower | lib/ecpay.ts:162-166 | lowercasing a joined string lowercases each part and the separator |
| ECPay.PairsLower | lib/ecpay.ts:161-166 | values equal up to case give pairs equal up to case |
| ECPay.FieldStringCaseBlind | lib/ecpay.ts:161-166 | the joined field string is case-blind in the values |
| ECPay.WrapCaseBlind | lib/ecpay.ts:164-166 | wrapping keeps equality up to case |
| ECPay.HashStringCaseBlind | lib/ecpay.ts:164-166 | the signed string is equal up to case when the values are |
| ECPay.SignatureCaseBlind | lib/ecpay.ts:164-176 | callbacks whose values differ only in letter case expect the same signature |
| ECPay.PaymentResultOf | lib/ecpay.ts:184-199 | "Invalid callback signature" iff the signature fails; otherwise success iff RtnCode is exactly "1", with the trade number and message |
| ECPay.HandlePaymentResult | lib/ecpay.ts:184-199 | verifies (deleting `CheckMacValue` in place) and returns that result |
| FormFields.FormValues | app/api/payment/callback/route.ts:9-13 | every submitted name other than `__proto__` is a key, and every key was submitted and is not `__proto__` |
| FormFields.FormKeys | app/api/payment/callback/route.ts:9-13 | the object's keys are distinct, are exactly its names, and list the array-index names first in ascending order |
| FormFields.FormKeysStep | app/api/payment/callback/route.ts:11-13 | one more field leaves the keys alone when its name is already there and otherwise adds it in enumeration order |
| FormFields.ProtoNameIgnored | app/api/payment/callback/route.ts:11-13 | a field named `__proto__` changes neither the values nor the keys |
| FormFields.KeyOrderExample | app/api/payment/callback/route.ts:11-13 | fields "b", "7", "0" are enumerated "0", "7", "b" |
| FormFields.FirstValue | app/api/payment/return/route.ts:43-45 | `URLSearchParams.get` gives a value submitted under the name, and null iff the name is absent |
| FormFields.LastValueWins | app/api/payment/callback/route.ts:11-13 | a name's value in the object, for any name other than `__proto__`, is the last one submitted under it |
| FormFields.FirstIsLastWhenUnique | app/api/payment/return/route.ts:42-56 | without repeated names the object and `get` agree on every name other than `__proto__`, which the object never holds |
| FormFields.RepeatedNameDisagrees | app/api/payment/return/route.ts:42-56 | with `RtnCode` given twice, `get` sees "1" and the object "0" |
| FormFields.ReadForm | app/api/payment/callback/route.ts:9-13 | the loop builds a fresh object holding the last value of every name but `__proto__`, its keys in JavaScript enumeration order (array indices ascending, then first-occurrence order) |
| PaymentCreate.RequestedPlan | app/api/payment/create/route.ts:7-9 | a plan is accepted exactly when the body is an object whose `plan` is the string CREATOR, PRO or ENTERPRISE |
| PaymentCreate.PlanIssueNamesTheCase | app/api/payment/create/route.ts:7-9 | the first validation message is "Required" exactly for a missing plan, starts "Expected object" exactly for a non-object body, and starts "Invalid enum value" exactly for a string outside the enum |
| PaymentCreate.BlockedMeansNotAnUpgrade | app/api/payment/create/route.ts:39-49 | without a subscription or on FREE nothing is blocked; on a paid plan a target is blocked iff its rank is not higher |
| PaymentCreate.UpsertIntent | app/api/payment/create/route.ts:69-83 | an existing row keeps plan, status and period and gets the trade number; otherwise a new INCOMPLETE row for the plan runs for 30 days |
| PaymentCreate.UpsertIntentKeepsInvariant | app/api/payment/create/route.ts:69-83 | the upsert keeps one subscription per user, each for an existing user |
| PaymentCreate.CreateOutcomes | app/api/payment/create/route.ts:11-107 | 401 without a session, 500 for an unreadable body, 400 with zod's first issue message for a bad plan (a non-object body, a missing plan, a plan of the wrong type, or a string outside the enum), 404 for a missing user, 400 for a downgrade, 500 "付款創建失敗" when checkout fails; a created payment carries the plan's price and name and the generated trade number, and comes with the upsert; a refusal leaves the table unchanged |
| PaymentCreate.CreateKeepsInvariant | app/api/payment/create/route.ts:11-107 | every request leaves one subscription per user, each for an existing user |
| PaymentCreate.CreatePayment | app/api/payment/create/route.ts:11-107 | the route's reply and the new subscription table are the request's effect, with the schema's constraints kept |
| PaymentCreate.ExistingRowKeepsItsPlan | app/api/payment/create/route.ts:71-74 | paying for a plan never changes an existing row's plan |
| PaymentCreate.AbandonedCheckoutBlocksRetry | app/api/payment/create/route.ts:75-82 | an abandoned first checkout leaves an INCOMPLETE row of that plan, and buying the same plan again is refused |
| PaymentCallback.FirstMatch | app/api/payment/callback/route.ts:22-29 | `findFirst` gives the first row matching the trade number, or none iff no row matches |
| PaymentCallback.Activate | app/api/payment/callback/route.ts:31-40 | only the first matching row changes: ACTIVE for [now, now+30 days] |
| PaymentCallback.MarkIncomplete | app/api/payment/callback/route.ts:50-58 | every matching row becomes INCOMPLETE and every other row is unchanged |
| PaymentCallback.CallbackEffect | app/api/payment/callback/route.ts:5-80 | `0|ERROR` (500) leaves the table unchanged; `1|OK` iff the form is read and the signature holds; plans and owners never change |
| PaymentCallback.Interpret | app/api/payment/callback/route.ts:8-18 | reading the form and checking it gives the verdict the form's keys and values determine |
| PaymentCallback.VerifiedEffect | app/api/payment/callback/route.ts:18-58 | a verified notification is acknowledged; `RtnCode` "1" activates the first match, any other code marks every match INCOMPLETE |
| PaymentCallback.EffectKeepsInvariant | app/api/payment/callback/route.ts:5-80 | every notification keeps one subscription per user, each for an existing user |
| PaymentCallback.Post | app/api/payment/callback/route.ts:5-80 | the reply and the new subscription table are the callback's effect, and the schema's constraints still hold |
| PaymentCallback.Get | app/api/payment/callback/route.ts:83-85 | `GET` does exactly what `POST` does |
| PaymentCallback.KeepsInvariant | app/api/payment/callback/route.ts:32-58 | rewriting rows without changing their owners keeps the schema's constraints |
| PaymentCallback.SuccessTouchesOneRow | app/api/payment/callback/route.ts:22-40 | a successful payment changes at most one row, the first match |
| PaymentCallback.FailureTouchesAllMatches | app/api/payment/callback/route.ts:50-58 | a failed payment marks every row with the trade number and no other |
| PaymentCallback.MissingTradeNoMatchesEveryRow | app/api/payment/callback/route.ts:22-29 | without `MerchantTradeNo` the filter matches all rows: success activates the first row, failure marks them all |
| PaymentCallback.UnverifiedChangesNothing | app/api/payment/callback/route.ts:69-79 | an unreadable body or a forged signature gives `0|ERROR` and no change |
| PaymentCallback.UnknownTradeNoAcknowledged | app/api/payment/callback/route.ts:43-45 | a verified success with an unknown trade number is acknowledged and changes nothing |
| Lifecycle.PaidUpgradeKeepsFreeQuota | app/api/payment/create/route.ts:69-83 | a FREE user whose payment is confirmed ends ACTIVE but still FREE, with the usage limit 3 |
| Lifecycle.UpgradeActivatesOwnRow | app/api/payment/callback/route.ts:22-40 | with a fresh trade number, the notification activates the very row the payment route stamped, which keeps its plan |
| Lifecycle.IntentRowIsFirstMatch | app/api/payment/callback/route.ts:22-29 | with a fresh trade number, `findFirst` finds the user's own row |
| Register.TypeIssue | app/api/auth/register/route.ts:36-40 | a member has a type issue iff it is not a string |
| Register.MemberIssue | app/api/auth/register/route.ts:36-40 | a member is fine iff it is a string passing its rule, and fails with the rule's message otherwise |
| Register.FirstIssue | app/api/auth/register/route.ts:36-45 | no issue iff all three members are strings with a name, a valid address and a 6-character password; otherwise the first issue in schema order |
| Register.FreeSubscription | app/api/auth/register/route.ts:72-80 | FREE, ACTIVE, for the user, running exactly 30 days, without a trade number |
| Register.RegisterEffect | app/api/auth/register/route.ts:42-107 | registered iff the body is valid, the address is free and the id unused, appending one user and one FREE subscription; refusals other than 500 write nothing |
| Register.Post | app/api/auth/register/route.ts:42-107 | the reply and both new tables are the registration's effect, and the schema's constraints hold |
| Register.RegisteredUnlessRefused | app/api/auth/register/route.ts:44-57 | on consistent tables a request is refused only for a malformed body, a validation issue, a taken address or a taken id, and a refusal adds no user |
| Register.RegisterKeepsInvariant | app/api/auth/register/route.ts:63-80 | the schema's constraints hold after every request |
| Register.NewAccount | app/api/auth/register/route.ts:60-92 | the stored password is the 12-round hash; the reply has id, name and address; the FREE/ACTIVE subscription runs 30 days; the gate grants limit 3 |
| Register.SecondRegistrationRefused | app/api/auth/register/route.ts:48-57 | registering the same address again is refused with 400 and both tables stay as they were |
| PaymentReturn.Target | app/api/payment/return/route.ts:19-29 | RtnCode "1" goes to the success page with the trade number unescaped; otherwise to the failure page with the encoded message, defaulting to 付款失敗 |
| PaymentReturn.Post | app/api/payment/return/route.ts:3-39 | `POST` redirects to the target of the posted fields, or to payment=error when the form cannot be read |
| PaymentReturn.TargetPrefixes | app/api/payment/return/route.ts:19-29 | a target names the success page iff the code is exactly "1", and the failure page otherwise |
| PaymentReturn.SuccessIffRtnCodeOne | app/api/payment/return/route.ts:16-29 | the success page iff RtnCode is exactly "1", the failure page otherwise |
| PaymentReturn.FailureMessageReadsBack | app/api/payment/return/route.ts:27 | the failure message contains no `&`, `#` or `+` and percent-decodes to the UTF-8 of the message |
| PaymentReturn.GeneratedTradeNoNeedsNoEscaping | app/api/payment/return/route.ts:22 | a generated trade number needs no escaping in the query |
| PaymentReturn.GetAgreesWithPostOnUniqueNames | app/api/payment/return/route.ts:42-56 | `GET` and `POST` agree when no name repeats and the trade number is present |
| PaymentReturn.MissingTradeNoPrintsDifferently | app/api/payment/return/route.ts:42-56 | without a trade number `POST` prints "undefined" and `GET` prints "null" |
| PaymentReturn.RepeatedRtnCodeDisagrees | app/api/payment/return/route.ts:42-56 | with `RtnCode` given as "1" then "0", `GET` succeeds and `POST` fails |
| Middleware.AnyPrefix | middleware.ts:11 | true iff the path starts with one of the routes |
| Middleware.Decide | middleware.ts:5-35 | signed-out protected API paths get 401 "請先登入"; other signed-out protected paths redirect to sign-in with the path as callbackUrl; signed-in users on the auth pages go to /dashboard; anything else passes |
| Middleware.ProtectedByPrefix | middleware.ts:10-11 | any path beginning with `/dashboard`, such as `/dashboardx`, is protected |
| Middleware.UnprotectedNeverRefused | middleware.ts:14-34 | an unprotected path always passes or goes to the dashboard |
| Middleware.SignInPageUnprotected | middleware.ts:10 | the sign-in page is not protected |
| Middleware.DashboardIsNotAuthPage | middleware.ts:30 | the dashboard is not an authentication page |
| Middleware.RedirectsSettle | middleware.ts:24-31 | every redirect target passes on the next request, so the guard never loops |
| ImageUpload.IndexOf | components/face-swap/image-upload.tsx:31 | the first position of the character, or the length when absent |
| ImageUpload.SecondSegment | components/face-swap/image-upload.tsx:31 | `split('/')[1]` exists iff the type has a `/`, and contains none |
| ImageUpload.SubtypeLabels | components/face-swap/image-upload.tsx:30-32 | every accepted type's subtype uppercased, in order; none when a type has no `/` |
| ImageUpload.ValidateFile | components/face-swap/image-upload.tsx:28-40 | accepted iff the type is accepted and size ≤ maxSize·1024·1024; otherwise the format message (or a throw) first, then the size message |
| ImageUpload.ExactCapAccepted | components/face-swap/image-upload.tsx:35 | a file of exactly the cap passes and one byte more is refused |
| ImageUpload.TypeCheckedBeforeSize | components/face-swap/image-upload.tsx:29-37 | a refused type reports the format message even when oversized |
| ImageUpload.Picker.constructor | components/face-swap/image-upload.tsx:17-25 | the picker starts with no message and no callback calls |
| ImageUpload.Picker.HandleFileSelect | components/face-swap/image-upload.tsx:42-51 | a refused file shows its message and calls nothing; an accepted one clears the message and calls `onImageChange` once with it |
| ImageUpload.Picker.HandleRemove | components/face-swap/image-upload.tsx:80-86 | calls `onImageChange(null)` and clears the message |
| SwapRoute.Get | app/api/swap/image/route.ts:9-10 | `formData.get` gives a value submitted under the name, and null iff absent |
| SwapRoute.Quality | app/api/swap/image/route.ts:11 | a missing or empty quality reads as "high" |
| SwapRoute.ChooseModel | app/api/swap/image/route.ts:21 | easel/advanced-face-swap iff the quality is exactly "high", else codeplugtech/face-swap |
| SwapRoute.EstimatedTime | app/api/swap/image/route.ts:63-71 | the three-entry table, and 約 30 秒 for any other model |
| SwapRoute.SwapReplyOf | app/api/swap/image/route.ts:5-50 | 400 when an image is missing; 500 for an unreadable form or a text field in an image slot; with two files, a prediction is started exactly when the chosen model accepts both images' data URLs; every other failure is 500 |
| SwapRoute.DataUrlLength | app/api/swap/image/route.ts:58-60 | the data URL is the header plus 4·⌈n/3⌉ characters |
| SwapRoute.DataUrlRoundTrip | app/api/swap/image/route.ts:58-60 | the payload after the header decodes back to the uploaded bytes |
| SwapRoute.DataUrlInjective | app/api/swap/image/route.ts:58-60 | uploads of one type share a data URL only when their bytes agree |
| SwapRoute.ExhaustedQuotaStillSwaps | app/api/swap/image/route.ts:5-50 | a user the usage gate refuses still gets a prediction started |
| SubscriptionPage.PaymentToast | app/subscription/page.tsx:79-91 | success, failed and error each give their toast (failed defaults to 未知錯誤), and no other value gives one |
| SubscriptionPage.CurrentPlan | app/subscription/page.tsx:179 | the subscription's plan, or FREE without one |
| SubscriptionPage.Remaining | app/subscription/page.tsx:247 | never negative; limit minus current when under a nonzero limit, 0 otherwise |
| SubscriptionPage.ButtonLabel | app/subscription/page.tsx:357-369 | the label reads 立即升級 iff the button is enabled |
| SubscriptionPage.CardsAreThePaidPlans | app/subscription/page.tsx:307-308 | FREE is never offered, and each paid plan is offered once |
| SubscriptionPage.EnabledMeansClickable | app/subscription/page.tsx:357-358 | an enabled button starts an upgrade, and a click starts one iff the card is neither current nor a downgrade |
| SubscriptionPage.PageAgreesWithServer | app/subscription/page.tsx:310-311 | for a paid target the page greys out exactly what the payment route refuses |
| SubscriptionPage.ClickableCards | app/subscription/page.tsx:307-358 | ENTERPRISE users can click no card; users without a subscription or on FREE can click every card |
| FaceSwapStore.WithSource | stores/face-swap-store.ts:113-120 | the preview is null iff the file is; the error is cleared; nothing else changes |
| FaceSwapStore.WithTarget | stores/face-swap-store.ts:122-129 | the same for the target image |
| FaceSwapStore.StartFailure | stores/face-swap-store.ts:150-167 | 429, 401 and 403 give fixed messages; other non-OK replies give the server error or 換臉請求失敗; an OK reply without success gives the error or 換臉失敗; none iff accepted |
| FaceSwapStore.StartEffect | stores/face-swap-store.ts:131-205 | without both images only the error is set and nothing is polled; a failure ends idle with progress 0; acceptance makes a processing swap with the prediction id at progress 30 and updates usage only when it was set |
| FaceSwapStore.ProgressFor | stores/face-swap-store.ts:231-241 | starting 40, processing 70, succeeded 100, and 50 for failed, canceled and unknown statuses |
| FaceSwapStore.PollStep | stores/face-swap-store.ts:211-290 | a poll continues only while attempts+1 < 60, changing only the progress; any history change is one entry in front and ends the loading; errors abort with progress 0 |
| FaceSwapStore.Cleared | stores/face-swap-store.ts:296-303 | no current swap, not loading, progress 0, no error, and the persisted part unchanged |
| FaceSwapStore.AtMostSixtyPolls | stores/face-swap-store.ts:274-281 | a prediction is polled at most 60 times, and never more often than there are replies |
| FaceSwapStore.HistoryGrowsByAtMostOne | stores/face-swap-store.ts:243-272 | a poll run adds at most one swap, in front of the older entries, leaving usage, subscription and images alone |
| FaceSwapStore.RunningForeverTimesOut | stores/face-swap-store.ts:274-289 | a prediction that stays running gets exactly the remaining polls and then 處理超時，請稍後再試 with progress 0 and loading off |
| FaceSwapStore.CanceledKeepsSpinner | stores/face-swap-store.ts:231-281 | a canceled or unknown status stops polling at progress 50 with the loading flag left as it was |
| FaceSwapStore.SucceededCompletes | stores/face-swap-store.ts:243-256 | success completes the current swap with the output and puts it in front of the history, progress 100, not loading |
| FaceSwapStore.FailedRecordsError | stores/face-swap-store.ts:258-272 | failure records the prediction's error (or 處理失敗) on the swap and as the message, in front of the history, progress 0 |
| FaceSwapStore.StoreAgainstSwapRoute | stores/face-swap-store.ts:150-177 | against the swap route the store shows the route's own message and never refreshes usage |
| FaceSwapStore.Store.constructor | stores/face-swap-store.ts:96-111 | the store starts empty and idle |
| FaceSwapStore.Store.SetSourceImage | stores/face-swap-store.ts:113-120 | the new state is `setSourceImage`'s effect |
| FaceSwapStore.Store.SetTargetImage | stores/face-swap-store.ts:122-129 | the new state is `setTargetImage`'s effect |
| FaceSwapStore.Store.StartSwap | stores/face-swap-store.ts:131-205 | the new state and the prediction to poll are `startSwap`'s effect |
| FaceSwapStore.Store.PollOnce | stores/face-swap-store.ts:211-290 | the new state and whether to poll again are one poll's outcome |
| FaceSwapStore.Store.CheckSwapStatus | stores/face-swap-store.ts:207-294 | the loop's final state and number of polls are those of the poll run, at most 60 |
| FaceSwapStore.Store.ClearCurrentSwap | stores/face-swap-store.ts:296-303 | the new state is the cleared state |
| FaceSwapStore.Store.SetError | stores/face-swap-store.ts:305-307 | sets the message and stops loading, nothing else |
| FaceSwapStore.Store.Persist | stores/face-swap-store.ts:356-360 | only the history, usage and subscription are persisted |

## Left out

- Asynchrony is not modelled: `fetch`, the 2 s and 5 s timers, `Promise.all`, and React or store updates that interleave with a running poll. Each poll sees the state the previous one left.
- Concurrent requests are not modelled, so neither is the admit-then-track race on the quota.
- `fetchUserData`, `updateUsage`, `updateSubscription`, `clearUserData` and `setProgress` are store actions outside the modelled core. They only copy a fetched or given value into a field.
- FaceSwapStore.PollStep: a status naming an `Object.prototype` member, such as "constructor", would make the progress a function rather than 50. A reply without a `prediction` object throws a TypeError. Neither is modelled.
- FaceSwapStore.StartEffect: a success reply missing `predictionId` or `model` would store `undefined`; the model takes them as strings.
- FaceSwapStore.StartEffect: `sourceImagePreview!` is covered by the invariant that a chosen image always has a preview.
- `URL.revokeObjectURL` is never called for replaced previews, and that leak is not modelled.
- Floating point is not modelled: fractional `maxSize` values, usage percentages and the progress bar's rendering. Sizes and limits are whole numbers.
- ImageUpload.SubtypeLabels: uppercasing covers ASCII letters only. Accepted MIME subtypes are ASCII.
- `fileInputRef` reset, drag-and-drop and click handlers are not modelled; they only feed `handleFileSelect`.
- The middleware's matcher regex is applied by Next.js before the guard runs, and is not modelled.
- Resolving redirect targets with `new URL` and serialising `callbackUrl` are not modelled; the model returns the path and the query value.
- Middleware.Decide: the session is reduced to "signed in or not".
- SHA-256, bcrypt (including its random salt), zod's e-mail check, the checkout form generator, and the model host's `createFaceSwap` and status calls are parameters, not models.
- ECPay.ParamsObject.Get: names inherited from `Object.prototype` (such as `constructor`) are not readable values of the object here; the routes read only fixed ECPay field names, none of which is inherited.
- Register.TypeIssue: zod's wording for a wrong member type is reduced to "Required" and "Expected string, received <type>".
- Date formatting (`toLocaleDateString`, `toISOString`) and `new Date()` are input strings or a millisecond count. One request reads one clock value.
- Database faults are flags on the operations whose source catches them: usage tracking, usage lookup and the statistics query. Elsewhere a thrown store error is the route's generic 500.
- Register.RegisterEffect: a subscription insert that fails after the user insert leaves the user behind. The function reports that, but the schema invariant lemma covers consistent tables only, where it cannot happen.
- UsageTracker.PlanLimit: the `|| 0` fallback cannot fire, because every stored plan is one of the four enum values.
- `encodeURIComponent` on a lone surrogate throws URIError. Strings here are sequences of Unicode scalar values, so that path is not modelled.
- ECPay.PaymentResultOf: `tradeAmount` (`parseInt`), `paymentDate` and `paymentType` are not modelled. No caller reads them.
- The dashboard, sign-in and sign-up pages, marketing pages and layout components are not modelled. They hold no decision logic beyond display.
- The usage and subscription API routes and the result route are not modelled. They are pass-throughs.
- `lib/replicate.ts` and `config/replicate.ts` are not part of this model; the model host appears only as the parameter functions above.
- The Prisma client's connection handling in `lib/prisma.ts` is not modelled; its tables are the fields of `Schema.Tables`, and the table schema itself is not among these sources.
