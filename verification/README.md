# Verified model of the vulos-deliver send engine

This project models the sending engine of vulos-deliver, and proves what it promises. The engine
is the SES backend (rate limiter, identity manager, suppression list, bounce webhook and the
`Send`/`SendBatch` pipeline), together with the canonical string of signed SNS messages and the
SMTP relay session.

| file | content |
|---|---|
| `BucketSpec.dfy`, `RateLimit.dfy` | the token bucket: its meaning over whole histories, and the limiter object |
| `Text.dfy`, `Suppression.dfy` | address keys; the in-memory and the SQL suppression list and their equivalence |
| `Webhook.dfy` | what decoded bounce and complaint notifications do to the list |
| `IdentityCap.dfy`, `Identity.dfy`, `SoloIdentity.dfy` | the count-check-then-create protocol under concurrency; the manager object; its create as one interleaving of the protocol |
| `VerifyCache.dfy` | the verification cache |
| `Delivery.dfy`, `SesSend.dfy` | recipients, receipts and batches; the SES sender object running alone |
| `Engine.dfy`, `SoloSend.dfy` | the SES sender under concurrency; the sequential sender as one of its interleavings |
| `SnsCanonical.dfy` | the SNS string to sign and a parser that inverts it |
| `SmtpSession.dfy`, `SmtpDialogue.dfy`, `Smtp.dfy` | the order of an SMTP session as the standards give it; what the relay says next to any server, and what follows; the relay sender |
| `Wrappers.dfy` | an optional value |

## How the world is modelled

- Clocks are integer nanoseconds. The limiter reads its clock under the mutex, so its readings
  never go backwards. Tokens and rates are real numbers; the sleep is truncated to a whole number
  of nanoseconds.
- Objects that the source updates in place are classes, and each method is proved against a
  specification function or states its whole effect. Where several goroutines meet, each
  lock-protected section, list lookup and completed SES call is one event of a state machine, and
  a run is any sequence of enabled events.
- What the source cannot control is a parameter. A call of `Wait` that returns is given by the
  instants at which it reads the clock, the context being done after the last of them. A listing is
  the sequence of replies of one complete paging. A `Send` is given the database's availability at
  each lookup, the clock readings and the replies of SES. An SMTP server is an arbitrary script of
  answers.
- The region of `IdentityCap` changes only through this manager, and an SES create or delete that
  reports an error has had no effect. `ListEmailIdentities` is read page by page: a page is a range
  of the listing order, and other callers may change the region between two pages.
- The SES sender and the webhook are given the SQL list. Its answers are those of the in-memory
  list together with database failures (`Suppression.ListsAgree`), so both backends are covered.

## Where the code departs from its documentation

The code is what is modelled.

- `docs/SES.md` and `backend/ses/identity.go:202-203` say the manager enforces the 10,000 identity cap. It does
  so exactly when creates are sequential; `k` concurrent creates can reach 10,000 + k − 1 and no
  more (`IdentityCap.CapEnforcedIffSequential`). This takes SES to accept what the manager lets
  through; `backend/ses/identity.go:16-17` says AWS rejects creates at the limit itself, and where it does
  the manager's check is not what keeps the cap.
- `docs/SES.md:144-145` says suppressed addresses never reach SES. An address is held back exactly
  when it was on the list at the instant of its own lookup (`Engine.EachVerdictIsItsLookup`). An
  addition that arrives while the send waits for a token comes too late
  (`Engine.AdditionsWhileWaitingAreNotSeen`), and one completed before the send began is always
  honoured (`Engine.SuppressionIsHonoured`).
- `deliver.go:116-117` describes `ErrSuppressed` by the To addresses alone. The code returns it when no To,
  Cc or Bcc recipient is left, which includes a message without recipients
  (`Delivery.NobodyLeftIffAllHeld`). The two differ exactly when every To address is held back and
  some Cc or Bcc address is not (`Delivery.ToAloneDoesNotDecide`, `Delivery.HeldToWithOpenCc`).
- `deliver.go:106-109` promises per-message errors in `Recipients[].Err`. The code never writes
  that field, which the model therefore does not have: a batch returns its first error only, and a
  message that failed leaves no status at all (`SesSend.FailedMessagesLeaveNoStatus`).
- `backend/ses/ratelimit.go:23` promises at most `rate` sends per second. A second can hold twice the
  capacity, one burst at either end; the promise holds exactly for rates below one, at which nothing
  is granted (`BucketSpec.AtMostRatePerSecondIffNothingGranted`). What does hold is the budget, the
  rate times one plus the seconds (`BucketSpec.RateSafety`), and it is attained
  (`BucketSpec.BudgetIsAttained`).
- A rate below one per second is accepted but can never grant, because the capacity equals the rate
  (`BucketSpec.ProgressIffRateAtLeastOne`).

## Model

| member | source | states |
|---|---|---|
| `BucketSpec.AfterKeepsValid` | backend/ses/ratelimit.go:35-43 | After any history of attempts and readings the token count is between zero and the capacity, and the rate is unchanged. |
| `BucketSpec.TokensAreLeastSlack` | backend/ses/ratelimit.go:23-55 | After a refill the stored count is the least, over all windows ending now, of the window's budget minus the grants made in it, and some window attains it. |
| `BucketSpec.CreationWindowHolds` | backend/ses/ratelimit.go:25-43 | The window that opens when the limiter is created bounds the count as well. |
| `BucketSpec.GrantIffEveryWindowFits` | backend/ses/ratelimit.go:47-55 | An attempt is granted exactly when every window ending at it, this grant included, stays within budget: the one number refines a check over the whole history. |
| `BucketSpec.BucketRespectsBudgets` | backend/ses/ratelimit.go:35-55 | The limiter's own grants keep every window between two operations within its budget. |
| `BucketSpec.BucketIsOptimal` | backend/ses/ratelimit.go:35-55 | At every prefix of any history, no other choice of grants that respects all window budgets is ahead of the limiter. |
| `BucketSpec.BudgetInSeconds` | backend/ses/ratelimit.go:18 | A window's budget is the rate times one plus its length in seconds: a burst of one second plus the accrual. |
| `BucketSpec.RateSafety` | backend/ses/ratelimit.go:35-68 | Between any two instants of any run the grants do not exceed the budget of the time between them, and tokens stay between zero and the capacity. |
| `BucketSpec.BudgetIsAttained` | backend/ses/ratelimit.go:18-55 | For every whole rate and every whole number of seconds some history grants the whole budget of the window. |
| `BucketSpec.AtMostRatePerSecondIffNothingGranted` | backend/ses/ratelimit.go:23-55 | The promise of at most `rate` sends in a second holds of every history if and only if the rate is below one. |
| `BucketSpec.RefillComposes` | backend/ses/ratelimit.go:35-43 | Refilling at an intermediate instant and then again is one refill. |
| `BucketSpec.ObservationIsTransparent` | backend/ses/ratelimit.go:47-76 | Removing any readings and any refused attempts from a history changes neither which of the other attempts are granted nor what any later reader sees. |
| `BucketSpec.SleepBounds` | backend/ses/ratelimit.go:56-58 | The truncated sleep accrues at most the deficit, and one nanosecond more accrues more than it. |
| `BucketSpec.SleepIsTight` | backend/ses/ratelimit.go:56-66 | No instant before the sleep ends could grant; at its end less than one nanosecond of accrual is missing; every later instant grants exactly when the rate is at least one. |
| `BucketSpec.ProgressIffRateAtLeastOne` | backend/ses/ratelimit.go:25-55 | Some instant grants if and only if the rate is at least one, and then every instant after the sleep does. |
| `BucketSpec.LoneWaiterNeedsThreeAttempts` | backend/ses/ratelimit.go:47-68 | A lone waiter that honours its sleeps, on a clock that advances, obtains a token within three attempts. |
| `RateLimit.TokenBucket.constructor` | backend/ses/ratelimit.go:25-32 | A new limiter is full, with its capacity equal to its rate, whatever the rate. |
| `RateLimit.TokenBucket.Credit` | backend/ses/ratelimit.go:35-43 | Refilling in place is the refill of the specification. |
| `RateLimit.TokenBucket.Attempt` | backend/ses/ratelimit.go:49-58 | One lock-protected attempt takes a token exactly when the refilled bucket holds one; otherwise it computes the sleep. |
| `RateLimit.TokenBucket.Wait` | backend/ses/ratelimit.go:47-68 | The call makes attempts at its clock readings up to the first that is granted and takes one token there; otherwise it ends refused after the last; each sleep is the computed one. |
| `RateLimit.TokenBucket.Available` | backend/ses/ratelimit.go:71-76 | Reading returns the refilled count and changes nothing else. |
| `Text.NormalizeOfPadded` | backend/ses/suppression.go:108-110 | An address written as blank padding around a trimmed core has the lower-cased core as its key. |
| `Text.NormalizeIsIdempotent` | backend/ses/suppression.go:108-110 | Every key is its own key. |
| `Text.VariantsShareKey` | backend/ses/suppression.go:108-110 | Spellings that differ only in case and surrounding space share their key. |
| `Text.KeySpelledOut` | backend/ses/suppression.go:108-110 | The key is the stretch of the address between its first and last character that is none of the six ASCII spaces, letter by letter, with `A` to `Z` made small. |
| `Text.KeysAreCanonical` | backend/ses/suppression.go:108-110 | No key holds a capital letter, and none begins or ends with a space. |
| `Text.SpacesDoNotMatter` | backend/ses/suppression.go:108-110 | A space, tab, newline, return, vertical tab or form feed in front of or behind an address leaves its key unchanged. |
| `Text.CaseDoesNotMatter` | backend/ses/suppression.go:108-110 | Addresses that agree at every position up to the small and capital form of a letter share their key. |
| `Text.NothingElseSharesKeys` | backend/ses/suppression.go:108-110 | Addresses that share a key agree in that way from their first to their last character that is no space. |
| `Text.SenderDomainSpelledOut` | backend/ses/ses.go:402-408 | The domain is, letter by letter, what follows the last `@`, with `A` to `Z` made small; it is empty without an `@`. |
| `Text.PermanentSpelledOut` | backend/ses/bounce.go:204 | A bounce is permanent exactly if its type is those nine letters, each small or capital. |
| `Text.SenderDomainOf` | backend/ses/ses.go:402-408 | The sender's domain is what follows the last `@`, in lower case, whatever precedes it; without an `@` it is empty. |
| `Suppression.MemorySuppressionList.Add` | backend/ses/suppression.go:68-81 | A non-blank address is stored under its key with the new reason; a blank one is an error and changes nothing. |
| `Suppression.MemorySuppressionList.IsSuppressed` | backend/ses/suppression.go:84-90 | The answer is the whole entry stored under the address's key, if any. |
| `Suppression.MemorySuppressionList.Remove` | backend/ses/suppression.go:93-99 | The address's key is dropped and nothing else. |
| `Suppression.MemorySuppressionList.Count` | backend/ses/suppression.go:102-106 | The number of stored keys. |
| `Suppression.UpsertView` | backend/ses/suppression_sql.go:67-75 | An upsert keeps the key unique and changes the table, read as a map, at that key only. |
| `Suppression.DeleteView` | backend/ses/suppression_sql.go:107-108 | A delete removes that key only. |
| `Suppression.SQLSuppressionList.Add` | backend/ses/suppression_sql.go:62-79 | The step of the SQL list, which is that of the memory list when the database answers; otherwise an error and no change, a blank address being refused before the database is asked. |
| `Suppression.SQLSuppressionList.IsSuppressed` | backend/ses/suppression_sql.go:82-102 | The whole entry of the key's row, if any, when the database answers; otherwise an error. |
| `Suppression.SQLSuppressionList.Remove` | backend/ses/suppression_sql.go:105-113 | The step of the SQL list, which is that of the memory list when the database answers; otherwise an error and no change. |
| `Suppression.SQLSuppressionList.Count` | backend/ses/suppression_sql.go:116-123 | The number of distinct keys, or zero when the query fails. |
| `Suppression.ListsAgree` | backend/ses/suppression_sql.go:62-123 | For every sequence of operations, clocks and outages the SQL list answers as a memory list that never saw the operations lost to an outage; every key is a normalized address equal to its entry's. |
| `Suppression.ListIsLastWord` | backend/ses/suppression.go:36-50 | An address is listed exactly when the last executed operation about its key was an addition, and then with that addition's reason. |
| `Suppression.CountIsLiveAddresses` | backend/ses/suppression.go:102-106 | The count of a list that started empty is the number of distinct keys whose last word is an addition. |
| `Webhook.BounceWebhookHandler.AddAll` | backend/ses/bounce.go:211-223 | The loop makes one addition per non-empty recipient in order, and a failed one is skipped. |
| `Webhook.BounceWebhookHandler.HandleBounce` | backend/ses/bounce.go:200-224 | Only a permanent bounce, in any letter case, adds its recipients. |
| `Webhook.BounceWebhookHandler.HandleComplaint` | backend/ses/bounce.go:229-246 | Every complaint adds its recipients. |
| `Webhook.BounceWebhookHandler.HandleNotification` | backend/ses/bounce.go:177-195 | Bounces and complaints are dispatched to their handlers and other kinds change nothing. |
| `Webhook.KeysAfterAdds` | backend/ses/bounce.go:211-245 | In any interleaving of additions the keys are the old ones plus those of the executed non-blank additions. |
| `Webhook.SuppressedKeys` | backend/ses/bounce.go:185-246 | After any sequence of notifications the keys are the initial ones plus those named by some permanent bounce or complaint. |
| `Webhook.NamesSpelledOut` | backend/ses/bounce.go:177-246 | A notification counts against a key exactly if it is a bounce with a payload whose type spells "permanent" in any mix of case, or a complaint with a payload, and the key is the non-empty key of one of its recipients. |
| `Webhook.AddsSpelledOut` | backend/ses/bounce.go:211-245 | Every addition is of a non-empty recipient with the reason "bounce" or "complaint"; other kinds of notification make none. |
| `Webhook.OrderAndDuplicatesDoNotMatter` | backend/ses/bounce.go:185-246 | Two sequences with the same notifications, in any order and multiplicity, leave the same keys. |
| `Webhook.ReasonIsThatOfLastNotification` | backend/ses/bounce.go:215-237 | A key's reason is "bounce" or "complaint" after the last notification naming it. |
| `Webhook.FailuresStopNothing` | backend/ses/bounce.go:211-223 | Whichever additions fail, the keys are exactly those listed before and those of the recipients whose own addition was executed. |
| `Webhook.AfterAllIsOneAfterAnother` | backend/ses/bounce.go:177-246 | Handling one more notification in the state left by the earlier ones gives the state after all of them. |
| `IdentityCap.CacheIsCoherent` | backend/ses/identity.go:155-197 | In every reachable state the cached count misses only creates and deletes that have not reached their invalidation; with none of those it equals the region's. |
| `IdentityCap.LandedChangesAreInvalidatedAfterTheStore` | backend/ses/identity.go:155-197 | A change that lands while a caller lists under the lock is invalidated only after that caller has stored its count or given up. |
| `IdentityCap.CapHoldsUpToConcurrency` | backend/ses/identity.go:208-241 | With at most k creates in flight, the region's size plus the callers past the check never exceeds 10,000 + k − 1. |
| `IdentityCap.CapEnforcedIffSequential` | backend/ses/identity.go:199-241 | Every run stays within the cap if and only if k is at most one; for every k from one on, 10,000 + k − 1 is reached by some run. |
| `IdentityCap.CountIsTrustedFiveMinutes` | backend/ses/identity.go:155-170 | In every run a caller goes by the stored count, without listing, exactly strictly within 300,000,000,000 nanoseconds of its being stored, unless something replaced or invalidated it. |
| `IdentityCap.HitsFollowAStore` | backend/ses/identity.go:155-170 | In every run each caller that does not list goes by a count stored less than five minutes before and not invalidated since. |
| `Identity.IdentityManager.constructor` | backend/ses/identity.go:121-135 | A non-positive warning threshold becomes 9,000, and both caches start empty. |
| `Identity.IdentityManager.FetchIdentityCount` | backend/ses/identity.go:173-190 | The sum of all pages, or an error if any page fails. |
| `Identity.IdentityManager.IdentityCount` | backend/ses/identity.go:155-170 | The cached count is returned without listing exactly before its expiry; otherwise the new listing is kept for five minutes from its storing, and a failed one changes nothing. |
| `Identity.IdentityManager.InvalidateCache` | backend/ses/identity.go:193-197 | The cached count is no longer trusted. |
| `Identity.IdentityManager.Usage` | backend/ses/identity.go:139-152 | Count and headroom add up to the cap; at the cap means no headroom; near the cap means at or above the threshold. |
| `Identity.IdentityManager.CreateDomainIdentity` | backend/ses/identity.go:208-241 | SES is called exactly when the count is below the cap, and the cached count is dropped exactly when SES accepted. |
| `SoloIdentity.PagesCountEverything` | backend/ses/identity.go:173-190 | A complete listing counts every identity of an unchanging region, however it is cut into pages. |
| `SoloIdentity.CreatesAlone` | backend/ses/identity.go:208-241 | From any protocol state with a free lock, a create whose steps are not interleaved is a run of enabled events; a refused or failed one leaves the region alone. |
| `SoloIdentity.CreateRefinesProtocol` | backend/ses/identity.go:208-241 | After the object's call its cache is the protocol's after that lone run, and the call reports success exactly when the run added the identity. |
| `Identity.IdentityManager.DeleteDomainIdentity` | backend/ses/identity.go:392-401 | The cached count is dropped exactly when SES accepted. |
| `Identity.IdentityManager.IsVerified` | backend/ses/identity.go:353-388 | A live cache entry answers; otherwise the domain is verified exactly if SES replies with the DKIM status SUCCESS, which is kept for sixty seconds; an API error, and nothing else, gives no verdict and records nothing. |
| `VerifyCache.SuccessSpelledOut` | backend/ses/identity.go:353-380 | Only the DKIM status SUCCESS counts as verified, not a reply without DKIM attributes; only an API error gives no status. |
| `VerifyCache.LookupOfRecord` | backend/ses/identity.go:370-387 | A recorded verdict answers for its own domain only, strictly within sixty seconds. |
| `Delivery.AllowedKeepsOrder` | backend/ses/ses.go:411-424 | Each address that is not held back is kept at the position given by how many kept ones precede it. |
| `Delivery.RecipientsConserved` | backend/ses/ses.go:257-334 | Held and enveloped emails together are exactly the message's, in each of To, Cc and Bcc and overall, with multiplicity. |
| `Delivery.ReceiptsConserve` | backend/ses/ses.go:270-370 | The receipt names every recipient once per occurrence, after a send and when everybody is suppressed, for any suppression verdicts. |
| `Delivery.ReceiptAccounts` | backend/ses/ses.go:274-368 | Those marked sent are the envelope in order; those marked suppressed are the held ones in order. |
| `Delivery.ReceiptOrder` | backend/ses/ses.go:269-368 | First come the held recipients, marked suppressed, then the enveloped ones, marked sent, each in order. |
| `Delivery.NobodyLeftIffAllHeld` | backend/ses/ses.go:293-296 | The message is a no-op exactly when every To, Cc and Bcc recipient is held back. |
| `Delivery.ToAloneDoesNotDecide` | backend/ses/ses.go:293-296 | Judging by the To recipients alone agrees with the code unless all of them are held back and some Cc or Bcc recipient is not. |
| `Delivery.HeldToWithOpenCc` | backend/ses/ses.go:293-296 | A message whose only To recipient is held back is sent to its Cc recipient all the same. |
| `Delivery.EnvelopeIsUnmarked` | backend/ses/ses.go:325-334 | Every enveloped email is that of a recipient not held back. |
| `Delivery.UnmarkedIsEnveloped` | backend/ses/ses.go:325-334 | Every recipient not held back is enveloped, in the set it was addressed in. |
| `SesSend.SendConservesRecipients` | backend/ses/ses.go:253-371 | On success and when everybody is suppressed the receipt accounts for every recipient exactly once; every other error comes with an empty receipt. |
| `SesSend.SendHonoursTheList` | backend/ses/ses.go:257-334 | The envelope of a lone send holds no listed address and every unlisted one. |
| `SesSend.CallSpelledOut` | backend/ses/ses.go:336-352 | The call carries the message's sender and body, and the message's configuration set, failing that the backend's, failing that none. |
| `SesSend.ReceiptSpelledOut` | backend/ses/ses.go:265-371 | A success has been accepted by SES, and its receipt carries SES's id or none, "ses" and the time of the send. |
| `SesSend.GateSpelledOut` | backend/ses/ses.go:298-313 | The gate passes a message if it is off, on a live cached verdict, or on the DKIM status SUCCESS; otherwise it names the reason; what the cache holds afterwards is stated. |
| `SesSend.ErrorSpelledOut` | backend/ses/ses.go:253-357 | Which error is returned: a failed lookup, everybody listed, the gate, no token at any reading, SES's refusal, considered in this order. |
| `SesSend.EarlierFailuresDoNotMatter` | backend/ses/ses.go:384-395 | A message of a batch succeeds exactly under its own conditions in the state its predecessors left, whatever their errors. |
| `SesSend.SendTakesOneToken` | backend/ses/ses.go:315-356 | SES is called exactly when a token was taken, and one call never takes two. |
| `SesSend.FailedMessagesLeaveNoStatus` | backend/ses/ses.go:384-395 | A message of a batch that fails, other than by full suppression, has a receipt without any recipient. |
| `SesSend.Sender.FilterSuppressed` | backend/ses/ses.go:411-424 | The addresses are split by the list in order; the first failed lookup fails the whole filter. |
| `SesSend.Sender.AddrEmails` | backend/ses/ses.go:374-380 | The array holds the emails in order. |
| `SesSend.Sender.Partition` | backend/ses/ses.go:257-291 | To, Cc and Bcc are filtered separately and the held ones are reported in that order. |
| `SesSend.Sender.CheckSender` | backend/ses/ses.go:301-313 | With the gate on only a verified sender domain passes; a missing domain, an API error and an unverified domain are refused. |
| `SesSend.Sender.Submit` | backend/ses/ses.go:325-370 | The call is made with the envelope, and an accepted call completes the receipt. |
| `SesSend.Sender.Send` | backend/ses/ses.go:253-371 | Receipt, error, SES call and new state are those of the specification of one send; the call carries the message's own sender, body and configuration set, and the receipt of a success is SES's. |
| `SesSend.Sender.SendBatch` | backend/ses/ses.go:384-395 | Receipt, error, call and new state of message i are those of a single send in the state left by the messages before it; all are attempted, and the error is the first one. |
| `Engine.EachVerdictIsItsLookup` | backend/ses/ses.go:411-424 | A recipient is held back exactly when its key was on the list at the instant of its own lookup. |
| `Engine.SuppressionIsHonoured` | backend/ses/ses.go:253-334 | In every run, if an address was added before a send began and no variant of it is removed, no variant of it is in that send's envelope. |
| `Engine.UnsuppressedIsSent` | backend/ses/ses.go:253-334 | In every run, an address not on the list during the send is in the envelope, in its own set, if `SendEmail` is reached. |
| `Engine.AdditionsWhileWaitingAreNotSeen` | backend/ses/ses.go:257-353 | For every address there is a run in which it is listed while the send waits and is mailed all the same. |
| `Engine.EachSendHasItsOwnGrant` | backend/ses/ses.go:315-356 | In every run each call has exactly one grant if it holds a token or has called SES, and none if it ended any other way; it calls SES at most once. |
| `Engine.GrantsAreSpentOrHeld` | backend/ses/ses.go:315-356 | In every run the grants are the `SendEmail` calls made plus the tokens still held. |
| `Engine.LimiterIsBucket` | backend/ses/ratelimit.go:47-76 | In every run the limiter is the bucket of the specification after the limiter's own operations, with non-decreasing readings. |
| `Engine.SendsWithinRate` | backend/ses/ses.go:315-356 | In every run `SendEmail` is called at most as often as the budget of the time since the limiter's creation. |
| `Engine.SendsInAnyWindow` | backend/ses/ses.go:315-356 | In every run and between any two instants `SendEmail` is called at most as often as the budget of the time between them plus the tokens already held when it began. |
| `Engine.VerdictsHaveBoundedStaleness` | backend/ses/identity.go:370-388 | In every run, a call that asked about a domain goes on as verified only on SES's reply of the status SUCCESS about that domain, given to that very call, or to one that recorded it less than sixty seconds before. |
| `Engine.SendsRestOnSuccess` | backend/ses/ses.go:301-313 | With the gate on, nothing is sent from a domain about which SES has not replied SUCCESS before. |
| `Engine.SendsPassedTheGate` | backend/ses/ses.go:301-313 | With the gate on, every `SendEmail` is preceded in its own send by such a verdict on the lower-cased From domain. |
| `Engine.RefusedCallsNeverSend` | backend/ses/ses.go:301-313 | A call that met an API error or a negative verdict never calls `SendEmail`. |
| `SoloSend.SoloSendMatchesSpec` | backend/ses/ses.go:253-371 | From any state of the concurrent engine, a send whose events are not interleaved ends with the error, envelope, tokens and cache of the sequential specification. |
| `SnsCanonical.StringToSign` | backend/ses/sns_verify.go:170-199 | For the two confirmation types the result is the seven keys with the envelope's own values, for any other type the five, with the subject exactly if it is not empty; every key and value is a line. |
| `SnsCanonical.LinesSpelledOut` | backend/ses/sns_verify.go:170-199 | The printed layouts, line by line. |
| `SnsCanonical.ParsePrint` | backend/ses/sns_verify.go:170-199 | A parser working from the end recovers every signed field, for any message text. |
| `SnsCanonical.PrintParse` | backend/ses/sns_verify.go:170-199 | The parser accepts nothing but canonical strings. |
| `SnsCanonical.StringToSignIsUniquelyDecodable` | backend/ses/sns_verify.go:170-199 | Two envelopes whose signed fields other than the message are single lines have the same string exactly when they agree on all signed fields, the presence of the subject and the layout. |
| `SnsCanonical.ConfusableIffItParses` | backend/ses/sns_verify.go:170-199 | An envelope with a newline in a signed field other than the message shares its string with a canonical one if and only if the parser accepts the string. |
| `SnsCanonical.SubjectHidesInMessageId` | backend/ses/sns_verify.go:182-197 | Every envelope with a subject shares its string with one that has no subject and holds it in the message id. |
| `SmtpSession.AuthOnlyUnderTls` | backend/smtp/smtp.go:126-166 | In a legal session every AUTH comes after a successful TLS handshake. |
| `SmtpSession.AcceptanceNeedsRecipient` | backend/smtp/smtp.go:168-188 | In a legal session no message is accepted without an accepted recipient. |
| `SmtpDialogue.ConversationIsDetermined` | backend/smtp/smtp.go:94-207 | The configuration, the envelope and the server's answers determine the whole session and its error. |
| `SmtpDialogue.ConversationsAreLegal` | backend/smtp/smtp.go:94-207 | For every server the session the relay conducts is legal and leaves no connection open. |
| `SmtpDialogue.ResultIsWhatWasAccepted` | backend/smtp/smtp.go:168-192 | There is no error exactly when every recipient, the text and QUIT were accepted; once the text is accepted only QUIT can fail. |
| `SmtpDialogue.FirstRefusalIsLast` | backend/smtp/smtp.go:126-192 | The first refusal ends the conversation, except that HELO may follow a refused EHLO. |
| `SmtpDialogue.EveryLineIsProper` | backend/smtp/smtp.go:13-20 | Port 465 and implicit TLS are dialled under TLS; AUTH is spoken only with credentials and under TLS; mail names the configured sender, follows a configured AUTH, and goes in clear only with no credentials, no implicit TLS and no STARTTLS offered. |
| `SmtpDialogue.SucceedsIffServerCooperates` | backend/smtp/smtp.go:94-207 | A send succeeds if and only if it has recipients, all addresses can be sent, and the server's answers accept, one by one, every step the configuration calls for. |
| `SmtpDialogue.CooperatesSpelledOut` | backend/smtp/smtp.go:94-207 | The answers that make a send succeed, counted out: connection, greeting, EHLO or HELO, TLS where it is needed, and one positive answer for every further line. |
| `SmtpDialogue.ErrorSpelledOut` | backend/smtp/smtp.go:126-192 | Each error tells which line was refused or could not be said; a refused recipient is named. |
| `Smtp.New` | backend/smtp/smtp.go:77-85 | A configuration without a host is an error; a missing port becomes 587. |
| `Smtp.Sender.Collect` | backend/smtp/smtp.go:96-105 | The envelope recipients are To, then Cc, then Bcc. |
| `Smtp.Sender.Open` | backend/smtp/smtp.go:125-158 | The dialogue is conducted up to the point where credentials or mail come next: TLS is raised implicitly, or by STARTTLS wherever it is offered; every failure is the one the dialogue calls for and leaves the connection closed. |
| `Smtp.Sender.Login` | backend/smtp/smtp.go:161-166 | AUTH is spoken exactly when credentials are configured; failure means that the server refused the hello or AUTH. |
| `Smtp.Sender.Address` | backend/smtp/smtp.go:168-176 | MAIL and one RCPT after another, as the dialogue calls for, ending at the first refused or unsendable address. |
| `Smtp.Sender.Transact` | backend/smtp/smtp.go:178-192 | DATA, the text and QUIT, as the dialogue calls for, ending at the first refusal. |
| `Smtp.Sender.Send` | backend/smtp/smtp.go:94-207 | The session and the error are those the dialogue prescribes for this server's answers: legal, closed, and successful exactly with a cooperating server. The first line dials over TLS exactly for port 465 or implicit TLS; MAIL names the configured sender or else the message's; no mail or AUTH goes in clear where TLS was configured or offered; the text sent is the message's body; and the receipt of a success lists all recipients in order. |
| `Smtp.Sender.SendBatch` | backend/smtp/smtp.go:210-221 | Every message has a session of its own with all these promises, and the error is the first one. |

## Left out

- RateLimit.TokenBucket.Wait: requires a positive rate, which `ses.New` establishes by putting 14 in place of a non-positive one (for a rate of zero or less the source's sleep is an infinite or negative floating-point quotient); a call that never returns has no clock-reading sequence and is represented only by the attempts of `Engine`; rounding of floating-point numbers and the saturation of very long durations are not modelled.
- Text.NormalizeOfPadded: covers ASCII space and letters only, not Unicode white space and case folding.
- Smtp.Sender.Send: the exchanges by which Go's net/smtp abandons a failed AUTH, SMTP extensions other than STARTTLS, and reply texts are not part of this model; AUTH is a single exchange.
- Suppression.ListsAgree: does not compare the timestamps of entries.
- Identity.IdentityManager.CreateDomainIdentity: DNS records and the custom MAIL FROM call, which cannot fail the operation, are left out.
- SES calls that fail after taking effect, and identities changed by somebody else: assumed away in `IdentityCap`, where they would break the cap and the coherence of the count.
- AWS configuration and credentials, `DetectSandbox`, logging, HTTP and JSON handling of the webhook, subscription confirmation, and URL checks: plumbing around the decisions modelled here.
- RSA, X.509 and the certificate cache of the SNS verification, and DKIM key generation: library work.
- DNS record builders and the provider switch: string formatting and a two-way choice with easy claims.
- Multi-region routing: documented but not implemented in the source.
