/** backend/ses/ses.go: `Send` and `SendBatch` of the SES sender, driving the suppression list,
    the verification gate and the rate limiter. This is one caller running alone; `Engine` has
    many of them interleaved with the webhook. */
module SesSend {
  import opened Text
  import opened Wrappers
  import opened Delivery
  import opened BucketSpec
  import opened VerifyCache
  import Suppression
  import RateLimit
  import Identity

  datatype SendError =
    | ListFailed(cause: Suppression.Error)
    | EverybodySuppressed
    | NoSenderDomain
    | VerifyFailed
    | Unverified
    | Cancelled
    | SesRejected

  datatype SesReply = Accepted(messageId: Option<string>) | Refused

  /** The one `SendEmail` call of a send. */
  datatype EmailCall = EmailCall(from: Address, destination: Destination, mimeBody: seq<bv8>, configurationSet: Option<string>)

  /** What the world answers during one `Send`: whether the list's database is up at each lookup,
      the instants at which clocks are read, and the replies of SES. */
  datatype World = World(
    up: seq<bool>,
    sentAt: int,
    gateNow: int,
    gateReply: StatusReply,
    gateLater: int,
    readings: seq<int>,
    sesReply: SesReply)

  datatype Config = Config(requireVerified: bool, configurationSet: string)

  /** What a send reads and changes besides the suppression list. */
  datatype Shared = Shared(bucket: Bucket, cache: Cache)

  datatype Outcome = Outcome(receipt: Receipt, err: Option<SendError>, call: Option<EmailCall>)

  // ----- The specification of one send -------------------------------------

  function Hits(keys: set<string>, addrs: seq<Address>): seq<bool> {
    seq(|addrs|, i requires 0 <= i < |addrs| => Normalize(addrs[i].email) in keys)
  }

  /** The verdict of the send gate: None lets the message through. */
  function Gate(cfg: Config, cache: Cache, msg: Message, w: World): (Option<SendError>, Cache) {
    var domain := SenderDomain(msg.from.email);
    if !cfg.requireVerified then (None, cache)
    else if domain == "" then (Some(NoSenderDomain), cache)
    else
      match Lookup(cache, domain, w.gateNow)
      case Some(verified) => (if verified then None else Some(Unverified), cache)
      case None =>
        if w.gateReply.ApiError? then (Some(VerifyFailed), cache)
        else (if IsSuccess(w.gateReply) then None else Some(Unverified),
              Record(cache, domain, IsSuccess(w.gateReply), w.gateLater))
  }

  /** How many attempts a waiter makes at the given readings: up to its first grant. */
  function Attempts(b: Bucket, readings: seq<int>): (n: nat)
    requires |readings| > 0
    ensures 1 <= n <= |readings|
    decreases |readings|
  {
    if |readings| == 1 || Admits(b, readings[0]) then 1 else 1 + Attempts(Take(b, readings[0]), readings[1..])
  }

  function EffectiveSet(cfg: Config, msg: Message): Option<string> {
    if msg.configurationSet != "" then Some(msg.configurationSet)
    else if cfg.configurationSet != "" then Some(cfg.configurationSet)
    else None
  }

  function CallFor(cfg: Config, msg: Message, hits: seq<bool>): EmailCall
    requires |hits| == |Everyone(msg)|
  {
    EmailCall(msg.from, DestinationOf(msg, hits), msg.mimeBody, EffectiveSet(cfg, msg))
  }

  function SendSpec(cfg: Config, keys: set<string>, st: Shared, msg: Message, w: World): (Shared, Outcome)
    requires |w.up| == |Everyone(msg)| && |w.readings| > 0
  {
    var hits := Hits(keys, Everyone(msg));
    if false in w.up then (st, Outcome(NO_RECEIPT, Some(ListFailed(Suppression.DatabaseFailure)), None))
    else if NobodyLeft(msg, hits) then (st, Outcome(SuppressedReceipt(msg, hits, w.sentAt), Some(EverybodySuppressed), None))
    else
      var (refusal, cache) := Gate(cfg, st.cache, msg, w);
      if refusal.Some? then (st.(cache := cache), Outcome(NO_RECEIPT, refusal, None))
      else
        var n := Attempts(st.bucket, w.readings);
        var ops := AttemptsAt(w.readings);
        var st' := Shared(After(st.bucket, ops, n), cache);
        if !Granted(st.bucket, ops, n - 1) then (st', Outcome(NO_RECEIPT, Some(Cancelled), None))
        else
          var call := Some(CallFor(cfg, msg, hits));
          match w.sesReply
          case Refused => (st', Outcome(NO_RECEIPT, Some(SesRejected), call))
          case Accepted(id) => (st', Outcome(SentReceipt(msg, hits, w.sentAt, id), None, call))
  }

  lemma {:induction false} AttemptsIsFirstGrant(b: Bucket, readings: seq<int>, n: nat)
    requires 1 <= n <= |readings|
    requires forall i :: 0 <= i < n - 1 ==> !Granted(b, AttemptsAt(readings), i)
    requires Granted(b, AttemptsAt(readings), n - 1) || n == |readings|
    ensures Attempts(b, readings) == n
    decreases n
  {
    if n > 1 {
      assert !Granted(b, AttemptsAt(readings), 0);
      forall i | 0 <= i < n - 1
        ensures Granted(Take(b, readings[0]), AttemptsAt(readings[1..]), i) == Granted(b, AttemptsAt(readings), i + 1)
      {
        AfterTail(b, readings, i);
      }
      AttemptsIsFirstGrant(Take(b, readings[0]), readings[1..], n - 1);
    }
  }

  lemma {:induction false} AfterTail(b: Bucket, readings: seq<int>, i: nat)
    requires i < |readings|
    ensures After(Take(b, readings[0]), AttemptsAt(readings[1..]), i) == After(b, AttemptsAt(readings), i + 1)
  {
    if i > 0 {
      AfterTail(b, readings, i - 1);
    }
  }

  // ----- What a send promises ----------------------------------------------

  /** On success, and when everybody is suppressed, the receipt accounts for every recipient exactly
      once: those marked sent are the envelope in order, those marked suppressed are the ones on the
      list. Every other error comes with an empty receipt. */
  lemma SendConservesRecipients(cfg: Config, keys: set<string>, st: Shared, msg: Message, w: World)
    requires |w.up| == |Everyone(msg)| && |w.readings| > 0
    ensures var out := SendSpec(cfg, keys, st, msg, w).1;
            var rs := out.receipt.recipients;
            && (out.err.None? || out.err == Some(EverybodySuppressed) ==>
                  && multiset(Untagged(rs)) == multiset(Emails(Everyone(msg)))
                  && InState(rs, Suppressed, |rs|) == HeldEmails(msg, Hits(keys, Everyone(msg))))
            && (out.err.None? ==> out.call.Some? && InState(rs, Sent, |rs|) == Envelope(out.call.value.destination))
            && (out.err == Some(EverybodySuppressed) ==> out.call.None? && InState(rs, Sent, |rs|) == [])
            && (out.err.Some? && out.err != Some(EverybodySuppressed) ==> out.receipt == NO_RECEIPT)
  {
    hide HeldEmails, DestinationOf, Lookup, Record, IsSuccess, SenderDomain, Attempts, After, Hits, Everyone, Emails, Envelope, InState,
         NobodyLeft, Untagged, Granted, Tagged;
    var hits := Hits(keys, Everyone(msg));
    HitsLength(keys, Everyone(msg));
    ReceiptsConserve(msg, hits, w.sentAt, None);
    ReceiptAccounts(msg, hits, w.sentAt, None);
    if w.sesReply.Accepted? {
      ReceiptsConserve(msg, hits, w.sentAt, w.sesReply.messageId);
      ReceiptAccounts(msg, hits, w.sentAt, w.sesReply.messageId);
    }
  }

  lemma HitsLength(keys: set<string>, addrs: seq<Address>)
    ensures |Hits(keys, addrs)| == |addrs|
  {}

  /** The envelope of a send holds no address on the list and every address that is not. */
  lemma SendHonoursTheList(cfg: Config, keys: set<string>, st: Shared, msg: Message, w: World)
    requires |w.up| == |Everyone(msg)| && |w.readings| > 0
    requires SendSpec(cfg, keys, st, msg, w).1.call.Some?
    ensures var envelope := Envelope(SendSpec(cfg, keys, st, msg, w).1.call.value.destination);
            && (forall e :: e in envelope ==> Normalize(e) !in keys)
            && (forall a :: a in Everyone(msg) && Normalize(a.email) !in keys ==> a.email in envelope)
  {
    hide Normalize, Gate, Attempts, After, NobodyLeft;
    var hits := Hits(keys, Everyone(msg));
    forall e | e in Envelope(DestinationOf(msg, hits))
      ensures Normalize(e) !in keys
    {
      var i := EnvelopeIsUnmarked(msg, hits, e);
    }
    forall a | a in Everyone(msg) && Normalize(a.email) !in keys
      ensures a.email in Envelope(DestinationOf(msg, hits))
    {
      var i :| 0 <= i < |hits| && Everyone(msg)[i] == a;
      UnmarkedIsEnveloped(msg, hits, i);
    }
  }

  /** The call carries the message's own sender and body, and the message's configuration set, or
      failing that the backend's. */
  lemma CallSpelledOut(cfg: Config, keys: set<string>, st: Shared, msg: Message, w: World)
    requires |w.up| == |Everyone(msg)| && |w.readings| > 0
    ensures var call := SendSpec(cfg, keys, st, msg, w).1.call;
            call.Some? ==>
              && call.value.from == msg.from && call.value.mimeBody == msg.mimeBody
              && call.value.configurationSet == if msg.configurationSet != "" then Some(msg.configurationSet)
                                                else if cfg.configurationSet != "" then Some(cfg.configurationSet)
                                                else None
  {
    hide Gate, NobodyLeft, Attempts, After, Granted, Hits, DestinationOf, SentReceipt;
  }

  /** A success has called SES and been accepted, and its receipt carries SES's id, the name of the
      backend and the time of the send. */
  lemma ReceiptSpelledOut(cfg: Config, keys: set<string>, st: Shared, msg: Message, w: World)
    requires |w.up| == |Everyone(msg)| && |w.readings| > 0
    ensures var out := SendSpec(cfg, keys, st, msg, w).1;
            && (out.err.None? ==>
                  && out.call.Some? && w.sesReply.Accepted?
                  && out.receipt.messageId == (if w.sesReply.messageId.Some? then w.sesReply.messageId.value else "")
                  && out.receipt.backend == "ses" && out.receipt.sentAt == w.sentAt)
            && (out.call.Some? ==> (out.err.None? <==> w.sesReply.Accepted?))
            && (out.err == Some(EverybodySuppressed) ==>
                  out.receipt.messageId == "" && out.receipt.backend == "ses" && out.receipt.sentAt == w.sentAt)
  {
    hide NobodyLeft, Attempts, After, Granted, Hits, DestinationOf, HeldEmails, Lookup, Record, IsSuccess, SenderDomain;
  }

  /** The gate lets a message through when it is off, or on the fresh verdict of the cache about the
      sender's domain, or on SES's SUCCESS. */
  ghost predicate PassesGate(cfg: Config, cache: Cache, msg: Message, w: World) {
    var domain := SenderDomain(msg.from.email);
    || !cfg.requireVerified
    || (domain != "" && if domain in cache && w.gateNow < cache[domain].expiry then cache[domain].verified
                        else w.gateReply == Dkim("SUCCESS"))
  }

  lemma GateSpelledOut(cfg: Config, cache: Cache, msg: Message, w: World)
    ensures PassesGate(cfg, cache, msg, w) <==>
            || !cfg.requireVerified
            || (SenderDomain(msg.from.email) != ""
                && if SenderDomain(msg.from.email) in cache && w.gateNow < cache[SenderDomain(msg.from.email)].expiry then
                     cache[SenderDomain(msg.from.email)].verified
                   else w.gateReply == Dkim("SUCCESS"))
    ensures var (refusal, cache') := Gate(cfg, cache, msg, w);
            var domain := SenderDomain(msg.from.email);
            var hit := domain in cache && w.gateNow < cache[domain].expiry;
            && refusal == (if PassesGate(cfg, cache, msg, w) then None
                           else if domain == "" then Some(NoSenderDomain)
                           else if !hit && w.gateReply == ApiError then Some(VerifyFailed)
                           else Some(Unverified))
            && cache' == if !cfg.requireVerified || domain == "" || hit || w.gateReply == ApiError then cache
                         else cache[domain := VerifyEntry(w.gateReply == Dkim("SUCCESS"), w.gateLater + 60000000000)]
  {
    VerifyCache.SuccessSpelledOut(w.gateReply);
    hide SenderDomain;
  }

  /** Which error a send returns, and in which order its reasons are considered: a failed lookup,
      everybody listed, the gate, the limiter, SES. */
  lemma ErrorSpelledOut(cfg: Config, keys: set<string>, st: Shared, msg: Message, w: World)
    requires |w.up| == |Everyone(msg)| && |w.readings| > 0
    ensures var err := SendSpec(cfg, keys, st, msg, w).1.err;
            var refusal := Gate(cfg, st.cache, msg, w).0;
            var listed := forall a :: a in msg.to + msg.cc + msg.bcc ==> Normalize(a.email) in keys;
            var granted := exists i :: 0 <= i < |w.readings| && Granted(st.bucket, AttemptsAt(w.readings), i);
            err == if false in w.up then Some(ListFailed(Suppression.DatabaseFailure))
                   else if listed then Some(EverybodySuppressed)
                   else if !PassesGate(cfg, st.cache, msg, w) then refusal
                   else if !granted then Some(Cancelled)
                   else if w.sesReply.Refused? then Some(SesRejected)
                   else None
  {
    hide Normalize, SenderDomain, Gate, Lookup, NobodyLeft, DestinationOf, SentReceipt, SuppressedReceipt, After, Granted, Accrual;
    var hits := Hits(keys, Everyone(msg));
    NobodyLeftIffAllHeld(msg, hits);
    ListedIffAllHits(keys, msg.to + msg.cc + msg.bcc);
    GateSpelledOut(cfg, st.cache, msg, w);
    RefusedUntilLast(st.bucket, w.readings);
    LastAttemptDecides(st.bucket, w.readings);
  }

  lemma ListedIffAllHits(keys: set<string>, addrs: seq<Address>)
    ensures (forall a :: a in addrs ==> Normalize(a.email) in keys) <==>
            forall i :: 0 <= i < |Hits(keys, addrs)| ==> Hits(keys, addrs)[i]
  {
    hide Normalize;
    if forall i :: 0 <= i < |Hits(keys, addrs)| ==> Hits(keys, addrs)[i] {
      forall a | a in addrs
        ensures Normalize(a.email) in keys
      {
        var i :| 0 <= i < |addrs| && addrs[i] == a;
        assert Hits(keys, addrs)[i];
      }
    }
  }

  /** A waiter obtains a token at its last attempt, or at none of its readings. */
  lemma {:induction false} LastAttemptDecides(b: Bucket, readings: seq<int>)
    requires |readings| > 0
    ensures Granted(b, AttemptsAt(readings), Attempts(b, readings) - 1) <==>
            exists i :: 0 <= i < |readings| && Granted(b, AttemptsAt(readings), i)
    decreases |readings|
  {
    hide Accrual, Refill;
    var n := Attempts(b, readings);
    RefusedUntilLast(b, readings);
    if !Granted(b, AttemptsAt(readings), n - 1) {
      AllWereTried(b, readings);
    }
  }

  lemma {:induction false} AllWereTried(b: Bucket, readings: seq<int>)
    requires |readings| > 0 && !Granted(b, AttemptsAt(readings), Attempts(b, readings) - 1)
    ensures Attempts(b, readings) == |readings|
    decreases |readings|
  {
    hide Accrual, Refill;
    if |readings| > 1 && !Admits(b, readings[0]) {
      AfterTail(b, readings, Attempts(b, readings) - 2);
      AllWereTried(Take(b, readings[0]), readings[1..]);
    }
  }

  /** A send calls SES exactly when it took a token, and takes at most one. */
  lemma SendTakesOneToken(cfg: Config, keys: set<string>, st: Shared, msg: Message, w: World)
    requires |w.up| == |Everyone(msg)| && |w.readings| > 0
    ensures var (st', out) := SendSpec(cfg, keys, st, msg, w);
            var ops, n := AttemptsAt(w.readings), Attempts(st.bucket, w.readings);
            && (out.call.Some? ==> st'.bucket == After(st.bucket, ops, n) && Count(Decisions(st.bucket, ops), 0, n) == 1)
            && (out.call.None? ==> st'.bucket == st.bucket ||
                                   (st'.bucket == After(st.bucket, ops, n) && Count(Decisions(st.bucket, ops), 0, n) == 0))
  {
    hide Gate, NobodyLeft, DestinationOf, Accrual;
    var ops, n := AttemptsAt(w.readings), Attempts(st.bucket, w.readings);
    RefusedUntilLast(st.bucket, w.readings);
    NoneCounted(Decisions(st.bucket, ops), n - 1);
  }

  lemma {:induction false} RefusedUntilLast(b: Bucket, readings: seq<int>)
    requires |readings| > 0
    ensures forall i :: 0 <= i < Attempts(b, readings) - 1 ==> !Granted(b, AttemptsAt(readings), i)
    decreases |readings|
  {
    hide Accrual;
    if |readings| > 1 && !Admits(b, readings[0]) {
      var b', rest := Take(b, readings[0]), readings[1..];
      RefusedUntilLast(b', rest);
      assert !Granted(b, AttemptsAt(readings), 0);
      forall i | 0 < i < Attempts(b, readings) - 1
        ensures !Granted(b, AttemptsAt(readings), i)
      {
        assert !Granted(b', AttemptsAt(rest), i - 1);
        AfterTail(b, readings, i - 1);
      }
    }
  }

  lemma {:induction false} NoneCounted(ds: seq<bool>, n: nat)
    requires n <= |ds| && forall i :: 0 <= i < n ==> !ds[i]
    ensures Count(ds, 0, n) == 0
  {
    if n > 0 {
      NoneCounted(ds, n - 1);
    }
  }

  // ----- Runs of sends -----------------------------------------------------

  /** A world whose clock readings suit a limiter last used at `last`. */
  predicate Usable(last: int, msg: Message, w: World) {
    && |w.up| == |Everyone(msg)| && |w.readings| > 0
    && (forall i :: 0 <= i < |w.readings| ==> last <= w.readings[i])
    && (forall i, j :: 0 <= i <= j < |w.readings| ==> w.readings[i] <= w.readings[j])
  }

  /** Successive worlds of a batch: no clock reading goes backwards. */
  predicate UsableAll(last: int, msgs: seq<Message>, ws: seq<World>) {
    && |ws| == |msgs|
    && (forall i :: 0 <= i < |ws| ==> Usable(last, msgs[i], ws[i]))
    && (forall i, j, p, q :: 0 <= i < j < |ws| && 0 <= p < |ws[i].readings| && 0 <= q < |ws[j].readings| ==>
          ws[i].readings[p] <= ws[j].readings[q])
  }

  /** The outcomes of the first messages of a batch, and the states before and after each: every
      message is sent in the state that the one before it left. */
  ghost predicate IsBatch(cfg: Config, keys: set<string>, msgs: seq<Message>, ws: seq<World>, states: seq<Shared>, outs: seq<Outcome>) {
    && |outs| <= |msgs| == |ws| && |states| == |outs| + 1
    && forall i :: 0 <= i < |outs| ==>
         && |ws[i].up| == |Everyone(msgs[i])| && |ws[i].readings| > 0
         && states[i + 1] == SendSpec(cfg, keys, states[i], msgs[i], ws[i]).0
         && outs[i] == SendSpec(cfg, keys, states[i], msgs[i], ws[i]).1
  }

  /** The first failure among the outcomes, or None when there is none. */
  ghost predicate IsFirstFailure(outs: seq<Outcome>, err: Option<SendError>) {
    if err.None? then forall i :: 0 <= i < |outs| ==> outs[i].err.None?
    else exists i :: 0 <= i < |outs| && outs[i].err == err && forall j :: 0 <= j < i ==> outs[j].err.None?
  }

  /** A message of a batch that fails leaves no status for any of its recipients, unless it failed
      because everybody was suppressed: its error is in the error result or nowhere. */
  lemma FailedMessagesLeaveNoStatus(cfg: Config, keys: set<string>, msgs: seq<Message>, ws: seq<World>, states: seq<Shared>,
                                    outs: seq<Outcome>, i: nat)
    requires IsBatch(cfg, keys, msgs, ws, states, outs) && i < |outs|
    ensures var out := outs[i];
            && (out.err.Some? && out.err != Some(EverybodySuppressed) ==> out.receipt.recipients == [])
            && (out.err == Some(EverybodySuppressed) ==>
                  InState(out.receipt.recipients, Sent, |out.receipt.recipients|) == [])
  {
    hide SendSpec, InState;
    SendConservesRecipients(cfg, keys, states[i], msgs[i], ws[i]);
  }

  /** Whatever became of the messages before it, a message of a batch is sent exactly if the lists
      answered, somebody is left, the gate passes it, a token was obtained and SES accepted it. */
  lemma EarlierFailuresDoNotMatter(cfg: Config, keys: set<string>, msgs: seq<Message>, ws: seq<World>, states: seq<Shared>,
                                   outs: seq<Outcome>, i: nat)
    requires IsBatch(cfg, keys, msgs, ws, states, outs) && i < |outs|
    ensures outs[i].err.None? <==>
            && false !in ws[i].up
            && !(forall a :: a in msgs[i].to + msgs[i].cc + msgs[i].bcc ==> Normalize(a.email) in keys)
            && PassesGate(cfg, states[i].cache, msgs[i], ws[i])
            && (exists p :: 0 <= p < |ws[i].readings| && Granted(states[i].bucket, AttemptsAt(ws[i].readings), p))
            && ws[i].sesReply.Accepted?
    ensures outs[i].err.None? ==> multiset(Untagged(outs[i].receipt.recipients)) == multiset(Emails(Everyone(msgs[i])))
  {
    hide Granted, Normalize, SendSpec, PassesGate, Gate, Untagged, Emails;
    assert outs[i] == SendSpec(cfg, keys, states[i], msgs[i], ws[i]).1;
    SendConservesRecipients(cfg, keys, states[i], msgs[i], ws[i]);
    ErrorSpelledOut(cfg, keys, states[i], msgs[i], ws[i]);
    GateRefusesOrPasses(cfg, states[i].cache, msgs[i], ws[i]);
  }

  lemma GateRefusesOrPasses(cfg: Config, cache: Cache, msg: Message, w: World)
    ensures Gate(cfg, cache, msg, w).0.None? <==> PassesGate(cfg, cache, msg, w)
  {
    GateSpelledOut(cfg, cache, msg, w);
    hide Gate, PassesGate;
  }

  lemma SendAdvancesClock(cfg: Config, keys: set<string>, st: Shared, msg: Message, w: World)
    requires BucketSpec.Valid(st.bucket) && Usable(st.bucket.last, msg, w)
    ensures var b := SendSpec(cfg, keys, st, msg, w).0.bucket;
            && BucketSpec.Valid(b)
            && (b.last == st.bucket.last || exists p :: 0 <= p < |w.readings| && b.last == w.readings[p])
  {
    hide Gate, NobodyLeft, Everyone, Hits, After, Accrual, Attempts, Granted, BucketSpec.Valid;
    var n := Attempts(st.bucket, w.readings);
    AfterKeepsValid(st.bucket, AttemptsAt(w.readings), n);
    assert AttemptsAt(w.readings)[n - 1].at == w.readings[n - 1];
  }

  lemma {:induction false} ClockStaysBehind(cfg: Config, keys: set<string>, msgs: seq<Message>, ws: seq<World>,
                                            states: seq<Shared>, outs: seq<Outcome>, i: nat, j: nat)
    requires IsBatch(cfg, keys, msgs, ws, states, outs) && i <= |outs| && i <= j < |msgs|
    requires BucketSpec.Valid(states[0].bucket) && UsableAll(states[0].bucket.last, msgs, ws)
    ensures BucketSpec.Valid(states[i].bucket) && Usable(states[i].bucket.last, msgs[j], ws[j])
    decreases i
  {
    hide SendSpec, BucketSpec.Valid;
    if i > 0 {
      ClockStaysBehind(cfg, keys, msgs, ws, states, outs, i - 1, i - 1);
      ClockStaysBehind(cfg, keys, msgs, ws, states, outs, i - 1, j);
      SendAdvancesClock(cfg, keys, states[i - 1], msgs[i - 1], ws[i - 1]);
    }
  }

  lemma BatchStaysUsable(cfg: Config, keys: set<string>, msgs: seq<Message>, ws: seq<World>, states: seq<Shared>, outs: seq<Outcome>)
    requires IsBatch(cfg, keys, msgs, ws, states, outs) && |outs| < |msgs|
    requires BucketSpec.Valid(states[0].bucket) && UsableAll(states[0].bucket.last, msgs, ws)
    ensures Usable(states[|outs|].bucket.last, msgs[|outs|], ws[|outs|])
    ensures |ws[|outs|].up| == |Everyone(msgs[|outs|])| && |ws[|outs|].readings| > 0
  {
    ClockStaysBehind(cfg, keys, msgs, ws, states, outs, |outs|, |outs|);
  }

  // ----- The sender --------------------------------------------------------

  class Sender {
    const cfg: Config
    const suppression: Suppression.SQLSuppressionList
    const identity: Identity.IdentityManager
    const rateLimiter: RateLimit.TokenBucket

    ghost predicate Valid()
      reads this, suppression, rateLimiter
    {
      suppression.Valid() && rateLimiter.Valid()
    }

    ghost function Keys(): set<string>
      reads this, suppression
      requires suppression.Valid()
    {
      Suppression.View(suppression.rows).Keys
    }

    ghost function State(): Shared
      reads this, rateLimiter, identity
    {
      Shared(rateLimiter.State(), identity.verifiedCache)
    }

    constructor (cfg: Config, suppression: Suppression.SQLSuppressionList, identity: Identity.IdentityManager,
                 rateLimiter: RateLimit.TokenBucket)
      requires suppression.Valid() && rateLimiter.Valid()
      ensures this.cfg == cfg && this.suppression == suppression && this.identity == identity && this.rateLimiter == rateLimiter
      ensures Valid()
    {
      this.cfg := cfg;
      this.suppression := suppression;
      this.identity := identity;
      this.rateLimiter := rateLimiter;
    }

    method FilterSuppressed(addrs: seq<Address>, up: seq<bool>)
      returns (allowed: seq<Address>, suppressed: seq<string>, err: Option<Suppression.Error>)
      requires suppression.Valid() && |up| == |addrs|
      ensures err.Some? <==> false in up
      ensures err.Some? ==> err == Some(Suppression.DatabaseFailure) && allowed == [] && suppressed == []
      ensures err.None? ==>
                && allowed == Allowed(addrs, Hits(Keys(), addrs))
                && suppressed == Held(addrs, Hits(Keys(), addrs))
    {
      hide Normalize, Suppression.View, Suppression.PrimaryKey, Suppression.SqlStep;
      allowed, suppressed, err := [], [], None;
      ghost var hits := Hits(Keys(), addrs);
      for i := 0 to |addrs|
        invariant false !in up[..i] && err.None?
        invariant allowed == AllowedOf(addrs, hits, i)
        invariant suppressed == HeldOf(addrs, hits, i)
      {
        var ok, _, e := suppression.IsSuppressed(addrs[i].email, up[i]);
        if e.Some? {
          assert up[i] == false;
          return [], [], e;
        }
        if ok {
          suppressed := suppressed + [addrs[i].email];
        } else {
          allowed := allowed + [addrs[i]];
        }
        assert up[..i + 1] == up[..i] + [up[i]];
      }
      assert up[..|addrs|] == up;
    }

    /** `addrEmails`. */
    method AddrEmails(addrs: seq<Address>) returns (out: array<string>)
      ensures fresh(out) && out[..] == Emails(addrs)
    {
      out := new string[|addrs|](_ => "");
      for i := 0 to |addrs|
        invariant out[..i] == Emails(addrs)[..i]
      {
        out[i] := addrs[i].email;
        assert out[..i + 1] == out[..i] + [addrs[i].email];
      }
      assert out[..] == out[..|addrs|] && Emails(addrs)[..|addrs|] == Emails(addrs);
    }

    /** Appends one status per email. */
    method Append(recipients: seq<RecipientStatus>, emails: seq<string>, state: RecipientState)
      returns (all: seq<RecipientStatus>)
      ensures all == recipients + Tagged(emails, state)
    {
      all := recipients;
      for i := 0 to |emails|
        invariant all == recipients + Tagged(emails, state)[..i]
      {
        all := all + [RecipientStatus(emails[i], state)];
      }
    }

    /** Appends the statuses of the three address sets. */
    method AppendAll(recipients: seq<RecipientStatus>, a: seq<string>, b: seq<string>, c: seq<string>, state: RecipientState)
      returns (all: seq<RecipientStatus>)
      ensures all == recipients + Tagged(a + b + c, state)
    {
      TaggedConcat(a, b, c, state);
      hide Tagged;
      all := Append(recipients, a, state);
      all := Append(all, b, state);
      all := Append(all, c, state);
    }

    /** The send gate; None lets the message through. */
    method CheckSender(msg: Message, w: World) returns (refusal: Option<SendError>)
      modifies identity`verifiedCache
      ensures (refusal, identity.verifiedCache) == Gate(cfg, old(identity.verifiedCache), msg, w)
    {
      if !cfg.requireVerified {
        return None;
      }
      var domain := SenderDomain(msg.from.email);
      if domain == "" {
        return Some(NoSenderDomain);
      }
      var verdict := identity.IsVerified(domain, w.gateNow, w.gateReply, w.gateLater);
      if verdict.None? {
        return Some(VerifyFailed);
      }
      return if verdict.value then None else Some(Unverified);
    }

    /** The three filters, and the statuses of everybody they hold back. */
    method Partition(msg: Message, up: seq<bool>, ghost hits: seq<bool>)
      returns (to: seq<Address>, cc: seq<Address>, bcc: seq<Address>, recipients: seq<RecipientStatus>,
               err: Option<Suppression.Error>)
      requires suppression.Valid() && |up| == |Everyone(msg)| && hits == Hits(Keys(), Everyone(msg))
      ensures err == if false in up then Some(Suppression.DatabaseFailure) else None
      ensures err.None? ==>
                && to == Allowed(msg.to, ToHits(msg, hits))
                && cc == Allowed(msg.cc, CcHits(msg, hits))
                && bcc == Allowed(msg.bcc, BccHits(msg, hits))
                && recipients == Tagged(HeldEmails(msg, hits), Suppressed)
    {
      var n, m := |msg.to|, |msg.to| + |msg.cc|;
      SplitLookups(Keys(), msg, up);
      cc, bcc, recipients := [], [], [];
      var heldTo, heldCc, heldBcc;
      to, heldTo, err := FilterSuppressed(msg.to, up[..n]);
      if err.Some? {
        return;
      }
      cc, heldCc, err := FilterSuppressed(msg.cc, up[n..m]);
      if err.Some? {
        return;
      }
      bcc, heldBcc, err := FilterSuppressed(msg.bcc, up[m..]);
      if err.Some? {
        return;
      }
      recipients := AppendAll([], heldTo, heldCc, heldBcc, Suppressed);
    }

    /** Waits for a token. */
    method Acquire(readings: seq<int>) returns (granted: bool)
      requires rateLimiter.Valid() && |readings| > 0 && Timely(rateLimiter.State(), AttemptsAt(readings))
      modifies rateLimiter`tokens, rateLimiter`lastTime
      ensures rateLimiter.Valid()
      ensures var b, ops := old(rateLimiter.State()), AttemptsAt(readings);
              var n := Attempts(b, readings);
              rateLimiter.State() == After(b, ops, n) && granted == Granted(b, ops, n - 1)
    {
      var attempts, sleeps;
      granted, attempts, sleeps := rateLimiter.Wait(readings);
      AttemptsIsFirstGrant(old(rateLimiter.State()), readings, attempts);
    }

    /** Calls `SendEmail` and completes the receipt. */
    method Submit(msg: Message, w: World, ghost hits: seq<bool>, to: seq<Address>, cc: seq<Address>, bcc: seq<Address>,
                  held: seq<RecipientStatus>)
      returns (receipt: Receipt, err: Option<SendError>, call: EmailCall)
      requires |hits| == |Everyone(msg)|
      requires to == Allowed(msg.to, ToHits(msg, hits)) && cc == Allowed(msg.cc, CcHits(msg, hits))
      requires bcc == Allowed(msg.bcc, BccHits(msg, hits)) && held == Tagged(HeldEmails(msg, hits), Suppressed)
      ensures call == CallFor(cfg, msg, hits)
      ensures w.sesReply.Refused? ==> receipt == NO_RECEIPT && err == Some(SesRejected)
      ensures w.sesReply.Accepted? ==>
                receipt == SentReceipt(msg, hits, w.sentAt, w.sesReply.messageId) && err.None?
    {
      var toEmails := AddrEmails(to);
      var ccEmails := AddrEmails(cc);
      var bccEmails := AddrEmails(bcc);
      var chosen := None;
      if msg.configurationSet != "" {
        chosen := Some(msg.configurationSet);
      } else if cfg.configurationSet != "" {
        chosen := Some(cfg.configurationSet);
      }
      call := EmailCall(msg.from, Destination(toEmails[..], ccEmails[..], bccEmails[..]), msg.mimeBody, chosen);
      if w.sesReply.Refused? {
        return NO_RECEIPT, Some(SesRejected), call;
      }
      var recipients := AppendAll(held, Emails(to), Emails(cc), Emails(bcc), Sent);
      receipt := Receipt("", "ses", w.sentAt, recipients);
      if w.sesReply.messageId.Some? {
        receipt := receipt.(messageId := w.sesReply.messageId.value);
      }
      err := None;
    }

    method Send(msg: Message, w: World) returns (receipt: Receipt, err: Option<SendError>, call: Option<EmailCall>)
      requires Valid() && Usable(rateLimiter.lastTime, msg, w)
      modifies rateLimiter`tokens, rateLimiter`lastTime, identity`verifiedCache
      ensures Valid()
      ensures (State(), Outcome(receipt, err, call)) == SendSpec(cfg, old(Keys()), old(State()), msg, w)
      ensures call.Some? ==>
                && call.value.from == msg.from && call.value.mimeBody == msg.mimeBody
                && call.value.configurationSet == if msg.configurationSet != "" then Some(msg.configurationSet)
                                                  else if cfg.configurationSet != "" then Some(cfg.configurationSet)
                                                  else None
      ensures err.None? ==>
                && call.Some? && w.sesReply.Accepted?
                && receipt.messageId == (if w.sesReply.messageId.Some? then w.sesReply.messageId.value else "")
                && receipt.backend == "ses" && receipt.sentAt == w.sentAt
    {
      CallSpelledOut(cfg, Keys(), State(), msg, w);
      ReceiptSpelledOut(cfg, Keys(), State(), msg, w);
      ghost var hits := Hits(Keys(), Everyone(msg));
      receipt, err, call := NO_RECEIPT, None, None;
      var to, cc, bcc, held, failure := Partition(msg, w.up, hits);
      if failure.Some? {
        err := Some(ListFailed(failure.value));
        return;
      }
      if |to| + |cc| + |bcc| == 0 {
        receipt := Receipt("", "ses", w.sentAt, held);
        err := Some(EverybodySuppressed);
        return;
      }
      err := CheckSender(msg, w);
      if err.Some? {
        return;
      }
      var granted := Acquire(w.readings);
      if !granted {
        err := Some(Cancelled);
        return;
      }
      var made;
      receipt, err, made := Submit(msg, w, hits, to, cc, bcc, held);
      call := Some(made);
    }

    /** Sends every message in turn, whatever became of the earlier ones: message `i` has the
        outcome of a single `Send` in the state that the messages before it left. */
    method SendBatch(msgs: seq<Message>, ws: seq<World>)
      returns (receipts: array<Receipt>, firstErr: Option<SendError>, ghost outs: seq<Outcome>, ghost states: seq<Shared>)
      requires Valid() && UsableAll(rateLimiter.lastTime, msgs, ws)
      modifies rateLimiter`tokens, rateLimiter`lastTime, identity`verifiedCache
      ensures Valid() && fresh(receipts) && receipts.Length == |msgs| == |outs| == |states| - 1
      ensures states[0] == old(State()) && State() == states[|msgs|]
      ensures forall i :: 0 <= i < |msgs| ==>
                && |ws[i].up| == |Everyone(msgs[i])| && |ws[i].readings| > 0
                && (states[i + 1], outs[i]) == SendSpec(cfg, old(Keys()), states[i], msgs[i], ws[i])
      ensures forall i :: 0 <= i < |msgs| ==> receipts[i] == outs[i].receipt
      ensures firstErr.None? <==> forall i :: 0 <= i < |msgs| ==> outs[i].err.None?
      ensures firstErr.Some? ==>
                exists i :: 0 <= i < |msgs| && outs[i].err == firstErr && forall j :: 0 <= j < i ==> outs[j].err.None?
    {
      hide SendSpec, Usable, IsBatch, IsFirstFailure;
      ghost var keys := Keys();
      receipts := new Receipt[|msgs|](_ => NO_RECEIPT);
      firstErr, outs, states := None, [], [State()];
      EmptyBatch(cfg, keys, State(), msgs, ws);
      for i := 0 to |msgs|
        invariant Valid() && Keys() == keys && fresh(receipts)
        invariant |outs| == i == |states| - 1 && IsBatch(cfg, keys, msgs, ws, states, outs)
        invariant states[0] == old(State()) && State() == states[i]
        invariant forall j :: 0 <= j < i ==> receipts[j] == outs[j].receipt
        invariant IsFirstFailure(outs, firstErr)
      {
        BatchStaysUsable(cfg, keys, msgs, ws, states, outs);
        var receipt, err, call := Send(msgs[i], ws[i]);
        OneMoreMessage(cfg, keys, msgs, ws, states, outs, State(), Outcome(receipt, err, call), firstErr);
        receipts[i] := receipt;
        outs, states := outs + [Outcome(receipt, err, call)], states + [State()];
        if err.Some? && firstErr.None? {
          firstErr := err;
        }
      }
      WholeBatch(cfg, keys, msgs, ws, states, outs, firstErr);
    }
  }

  lemma EmptyBatch(cfg: Config, keys: set<string>, st: Shared, msgs: seq<Message>, ws: seq<World>)
    requires |ws| == |msgs|
    ensures IsBatch(cfg, keys, msgs, ws, [st], []) && IsFirstFailure([], None)
  {}

  lemma OneMoreMessage(cfg: Config, keys: set<string>, msgs: seq<Message>, ws: seq<World>, states: seq<Shared>,
                       outs: seq<Outcome>, st: Shared, out: Outcome, err: Option<SendError>)
    requires IsBatch(cfg, keys, msgs, ws, states, outs) && |outs| < |msgs|
    requires |ws[|outs|].up| == |Everyone(msgs[|outs|])| && |ws[|outs|].readings| > 0
    requires (st, out) == SendSpec(cfg, keys, states[|outs|], msgs[|outs|], ws[|outs|])
    ensures IsBatch(cfg, keys, msgs, ws, states + [st], outs + [out])
    ensures IsFirstFailure(outs, err) ==> IsFirstFailure(outs + [out], if err.None? then out.err else err)
  {
    hide SendSpec;
    if IsFirstFailure(outs, err) && err.Some? {
      var i :| 0 <= i < |outs| && outs[i].err == err && forall j :: 0 <= j < i ==> outs[j].err.None?;
      assert (outs + [out])[i].err == err;
    } else if out.err.Some? {
      assert (outs + [out])[|outs|] == out;
    }
  }

  lemma WholeBatch(cfg: Config, keys: set<string>, msgs: seq<Message>, ws: seq<World>, states: seq<Shared>,
                   outs: seq<Outcome>, err: Option<SendError>)
    requires IsBatch(cfg, keys, msgs, ws, states, outs) && IsFirstFailure(outs, err)
    ensures |states| == |outs| + 1 <= |msgs| + 1 && |ws| == |msgs|
    ensures forall i :: 0 <= i < |outs| ==>
              && |ws[i].up| == |Everyone(msgs[i])| && |ws[i].readings| > 0
              && (states[i + 1], outs[i]) == SendSpec(cfg, keys, states[i], msgs[i], ws[i])
    ensures err.None? <==> forall i :: 0 <= i < |outs| ==> outs[i].err.None?
    ensures err.Some? ==> exists i :: 0 <= i < |outs| && outs[i].err == err && forall j :: 0 <= j < i ==> outs[j].err.None?
  {
    hide SendSpec;
  }

  lemma TaggedConcat(a: seq<string>, b: seq<string>, c: seq<string>, state: RecipientState)
    ensures Tagged(a + b + c, state) == Tagged(a, state) + Tagged(b, state) + Tagged(c, state)
  {}

  lemma SplitLookups(keys: set<string>, msg: Message, up: seq<bool>)
    requires |up| == |Everyone(msg)|
    ensures var n, m := |msg.to|, |msg.to| + |msg.cc|;
            false in up <==> false in up[..n] || false in up[n..m] || false in up[m..]
    ensures ToHits(msg, Hits(keys, Everyone(msg))) == Hits(keys, msg.to)
    ensures CcHits(msg, Hits(keys, Everyone(msg))) == Hits(keys, msg.cc)
    ensures BccHits(msg, Hits(keys, Everyone(msg))) == Hits(keys, msg.bcc)
  {
    var n, m := |msg.to|, |msg.to| + |msg.cc|;
    assert up == up[..n] + up[n..m] + up[m..];
  }
}
