/** The SES sender under concurrency: any number of `Send` calls and of direct `IsVerified`
    calls, the webhook's and the operators' changes to the suppression list, and readers of the
    rate limiter, interleaved in any way. Every lookup, every lock-protected section and every
    completed SES call is one event. */
module Engine {
  import opened Text
  import opened Wrappers
  import opened Delivery
  import opened BucketSpec
  import opened VerifyCache
  import opened SesSend
  import Suppression

  datatype Task = Mail(msg: Message) | Probe(domain: string)

  datatype Phase =
    | Filtering                                   // looking up one recipient after another
    | Gating(domain: string)                      // about to consult the verification cache
    | Asking(domain: string)                      // the cache missed; SES has been asked
    | Recording(domain: string, verified: bool)   // SES answered; about to record the answer
    | Waiting(tried: bool)                        // in the rate limiter
    | Paid                                        // holds a token; about to call SendEmail
    | Finished(err: Option<SendError>)
    | Answered(verified: bool)                    // a direct IsVerified call has returned
    | Failed                                      // a direct IsVerified call has failed

  /** `hits` are the suppression verdicts obtained so far, one per recipient. */
  datatype Call = Call(task: Task, hits: seq<bool>, phase: Phase)

  datatype State = State(
    cfg: Config,
    list: Suppression.Entries,
    cache: Cache,
    bucket: Bucket,
    calls: map<nat, Call>)

  datatype Event =
    | Begin(call: nat, task: Task)
    | LookUp(call: nat, up: bool)
    | Filtered(call: nat)
    | Consult(call: nat, now: int)
    | Reply(call: nat, reply: StatusReply)
    | Store(call: nat, now: int)
    | TryToken(call: nat, now: int)
    | Cancel(call: nat)
    | SendEmail(call: nat, ok: bool)
    | ListAdd(email: string, reason: string, now: int)
    | ListRemove(email: string)
    | ReadTokens(now: int)

  // ----- Steps -------------------------------------------------------------

  predicate At(s: State, c: nat, phase: Phase) {
    c in s.calls && s.calls[c].phase == phase
  }

  predicate Enabled(s: State, e: Event) {
    match e
    case Begin(c, _) => c !in s.calls
    case LookUp(c, _) =>
      At(s, c, Filtering) && s.calls[c].task.Mail? && |s.calls[c].hits| < |Everyone(s.calls[c].task.msg)|
    case Filtered(c) =>
      At(s, c, Filtering) && s.calls[c].task.Mail? && |s.calls[c].hits| == |Everyone(s.calls[c].task.msg)|
    case Consult(c, _) => c in s.calls && s.calls[c].phase.Gating?
    case Reply(c, _) => c in s.calls && s.calls[c].phase.Asking?
    case Store(c, _) => c in s.calls && s.calls[c].phase.Recording?
    case TryToken(c, now) => c in s.calls && s.calls[c].phase.Waiting? && s.bucket.last <= now
    case Cancel(c) => At(s, c, Waiting(true))
    case SendEmail(c, _) => At(s, c, Paid)
    case ListAdd(_, _, _) => true
    case ListRemove(_) => true
    case ReadTokens(now) => s.bucket.last <= now
  }

  function To(s: State, c: nat, phase: Phase): State
    requires c in s.calls
  {
    s.(calls := s.calls[c := s.calls[c].(phase := phase)])
  }

  /** Where a call goes once the filter has a verdict on everybody. */
  function AfterFilter(cfg: Config, msg: Message, hits: seq<bool>): Phase
    requires |hits| == |Everyone(msg)|
  {
    if NobodyLeft(msg, hits) then Finished(Some(EverybodySuppressed))
    else if !cfg.requireVerified then Waiting(false)
    else if SenderDomain(msg.from.email) == "" then Finished(Some(NoSenderDomain))
    else Gating(SenderDomain(msg.from.email))
  }

  function AfterVerdict(task: Task, verified: bool): Phase {
    if task.Probe? then Answered(verified)
    else if verified then Waiting(false)
    else Finished(Some(Unverified))
  }

  function Apply(s: State, e: Event): State
    requires Enabled(s, e)
  {
    match e
    case Begin(c, task) =>
      s.(calls := s.calls[c := Call(task, [], if task.Mail? then Filtering else Gating(task.domain))])
    case LookUp(c, up) =>
      var call := s.calls[c];
      if !up then To(s, c, Finished(Some(ListFailed(Suppression.DatabaseFailure))))
      else
        var hit := Normalize(Everyone(call.task.msg)[|call.hits|].email) in s.list;
        s.(calls := s.calls[c := call.(hits := call.hits + [hit])])
    case Filtered(c) => To(s, c, AfterFilter(s.cfg, s.calls[c].task.msg, s.calls[c].hits))
    case Consult(c, now) =>
      var domain := s.calls[c].phase.domain;
      match Lookup(s.cache, domain, now) {
        case Some(verified) => To(s, c, AfterVerdict(s.calls[c].task, verified))
        case None => To(s, c, Asking(domain))
      }
    case Reply(c, reply) =>
      var call := s.calls[c];
      if reply.ApiError? then To(s, c, if call.task.Probe? then Failed else Finished(Some(VerifyFailed)))
      else To(s, c, Recording(call.phase.domain, IsSuccess(reply)))
    case Store(c, now) =>
      var p := s.calls[c].phase;
      To(s, c, AfterVerdict(s.calls[c].task, p.verified)).(cache := Record(s.cache, p.domain, p.verified, now))
    case TryToken(c, now) =>
      To(s, c, if Admits(s.bucket, now) then Paid else Waiting(true)).(bucket := Take(s.bucket, now))
    case Cancel(c) => To(s, c, Finished(Some(Cancelled)))
    case SendEmail(c, ok) => To(s, c, Finished(if ok then None else Some(SesRejected)))
    case ListAdd(email, reason, now) =>
      s.(list := Suppression.MemoryStep(s.list, Suppression.Op.Add(email, reason), now).0)
    case ListRemove(email) => s.(list := Suppression.MemoryStep(s.list, Suppression.Op.Remove(email), 0).0)
    case ReadTokens(now) => s.(bucket := Refill(s.bucket, now))
  }

  // ----- Runs --------------------------------------------------------------

  predicate Initial(s: State) {
    && s.calls == map[] && s.cache == map[]
    && 0.0 < s.bucket.rate && s.bucket == Fresh(s.bucket.rate, s.bucket.last)
  }

  ghost predicate Run(tr: seq<State>, es: seq<Event>) {
    && |tr| == |es| + 1
    && Initial(tr[0])
    && forall i :: 0 <= i < |es| ==> Enabled(tr[i], es[i]) && tr[i + 1] == Apply(tr[i], es[i])
  }

  /** What `SendEmail` is called with when call `c` makes it. */
  function EnvelopeOf(s: State, c: nat): Destination
    requires c in s.calls && s.calls[c].task.Mail? && |s.calls[c].hits| == |Everyone(s.calls[c].task.msg)|
  {
    DestinationOf(s.calls[c].task.msg, s.calls[c].hits)
  }

  /** The shape of calls: only mail is filtered, waits and pays, and it does so with a verdict on
      everybody; a mail call asks about its own sender's domain. */
  ghost predicate WellFormed(call: Call) {
    && (call.task.Mail? ==>
          && |call.hits| <= |Everyone(call.task.msg)|
          && (call.phase.Waiting? || call.phase.Paid? || call.phase == Finished(None) ==>
                |call.hits| == |Everyone(call.task.msg)|)
          && (call.phase.Gating? || call.phase.Asking? || call.phase.Recording? ==>
                && |call.hits| == |Everyone(call.task.msg)|
                && call.phase.domain == SenderDomain(call.task.msg.from.email))
          && !call.phase.Answered? && !call.phase.Failed?)
    && (call.task.Probe? ==>
          && !call.phase.Filtering? && !call.phase.Waiting? && !call.phase.Paid? && !call.phase.Finished?
          && (call.phase.Gating? || call.phase.Asking? || call.phase.Recording? ==> call.phase.domain == call.task.domain))
  }

  /** Whether the event is a step of some call, rather than of the list or of a reader. */
  predicate IsCallStep(e: Event) {
    !e.ListAdd? && !e.ListRemove? && !e.ReadTokens?
  }

  /** A step of a call changes that call alone and keeps its task. */
  lemma CallStep(s: State, e: Event)
    requires Enabled(s, e)
    ensures Apply(s, e).cfg == s.cfg
    ensures !IsCallStep(e) ==> Apply(s, e).calls == s.calls
    ensures IsCallStep(e) ==>
              && e.call in Apply(s, e).calls
              && Apply(s, e).calls == s.calls[e.call := Apply(s, e).calls[e.call]]
              && (e.Begin? ==> e.call !in s.calls && Apply(s, e).calls[e.call].task == e.task)
              && (!e.Begin? ==> e.call in s.calls && Apply(s, e).calls[e.call].task == s.calls[e.call].task)
  {
    hide Normalize, SenderDomain, NobodyLeft, Everyone, Lookup, Record, Take, Admits;
  }

  lemma CallStepKeepsShape(s: State, e: Event)
    requires Enabled(s, e) && IsCallStep(e) && (e.call in s.calls ==> WellFormed(s.calls[e.call]))
    ensures WellFormed(Apply(s, e).calls[e.call])
  {
    hide Normalize, SenderDomain, NobodyLeft, Everyone, Lookup, Record, Take, Admits;
  }

  lemma StepKeepsShape(s: State, e: Event)
    requires Enabled(s, e) && forall c :: c in s.calls ==> WellFormed(s.calls[c])
    ensures forall c :: c in Apply(s, e).calls ==> WellFormed(Apply(s, e).calls[c])
    ensures Apply(s, e).cfg == s.cfg && s.calls.Keys <= Apply(s, e).calls.Keys
    ensures forall c :: c in s.calls ==> Apply(s, e).calls[c].task == s.calls[c].task
  {
    CallStep(s, e);
    if IsCallStep(e) {
      CallStepKeepsShape(s, e);
    }
    hide Apply, WellFormed;
  }

  lemma {:induction false} RunKeepsShape(tr: seq<State>, es: seq<Event>, n: nat)
    requires Run(tr, es) && n < |tr|
    ensures tr[n].cfg == tr[0].cfg && forall c :: c in tr[n].calls ==> WellFormed(tr[n].calls[c])
  {
    if n > 0 {
      RunKeepsShape(tr, es, n - 1);
      StepKeepsShape(tr[n - 1], es[n - 1]);
    }
  }

  lemma {:induction false} CallsPersist(tr: seq<State>, es: seq<Event>, i: nat, j: nat, c: nat)
    requires Run(tr, es) && i <= j < |tr| && c in tr[i].calls
    ensures c in tr[j].calls && tr[j].calls[c].task == tr[i].calls[c].task
  {
    if i < j {
      CallsPersist(tr, es, i, j - 1, c);
      RunKeepsShape(tr, es, j - 1);
      StepKeepsShape(tr[j - 1], es[j - 1]);
    }
  }

  // ----- Suppression is honoured -------------------------------------------

  ghost predicate NoRemovalOf(es: seq<Event>, from: nat, to: nat, key: string) {
    forall i :: from <= i < to && i < |es| && es[i].ListRemove? ==> Normalize(es[i].email) != key
  }

  lemma {:induction false} KeyStays(tr: seq<State>, es: seq<Event>, a: nat, i: nat, key: string)
    requires Run(tr, es) && a <= i < |tr| && key in tr[a].list
    requires NoRemovalOf(es, a, i, key)
    ensures key in tr[i].list
  {
    hide Normalize, AfterFilter, AfterVerdict, Take, Lookup, Record;
    if a < i {
      KeyStays(tr, es, a, i - 1, key);
    }
  }

  /** Every verdict the call has on a recipient with this key is `present`. */
  ghost predicate VerdictsAre(call: Call, key: string, present: bool)
    requires call.task.Mail?
  {
    var all := Everyone(call.task.msg);
    forall p :: 0 <= p < |call.hits| && p < |all| && Normalize(all[p].email) == key ==> call.hits[p] == present
  }

  lemma VerdictStep(s: State, e: Event, c: nat, key: string)
    requires Enabled(s, e) && c in s.calls && s.calls[c].task.Mail?
    requires VerdictsAre(s.calls[c], key, key in s.list)
    ensures c in Apply(s, e).calls && Apply(s, e).calls[c].task == s.calls[c].task
    ensures VerdictsAre(Apply(s, e).calls[c], key, key in s.list)
  {
    hide Normalize, AfterFilter, AfterVerdict, Take, Lookup, Record, Everyone, Admits;
  }

  /** If a key is on the list whenever call `c` looks, every verdict `c` has on it is a hit; if it
      never is, every verdict is a miss. */
  lemma {:induction false} VerdictsFollowTheList(tr: seq<State>, es: seq<Event>, b: nat, i: nat, c: nat, key: string, present: bool)
    requires Run(tr, es) && b < i < |tr| && es[b].Begin? && es[b].call == c
    requires forall p :: b <= p < i ==> (key in tr[p].list) == present
    ensures c in tr[i].calls && tr[i].calls[c].task == es[b].task
    ensures tr[i].calls[c].task.Mail? ==> VerdictsAre(tr[i].calls[c], key, present)
  {
    if b + 1 == i {
      hide Normalize, Everyone;
      assert tr[i].calls[c].hits == [];
    } else {
      hide Apply, Enabled, VerdictsAre;
      VerdictsFollowTheList(tr, es, b, i - 1, c, key, present);
      if tr[i - 1].calls[c].task.Mail? {
        VerdictStep(tr[i - 1], es[i - 1], c, key);
      } else {
        CallStep(tr[i - 1], es[i - 1]);
      }
    }
  }

  /** Suppression is honoured across interleavings: once an addition has completed before a `Send`
      begins, and as long as no variant of the address is removed, no variant of it appears in
      what that `Send` hands to SES. */
  lemma SuppressionIsHonoured(tr: seq<State>, es: seq<Event>, a: nat, b: nat, e: nat, c: nat, email: string)
    requires Run(tr, es) && a < b < e < |es|
    requires es[a].ListAdd? && Normalize(es[a].email) == Normalize(email) != ""
    requires es[b].Begin? && es[b].call == c
    requires es[e].SendEmail? && es[e].call == c
    requires NoRemovalOf(es, a + 1, e, Normalize(email))
    ensures WellFormed(tr[e].calls[c]) && tr[e].calls[c].task == es[b].task && tr[e].calls[c].task.Mail?
    ensures forall x :: x in Envelope(EnvelopeOf(tr[e], c)) ==> Normalize(x) != Normalize(email)
  {
    var key := Normalize(email);
    assert key in tr[a + 1].list;
    forall p | b <= p < e
      ensures key in tr[p].list
    {
      KeyStays(tr, es, a + 1, p, key);
    }
    VerdictsFollowTheList(tr, es, b, e, c, key, true);
    RunKeepsShape(tr, es, e);
    hide Normalize, Everyone;
    var call := tr[e].calls[c];
    forall x | x in Envelope(EnvelopeOf(tr[e], c))
      ensures Normalize(x) != key
    {
      var p := EnvelopeIsUnmarked(call.task.msg, call.hits, x);
    }
  }

  /** An address that no variant of is on the list while the `Send` looks is handed to SES, in the
      very set it was addressed in, if `SendEmail` is reached. */
  lemma UnsuppressedIsSent(tr: seq<State>, es: seq<Event>, b: nat, e: nat, c: nat, i: nat)
    requires Run(tr, es) && b < e < |es|
    requires es[b].Begin? && es[b].call == c && es[b].task.Mail? && i < |Everyone(es[b].task.msg)|
    requires es[e].SendEmail? && es[e].call == c
    requires forall p :: b <= p < e ==> Normalize(Everyone(es[b].task.msg)[i].email) !in tr[p].list
    ensures WellFormed(tr[e].calls[c]) && tr[e].calls[c].task == es[b].task
    ensures var d, msg := EnvelopeOf(tr[e], c), es[b].task.msg;
            var email := Everyone(msg)[i].email;
            if i < |msg.to| then email in d.to else if i < |msg.to| + |msg.cc| then email in d.cc else email in d.bcc
  {
    VerdictsFollowTheList(tr, es, b, e, c, Normalize(Everyone(es[b].task.msg)[i].email), false);
    RunKeepsShape(tr, es, e);
    UnmarkedIsEnveloped(es[b].task.msg, tr[e].calls[c].hits, i);
  }

  lemma NewVerdict(s: State, e: Event, c: nat, p: nat)
    requires Enabled(s, e) && c in Apply(s, e).calls && Apply(s, e).calls[c].task.Mail? && p < |Apply(s, e).calls[c].hits|
    ensures c in s.calls && s.calls[c].task == Apply(s, e).calls[c].task
    ensures if p < |s.calls[c].hits| then Apply(s, e).calls[c].hits[p] == s.calls[c].hits[p]
            else
              && e == LookUp(c, true) && |s.calls[c].hits| == p < |Everyone(s.calls[c].task.msg)|
              && Apply(s, e).calls[c].hits[p] == (Normalize(Everyone(s.calls[c].task.msg)[p].email) in s.list)
  {
    hide Normalize, SenderDomain, NobodyLeft, Lookup, Record, Admits, Take, Everyone;
  }

  /** Exactly when a recipient is held back: when its key was on the list at the instant of its own
      lookup, whatever the list holds before and after. */
  lemma {:induction false} EachVerdictIsItsLookup(tr: seq<State>, es: seq<Event>, n: nat, c: nat, p: nat) returns (l: nat)
    requires Run(tr, es) && n < |tr| && c in tr[n].calls && tr[n].calls[c].task.Mail? && p < |tr[n].calls[c].hits|
    ensures l < n && es[l] == LookUp(c, true) && c in tr[l].calls && |tr[l].calls[c].hits| == p
    ensures tr[l].calls[c].task == tr[n].calls[c].task && p < |Everyone(tr[n].calls[c].task.msg)|
    ensures tr[n].calls[c].hits[p] == (Normalize(Everyone(tr[n].calls[c].task.msg)[p].email) in tr[l].list)
  {
    hide Apply, Enabled, Normalize, Everyone;
    NewVerdict(tr[n - 1], es[n - 1], c, p);
    if p < |tr[n - 1].calls[c].hits| {
      l := EachVerdictIsItsLookup(tr, es, n - 1, c, p);
    } else {
      l := n - 1;
    }
  }

  lemma RunExtends(tr: seq<State>, es: seq<Event>, e: Event)
    requires Run(tr, es) && Enabled(tr[|es|], e)
    ensures Run(tr + [Apply(tr[|es|], e)], es + [e])
  {
    hide Apply, Enabled;
  }

  /** A one-recipient message whose filter runs before the address is listed, as far as the wait. */
  lemma ListedWhileWaiting(msg: Message) returns (tr: seq<State>, es: seq<Event>)
    requires |msg.to| == 1 && msg.cc == [] && msg.bcc == [] && Normalize(msg.to[0].email) != ""
    ensures Run(tr, es) && |es| == 4
    ensures var s := tr[4];
            && s.calls == map[0 := Call(Mail(msg), [false], Waiting(false))]
            && s.bucket == Fresh(1.0, 0) && Normalize(msg.to[0].email) in s.list
  {
    hide Normalize, SenderDomain, NobodyLeft, Lookup, Record, Admits, Take;
    var email := msg.to[0].email;
    assert Everyone(msg) == msg.to;
    var s0 := State(Config(false, ""), map[], map[], Fresh(1.0, 0), map[]);
    tr, es := [s0], [];
    assert Run(tr, es);
    hide Run;
    RunExtends(tr, es, Begin(0, Mail(msg)));
    var s1 := Apply(s0, Begin(0, Mail(msg)));
    assert s1.calls == map[0 := Call(Mail(msg), [], Filtering)];
    tr, es := [s0, s1], [Begin(0, Mail(msg))];
    RunExtends(tr, es, LookUp(0, true));
    var s2 := Apply(s1, LookUp(0, true));
    assert s2.calls[0].hits == [false];
    assert s2.calls == map[0 := Call(Mail(msg), [false], Filtering)];
    tr, es := tr + [s2], es + [LookUp(0, true)];
    LoneRecipientIsLeft(msg);
    RunExtends(tr, es, Filtered(0));
    var s3 := Apply(s2, Filtered(0));
    assert s3.calls == map[0 := Call(Mail(msg), [false], Waiting(false))];
    tr, es := tr + [s3], es + [Filtered(0)];
    RunExtends(tr, es, ListAdd(email, "bounce", 0));
    tr, es := tr + [Apply(s3, ListAdd(email, "bounce", 0))], es + [ListAdd(email, "bounce", 0)];
  }

  /** The filter decides before the limiter blocks: an addition that arrives while the `Send` waits
      comes too late, and the address is mailed although it is on the list by then. */
  lemma AdditionsWhileWaitingAreNotSeen(email: string) returns (tr: seq<State>, es: seq<Event>)
    requires Normalize(email) != ""
    ensures Run(tr, es) && |es| == 6 && es[5] == SendEmail(0, true)
    ensures WellFormed(tr[5].calls[0]) && tr[5].calls[0].task.Mail?
    ensures email in Envelope(EnvelopeOf(tr[5], 0)) && Normalize(email) in tr[5].list
  {
    hide Normalize, SenderDomain, NobodyLeft, Lookup, Record, Run, DestinationOf;
    var msg := Message(Address("", ""), [Address("", email)], [], [], [], "");
    tr, es := ListedWhileWaiting(msg);
    RunLength(tr, es);
    var s := tr[4];
    FreshAdmits(1.0, 0);
    RunExtends(tr, es, TryToken(0, 0));
    var paid := Apply(s, TryToken(0, 0));
    tr, es := tr + [paid], es + [TryToken(0, 0)];
    assert paid.calls == map[0 := Call(Mail(msg), [false], Paid)];
    RunExtends(tr, es, SendEmail(0, true));
    tr, es := tr + [Apply(paid, SendEmail(0, true))], es + [SendEmail(0, true)];
    assert Everyone(msg) == [Address("", email)];
    UnmarkedIsEnveloped(msg, [false], 0);
  }

  lemma RunLength(tr: seq<State>, es: seq<Event>)
    requires Run(tr, es)
    ensures |tr| == |es| + 1
  {}

  lemma FreshAdmits(rate: real, now: int)
    requires rate >= 1.0
    ensures Admits(Fresh(rate, now), now)
  {
    hide Accrual;
    AccrualMonotone(rate, 0, 0);
  }

  lemma LoneRecipientIsLeft(msg: Message)
    requires |msg.to| == 1 && msg.cc == [] && msg.bcc == []
    ensures !NobodyLeft(msg, [false])
  {
    NobodyLeftIffAllHeld(msg, [false]);
    assert ![false][0];
  }

  // ----- Sends are paid for ------------------------------------------------

  predicate IsGrant(s: State, e: Event) {
    e.TryToken? && Admits(s.bucket, e.now)
  }

  function One(p: bool): nat {
    if p then 1 else 0
  }

  /** Tokens granted among the first `n` events, in all and to call `c`. */
  function GrantsIn(tr: seq<State>, es: seq<Event>, n: nat): nat
    requires n <= |es| < |tr|
  {
    if n == 0 then 0 else GrantsIn(tr, es, n - 1) + One(IsGrant(tr[n - 1], es[n - 1]))
  }

  function GrantsTo(tr: seq<State>, es: seq<Event>, n: nat, c: nat): nat
    requires n <= |es| < |tr|
  {
    if n == 0 then 0
    else GrantsTo(tr, es, n - 1, c) + One(IsGrant(tr[n - 1], es[n - 1]) && es[n - 1].call == c)
  }

  /** `SendEmail` calls among the first `n` events, in all and by call `c`. */
  function SendsIn(es: seq<Event>, n: nat): nat
    requires n <= |es|
  {
    if n == 0 then 0 else SendsIn(es, n - 1) + One(es[n - 1].SendEmail?)
  }

  function SendsBy(es: seq<Event>, n: nat, c: nat): nat
    requires n <= |es|
  {
    if n == 0 then 0 else SendsBy(es, n - 1, c) + One(es[n - 1].SendEmail? && es[n - 1].call == c)
  }

  /** `SendEmail` has been called, whatever SES answered. */
  predicate HasSent(s: State, c: nat) {
    At(s, c, Finished(None)) || At(s, c, Finished(Some(SesRejected)))
  }

  lemma GrantOrSendStep(s: State, e: Event, c: nat)
    requires Enabled(s, e)
    ensures One(At(Apply(s, e), c, Paid) || HasSent(Apply(s, e), c))
            == One(At(s, c, Paid) || HasSent(s, c)) + One(IsGrant(s, e) && e.call == c)
    ensures One(HasSent(Apply(s, e), c)) == One(HasSent(s, c)) + One(e.SendEmail? && e.call == c)
  {
    hide Normalize, NobodyLeft, SenderDomain, Lookup, Record, Take, Admits, Everyone;
  }

  /** Each `SendEmail` has one grant of its own. A call holds a grant only between obtaining it and
      sending, so a call that ends any other way has used none. */
  lemma {:induction false} EachSendHasItsOwnGrant(tr: seq<State>, es: seq<Event>, n: nat, c: nat)
    requires Run(tr, es) && n < |tr|
    ensures GrantsTo(tr, es, n, c) == One(At(tr[n], c, Paid) || HasSent(tr[n], c))
    ensures SendsBy(es, n, c) == One(HasSent(tr[n], c))
  {
    hide At, HasSent, One, Apply, IsGrant;
    if n > 0 {
      EachSendHasItsOwnGrant(tr, es, n - 1, c);
      GrantOrSendStep(tr[n - 1], es[n - 1], c);
    } else {
      NothingAtStart(tr[0], c);
    }
  }

  lemma NothingAtStart(s: State, c: nat)
    requires Initial(s)
    ensures One(At(s, c, Paid) || HasSent(s, c)) == One(HasSent(s, c)) == 0
  {}

  function PaidCalls(s: State): set<nat> {
    set c | c in s.calls && s.calls[c].phase == Paid
  }

  lemma PaidCallsStep(s: State, e: Event)
    requires Enabled(s, e)
    ensures PaidCalls(Apply(s, e))
            == if IsGrant(s, e) then PaidCalls(s) + {e.call}
               else if e.SendEmail? then PaidCalls(s) - {e.call}
               else PaidCalls(s)
    ensures IsGrant(s, e) ==> e.call !in PaidCalls(s)
    ensures e.SendEmail? ==> e.call in PaidCalls(s)
  {
    hide Normalize, NobodyLeft, SenderDomain, Lookup, Record, Take, Admits, Everyone;
  }

  /** Grants are conserved: each has been spent on a send or is still held. */
  lemma {:induction false} GrantsAreSpentOrHeld(tr: seq<State>, es: seq<Event>, n: nat)
    requires Run(tr, es) && n < |tr|
    ensures GrantsIn(tr, es, n) == SendsIn(es, n) + |PaidCalls(tr[n])|
  {
    if n > 0 {
      GrantsAreSpentOrHeld(tr, es, n - 1);
      PaidCallsStep(tr[n - 1], es[n - 1]);
    } else {
      assert PaidCalls(tr[0]) == {};
    }
  }

  /** The limiter's history: the operations performed on it by the first `n` events. */
  function LimiterOps(es: seq<Event>, n: nat): seq<Op>
    requires n <= |es|
  {
    if n == 0 then []
    else
      var prior, op := LimiterOps(es, n - 1), LimiterOp(es[n - 1]);
      if op.None? then prior else prior + [op.value]
  }

  lemma TimelyExtends(b: Bucket, ops: seq<Op>, op: Op)
    requires Valid(b) && Timely(b, ops) && After(b, ops, |ops|).last <= op.at
    ensures Timely(b, ops + [op])
  {
    AfterKeepsValid(b, ops, |ops|);
  }

  lemma {:induction false} CountBetweenExtends(b: Bucket, ops: seq<Op>, op: Op, n: nat, t1: int, t2: int)
    requires n <= |ops|
    ensures CountBetween(b, ops + [op], n, t1, t2) == CountBetween(b, ops, n, t1, t2)
  {
    if n > 0 {
      CountBetweenExtends(b, ops, op, n - 1, t1, t2);
      AfterExtends(b, ops, op, n - 1);
    }
  }

  /** The operation an event performs on the limiter, if any. */
  function LimiterOp(e: Event): Option<Op> {
    match e
    case TryToken(_, now) => Some(Attempt(now))
    case ReadTokens(now) => Some(Observe(now))
    case _ => None
  }

  lemma LimiterStep(s: State, e: Event)
    requires Enabled(s, e)
    ensures var op := LimiterOp(e);
            && Apply(s, e).bucket == (if op.None? then s.bucket else Step(s.bucket, op.value))
            && (op.Some? ==> s.bucket.last <= op.value.at && Apply(s, e).bucket.last == op.value.at)
            && (IsGrant(s, e) <==> op.Some? && Grants(s.bucket, op.value))
            && s.bucket.last <= Apply(s, e).bucket.last
  {
    hide Normalize, NobodyLeft, SenderDomain, Lookup, Record, Everyone, Accrual;
  }

  /** The limiter inside the engine is the bucket of `BucketSpec` run on that history, so all that
      is proved there about histories holds of every run of the engine. */
  lemma {:induction false} LimiterIsBucket(tr: seq<State>, es: seq<Event>, n: nat)
    requires Run(tr, es) && n < |tr|
    ensures var b, ops := tr[0].bucket, LimiterOps(es, n);
            Valid(b) && Timely(b, ops) && tr[n].bucket == After(b, ops, |ops|) && b.last <= tr[n].bucket.last
  {
    hide Apply, Enabled, Step, Valid, After;
    if n == 0 {
      StartsValid(tr[0]);
    } else {
      LimiterIsBucket(tr, es, n - 1);
      LimiterStep(tr[n - 1], es[n - 1]);
      var b, ops, op := tr[0].bucket, LimiterOps(es, n - 1), LimiterOp(es[n - 1]);
      if op.Some? {
        TimelyExtends(b, ops, op.value);
        DecisionsExtend(b, ops, op.value);
      }
    }
  }

  lemma StartsValid(s: State)
    requires Initial(s)
    ensures Valid(s.bucket) && After(s.bucket, [], 0) == s.bucket
  {}

  lemma {:induction false} GrantsAreBucketGrants(tr: seq<State>, es: seq<Event>, n: nat, t1: int, t2: int)
    requires Run(tr, es) && n < |tr|
    requires t1 <= tr[0].bucket.last && tr[n].bucket.last <= t2
    ensures var b, ops := tr[0].bucket, LimiterOps(es, n); GrantsIn(tr, es, n) == CountBetween(b, ops, |ops|, t1, t2)
  {
    hide Apply, Enabled, Step, Valid, Grants, IsGrant;
    if n > 0 {
      var b, ops, e := tr[0].bucket, LimiterOps(es, n - 1), es[n - 1];
      var op := LimiterOp(e);
      LimiterStep(tr[n - 1], e);
      GrantsAreBucketGrants(tr, es, n - 1, t1, t2);
      LimiterIsBucket(tr, es, n - 1);
      if op.Some? {
        AfterExtends(b, ops, op.value, |ops|);
        CountBetweenExtends(b, ops, op.value, |ops|, t1, t2);
      }
    }
  }

  lemma SendsWithinBudget(tr: seq<State>, es: seq<Event>, n: nat, now: int)
    requires Run(tr, es) && n < |tr| && tr[n].bucket.last <= now
    ensures SendsIn(es, n) as real <= Budget(tr[0].bucket.rate, tr[0].bucket.last, now)
  {
    hide Accrual, Budget, After, CountBetween, GrantsIn, LimiterOps, Apply, Enabled, Valid, Timely;
    GrantsAreSpentOrHeld(tr, es, n);
    var b, ops := tr[0].bucket, LimiterOps(es, n);
    LimiterIsBucket(tr, es, n);
    GrantsAreBucketGrants(tr, es, n, b.last, now);
    RateSafety(b, ops, |ops|, b.last, now);
  }

  lemma BelowBudget(x: real, rate: real, t1: int, t2: int)
    requires x <= Budget(rate, t1, t2)
    ensures x <= rate * (1.0 + (t2 - t1) as real / 1000000000.0)
  {
    BudgetInSeconds(rate, t1, t2);
  }

  /** Over any run, `SendEmail` is called no more often than one burst plus the accrual since the
      creation of the limiter. */
  lemma SendsWithinRate(tr: seq<State>, es: seq<Event>, n: nat, now: int)
    requires Run(tr, es) && n < |tr| && tr[n].bucket.last <= now
    ensures SendsIn(es, n) as real <= tr[0].bucket.rate * (1.0 + (now - tr[0].bucket.last) as real / 1000000000.0)
  {
    hide Budget, SendsIn, Apply, Enabled;
    SendsWithinBudget(tr, es, n, now);
    BelowBudget(SendsIn(es, n) as real, tr[0].bucket.rate, tr[0].bucket.last, now);
  }

  // ----- Sends in any window -----------------------------------------------

  /** `at` gives the instant of every event, those of the limiter being its clock readings. */
  ghost predicate Clocked(es: seq<Event>, at: seq<int>) {
    && |at| == |es|
    && (forall p, q :: 0 <= p <= q < |at| ==> at[p] <= at[q])
    && forall p :: 0 <= p < |es| && LimiterOp(es[p]).Some? ==> LimiterOp(es[p]).value.at == at[p]
  }

  /** `SendEmail` calls at instants in `[t1, t2]` among the first `n` events. */
  function SendsBetween(es: seq<Event>, at: seq<int>, n: nat, t1: int, t2: int): nat
    requires n <= |es| == |at|
  {
    if n == 0 then 0
    else SendsBetween(es, at, n - 1, t1, t2) + One(es[n - 1].SendEmail? && t1 <= at[n - 1] <= t2)
  }

  /** The first event at or after `t`. */
  lemma {:induction false} FirstFrom(at: seq<int>, t: int, n: nat) returns (i: nat)
    requires n <= |at| && forall p, q :: 0 <= p <= q < |at| ==> at[p] <= at[q]
    ensures i <= n && (forall p :: 0 <= p < i ==> at[p] < t) && forall p :: i <= p < n ==> t <= at[p]
  {
    if n > 0 && t <= at[n - 1] {
      i := FirstFrom(at, t, n - 1);
    } else {
      i := n;
    }
  }

  /** The grants from event `i` on are those the bucket made at instants of the window. */
  lemma {:induction false} GrantsOfWindow(tr: seq<State>, es: seq<Event>, at: seq<int>, i: nat, n: nat, t1: int, t2: int)
    requires Run(tr, es) && Clocked(es, at) && i <= |es| && n < |tr|
    requires forall p :: 0 <= p < n ==> if p < i then at[p] < t1 else t1 <= at[p] <= t2
    ensures var b, ops := tr[0].bucket, LimiterOps(es, n);
            GrantsIn(tr, es, n) == GrantsIn(tr, es, if n <= i then n else i) + CountBetween(b, ops, |ops|, t1, t2)
  {
    hide Apply, Enabled, Step, Valid, Grants, IsGrant;
    if n > 0 {
      var b, ops, e := tr[0].bucket, LimiterOps(es, n - 1), es[n - 1];
      var op := LimiterOp(e);
      LimiterStep(tr[n - 1], e);
      GrantsOfWindow(tr, es, at, i, n - 1, t1, t2);
      LimiterIsBucket(tr, es, n - 1);
      if op.Some? {
        AfterExtends(b, ops, op.value, |ops|);
        CountBetweenExtends(b, ops, op.value, |ops|, t1, t2);
      }
    }
  }

  lemma {:induction false} SendsOfWindow(es: seq<Event>, at: seq<int>, i: nat, j: nat, n: nat, t1: int, t2: int)
    requires i <= j <= |es| == |at| && n <= |es|
    requires forall p :: 0 <= p < n ==> (i <= p < j <==> t1 <= at[p] <= t2)
    ensures SendsBetween(es, at, n, t1, t2)
            == SendsIn(es, if n <= j then n else j) - SendsIn(es, if n <= i then n else i)
  {
    if n > 0 {
      SendsOfWindow(es, at, i, j, n - 1, t1, t2);
    }
  }

  /** Between any two instants `SendEmail` is called no more often than the budget of the time
      between them and the tokens held, unspent, when it began. */
  lemma SendsInAnyWindow(tr: seq<State>, es: seq<Event>, at: seq<int>, t1: int, t2: int) returns (i: nat)
    requires Run(tr, es) && Clocked(es, at) && t1 <= t2
    ensures i < |tr| && (forall p :: 0 <= p < i ==> at[p] < t1) && forall p :: i <= p < |at| ==> t1 <= at[p]
    ensures SendsBetween(es, at, |es|, t1, t2) as real
            <= tr[0].bucket.rate * (1.0 + (t2 - t1) as real / 1000000000.0) + |PaidCalls(tr[i])| as real
  {
    hide Accrual, Budget, After, CountBetween, GrantsIn, LimiterOps, Apply, Enabled, Valid, Timely, SendsBetween, SendsIn,
         PaidCalls;
    var j := FirstFrom(at, t2 + 1, |at|);
    i := FirstFrom(at, t1, j);
    SendsOfWindow(es, at, i, j, |es|, t1, t2);
    GrantsAreSpentOrHeld(tr, es, i);
    GrantsAreSpentOrHeld(tr, es, j);
    GrantsOfWindow(tr, es, at, i, j, t1, t2);
    var b, ops := tr[0].bucket, LimiterOps(es, j);
    LimiterIsBucket(tr, es, j);
    RateSafety(b, ops, |ops|, t1, t2);
  }

  // ----- The verification gate ---------------------------------------------

  /** Event `i` gives call `c` the verdict that `domain` is verified. */
  ghost predicate SaysVerified(tr: seq<State>, es: seq<Event>, i: nat, c: nat, domain: string)
    requires i < |es| < |tr|
  {
    && c in tr[i].calls
    && ((es[i].Consult? && es[i].call == c && tr[i].calls[c].phase == Gating(domain)
         && Lookup(tr[i].cache, domain, es[i].now) == Some(true))
        || (es[i].Store? && es[i].call == c && tr[i].calls[c].phase == Recording(domain, true)))
  }

  /** Event `r` is SES's SUCCESS reply to call `c` about `domain`. */
  ghost predicate IsSuccessReply(tr: seq<State>, es: seq<Event>, r: nat, c: nat, domain: string)
    requires r < |es| < |tr|
  {
    es[r].Reply? && es[r].call == c && IsSuccess(es[r].reply) && At(tr[r], c, Asking(domain))
  }

  /** Event `j` records, as expiring at `expiry`, a SUCCESS that SES replied about `domain`. */
  ghost predicate RecordsSuccess(tr: seq<State>, es: seq<Event>, j: nat, domain: string, expiry: int)
    requires j < |es| < |tr|
  {
    && es[j].Store? && At(tr[j], es[j].call, Recording(domain, true))
    && expiry == es[j].now + VERIFY_TTL
    && exists r :: 0 <= r < j && IsSuccessReply(tr, es, r, es[j].call, domain)
  }

  lemma StartsRecording(s: State, e: Event, c: nat, domain: string)
    requires Enabled(s, e) && At(Apply(s, e), c, Recording(domain, true)) && !At(s, c, Recording(domain, true))
    ensures e.Reply? && e.call == c && IsSuccess(e.reply) && At(s, c, Asking(domain))
  {
    hide Normalize, NobodyLeft, SenderDomain, Lookup, Record, Take, Admits, Everyone, IsSuccess;
  }

  lemma {:induction false} RecordedVerdictsCameFromSes(tr: seq<State>, es: seq<Event>, n: nat, c: nat, domain: string)
    requires Run(tr, es) && n < |tr| && At(tr[n], c, Recording(domain, true))
    ensures exists r :: 0 <= r < n && IsSuccessReply(tr, es, r, c, domain)
  {
    hide Apply, Enabled, IsSuccess;
    var i := n - 1;
    if At(tr[i], c, Recording(domain, true)) {
      RecordedVerdictsCameFromSes(tr, es, i, c, domain);
    } else {
      StartsRecording(tr[i], es[i], c, domain);
      assert IsSuccessReply(tr, es, i, c, domain);
    }
  }

  lemma {:induction false} CachedVerdictsWereRecorded(tr: seq<State>, es: seq<Event>, n: nat, domain: string) returns (j: nat)
    requires Run(tr, es) && n < |tr| && domain in tr[n].cache && tr[n].cache[domain].verified
    ensures j < n && RecordsSuccess(tr, es, j, domain, tr[n].cache[domain].expiry)
  {
    hide Normalize, NobodyLeft, SenderDomain, Lookup, Take, Admits, Everyone, IsSuccess, IsSuccessReply;
    var i := n - 1;
    if domain in tr[i].cache && tr[i].cache[domain] == tr[n].cache[domain] {
      j := CachedVerdictsWereRecorded(tr, es, i, domain);
    } else {
      j := i;
      RecordedVerdictsCameFromSes(tr, es, i, es[i].call, domain);
    }
  }

  lemma ToldVerified(s: State, e: Event, c: nat, domain: string, told: Phase)
    requires Enabled(s, e) && c in s.calls && c in Apply(s, e).calls && Apply(s, e).calls[c].phase == told
    requires s.calls[c].phase == Gating(domain) || s.calls[c].phase == Recording(domain, true) || s.calls[c].phase == Recording(domain, false)
    requires told == Waiting(false) || told == Answered(true)
    ensures (e.Consult? && e.call == c && s.calls[c].phase == Gating(domain) && Lookup(s.cache, domain, e.now) == Some(true))
            || (e.Store? && e.call == c && s.calls[c].phase == Recording(domain, true))
  {
    hide Normalize, NobodyLeft, SenderDomain, Lookup, Record, Take, Admits, Everyone;
  }

  /** Bounded staleness: whenever a caller that asked about a domain goes on as verified, at `now`,
      SES has replied SUCCESS about that very domain, to that very call or to one that recorded the
      reply less than sixty seconds before. */
  lemma VerdictsHaveBoundedStaleness(tr: seq<State>, es: seq<Event>, i: nat, c: nat, domain: string)
    requires Run(tr, es) && i < |es| && c in tr[i].calls && c in tr[i + 1].calls
    requires || tr[i].calls[c].phase == Gating(domain)
             || tr[i].calls[c].phase == Recording(domain, true) || tr[i].calls[c].phase == Recording(domain, false)
    requires tr[i + 1].calls[c].phase == Waiting(false) || tr[i + 1].calls[c].phase == Answered(true)
    ensures || (exists r :: 0 <= r < i && es[r] == Reply(c, Dkim("SUCCESS")) && At(tr[r], c, Asking(domain)))
            || (es[i].Consult? &&
                exists j, r :: 0 <= r < j < i && es[j].Store? && es[r] == Reply(es[j].call, Dkim("SUCCESS"))
                               && At(tr[r], es[j].call, Asking(domain)) && es[i].now < es[j].now + 60000000000)
  {
    ToldVerified(tr[i], es[i], c, domain, tr[i + 1].calls[c].phase);
    hide Apply, Enabled, IsSuccess, Lookup;
    if es[i].Store? {
      RecordedVerdictsCameFromSes(tr, es, i, c, domain);
      var r :| 0 <= r < i && IsSuccessReply(tr, es, r, c, domain);
      VerifyCache.SuccessSpelledOut(es[r].reply);
    } else {
      LiveVerdictsAreCached(tr[i].cache, domain, es[i].now);
      var j := CachedVerdictsWereRecorded(tr, es, i, domain);
      var r :| 0 <= r < j && IsSuccessReply(tr, es, r, es[j].call, domain);
      VerifyCache.SuccessSpelledOut(es[r].reply);
      assert es[r] == Reply(es[j].call, Dkim("SUCCESS"));
    }
  }

  lemma LiveVerdictsAreCached(cache: Cache, domain: string, now: int)
    requires Lookup(cache, domain, now) == Some(true)
    ensures domain in cache && cache[domain].verified && now < cache[domain].expiry
  {}

  predicate InLine(s: State, c: nat) {
    c in s.calls && s.calls[c].task.Mail? && (s.calls[c].phase.Waiting? || s.calls[c].phase.Paid?)
  }

  lemma JoinsTheLineVerified(s: State, e: Event, c: nat)
    requires Enabled(s, e) && s.cfg.requireVerified && (c in s.calls ==> WellFormed(s.calls[c]))
    requires InLine(Apply(s, e), c) && !InLine(s, c)
    ensures c in s.calls && s.calls[c].task == Apply(s, e).calls[c].task
    ensures var domain := SenderDomain(s.calls[c].task.msg.from.email);
            || (e.Consult? && e.call == c && s.calls[c].phase == Gating(domain) && Lookup(s.cache, domain, e.now) == Some(true))
            || (e.Store? && e.call == c && s.calls[c].phase == Recording(domain, true))
  {
    hide Normalize, NobodyLeft, SenderDomain, Lookup, Record, Take, Admits, Everyone;
  }

  lemma {:induction false} WaitersPassedTheGate(tr: seq<State>, es: seq<Event>, n: nat, c: nat)
    requires Run(tr, es) && n < |tr| && tr[0].cfg.requireVerified
    requires InLine(tr[n], c)
    ensures var domain := SenderDomain(tr[n].calls[c].task.msg.from.email);
            exists v :: 0 <= v < n && SaysVerified(tr, es, v, c, domain)
  {
    hide SenderDomain, Lookup, Apply, WellFormed;
    var i := n - 1;
    RunKeepsShape(tr, es, i);
    if InLine(tr[i], c) {
      WaitersPassedTheGate(tr, es, i, c);
      CallsPersist(tr, es, i, n, c);
    } else {
      JoinsTheLineVerified(tr[i], es[i], c);
      assert SaysVerified(tr, es, i, c, SenderDomain(tr[n].calls[c].task.msg.from.email));
    }
  }

  /** With the gate on, every `SendEmail` is preceded in its `Send` by a verdict that the lower-cased
      domain of its From address is verified. */
  lemma SendsPassedTheGate(tr: seq<State>, es: seq<Event>, e: nat)
    requires Run(tr, es) && e < |es| && es[e].SendEmail? && tr[0].cfg.requireVerified
    ensures es[e].call in tr[e].calls && tr[e].calls[es[e].call].task.Mail?
    ensures var domain := SenderDomain(tr[e].calls[es[e].call].task.msg.from.email);
            exists v :: 0 <= v < e && SaysVerified(tr, es, v, es[e].call, domain)
  {
    RunKeepsShape(tr, es, e);
    WaitersPassedTheGate(tr, es, e, es[e].call);
  }

  /** So with the gate on nothing is sent from a domain about which SES has never replied SUCCESS. */
  lemma SendsRestOnSuccess(tr: seq<State>, es: seq<Event>, e: nat) returns (r: nat, asker: nat)
    requires Run(tr, es) && e < |es| && es[e].SendEmail? && tr[0].cfg.requireVerified
    ensures es[e].call in tr[e].calls && tr[e].calls[es[e].call].task.Mail?
    ensures r < e && es[r] == Reply(asker, Dkim("SUCCESS"))
    ensures At(tr[r], asker, Asking(SenderDomain(tr[e].calls[es[e].call].task.msg.from.email)))
  {
    hide Apply, Enabled, IsSuccess, Lookup, SenderDomain;
    SendsPassedTheGate(tr, es, e);
    var c := es[e].call;
    var domain := SenderDomain(tr[e].calls[c].task.msg.from.email);
    var v :| 0 <= v < e && SaysVerified(tr, es, v, c, domain);
    if es[v].Store? {
      asker := c;
      RecordedVerdictsCameFromSes(tr, es, v, c, domain);
      r :| 0 <= r < v && IsSuccessReply(tr, es, r, c, domain);
    } else {
      LiveVerdictsAreCached(tr[v].cache, domain, es[v].now);
      var j := CachedVerdictsWereRecorded(tr, es, v, domain);
      asker := es[j].call;
      r :| 0 <= r < j && IsSuccessReply(tr, es, r, asker, domain);
    }
    VerifyCache.SuccessSpelledOut(es[r].reply);
  }

  predicate IsOver(phase: Phase) {
    phase.Finished? || phase.Answered? || phase.Failed?
  }

  lemma {:induction false} OverIsOver(tr: seq<State>, es: seq<Event>, i: nat, j: nat, c: nat)
    requires Run(tr, es) && i <= j < |tr| && c in tr[i].calls && IsOver(tr[i].calls[c].phase)
    ensures c in tr[j].calls && tr[j].calls[c] == tr[i].calls[c]
  {
    hide Normalize, NobodyLeft, SenderDomain, Lookup, Record, Take, Admits, Everyone, IsSuccess;
    if i < j {
      OverIsOver(tr, es, i, j - 1, c);
    }
  }

  /** The gate fails closed: a call to which SES answered with an API error never sends, and a
      negative verdict never does either. */
  lemma RefusedCallsNeverSend(tr: seq<State>, es: seq<Event>, r: nat, e: nat, c: nat)
    requires Run(tr, es) && r < |es| && e < |es|
    requires c in tr[r].calls
    requires || es[r] == Reply(c, ApiError)
             || (es[r].Store? && es[r].call == c && !tr[r].calls[c].phase.verified)
             || (es[r].Consult? && es[r].call == c
                 && Lookup(tr[r].cache, tr[r].calls[c].phase.domain, es[r].now) == Some(false))
    ensures !(es[e].SendEmail? && es[e].call == c)
  {
    hide Normalize, NobodyLeft, SenderDomain, Record, Take, Admits, Everyone, IsSuccess;
    if e > r {
      assert IsOver(tr[r + 1].calls[c].phase);
      OverIsOver(tr, es, r + 1, e, c);
    } else if e < r && es[e].SendEmail? && es[e].call == c {
      OverIsOver(tr, es, e + 1, r, c);
    }
  }
}
