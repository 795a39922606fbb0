/** The count-check-then-create protocol of backend/ses/identity.go under concurrency.

    The manager's mutex, its cached count and the SES region it manages are one state; every
    lock-protected section and every completed AWS call is one event. An identity is known by
    its position in the order in which SES lists identities, so that a page of the listing is a
    range of positions, read at one instant while other callers may change the region between
    two pages.
 */
module IdentityCap {
  import opened Wrappers

  const MAX_IDENTITIES: nat := 10000
  const CACHE_TTL: int := 300000000000  // five minutes in nanoseconds

  datatype Job = Register(identity: nat) | Report

  datatype Phase =
    | Starting(job: Job)                          // about to take the lock
    | Counting(job: Job, cursor: nat, sum: nat)   // holds the lock, part-way through the listing
    | Counted(job: Job, count: nat)               // holds the lock, about to store its count
    | Passed(identity: nat)                       // below the cap; the create call is outstanding
    | Created                                     // the region has changed, the cache is not yet invalidated
    | Deleting(identity: nat)                     // the delete call is outstanding
    | Deleted                                     // the region has changed, the cache is not yet invalidated
    | Finished

  datatype State = State(
    region: set<nat>,
    cachedCount: int,
    cacheExpiry: Option<int>,   // None is the zero time, which precedes every instant
    lock: Option<nat>,
    callers: map<nat, Phase>)

  datatype Event =
    | BeginCount(caller: nat, job: Job)      // Usage, or CreateDomainIdentity
    | BeginDelete(caller: nat, identity: nat)
    | CacheHit(caller: nat, now: int)
    | CacheMiss(caller: nat, now: int)
    | Page(caller: nat, upTo: nat)
    | LastPage(caller: nat)
    | KeepCount(caller: nat, now: int)
    | ListFails(caller: nat)
    | CreateReply(caller: nat, ok: bool)
    | DeleteReply(caller: nat, ok: bool)
    | Invalidate(caller: nat)

  // ----- The code's decisions ----------------------------------------------

  predicate IsFresh(expiry: Option<int>, now: int) {
    expiry.Some? && now < expiry.value
  }

  predicate AtCap(count: int) {
    count >= MAX_IDENTITIES
  }

  /** What a caller does next once it has a count. */
  function Decide(job: Job, count: int): Phase {
    if job.Register? && !AtCap(count) then Passed(job.identity) else Finished
  }

  /** The identities listed at positions `from..to`. */
  function Range(region: set<nat>, from: nat, to: nat): set<nat> {
    set i | i in region && from <= i < to
  }

  function Rest(region: set<nat>, from: nat): set<nat> {
    set i | i in region && from <= i
  }

  predicate Enabled(s: State, e: Event) {
    match e
    case BeginCount(c, _) => c !in s.callers
    case BeginDelete(c, _) => c !in s.callers
    case CacheHit(c, now) =>
      s.lock.None? && c in s.callers && s.callers[c].Starting? && IsFresh(s.cacheExpiry, now)
    case CacheMiss(c, now) =>
      s.lock.None? && c in s.callers && s.callers[c].Starting? && !IsFresh(s.cacheExpiry, now)
    case Page(c, upTo) => c in s.callers && s.callers[c].Counting? && s.callers[c].cursor <= upTo
    case LastPage(c) => c in s.callers && s.callers[c].Counting?
    case KeepCount(c, _) => c in s.callers && s.callers[c].Counted?
    case ListFails(c) => c in s.callers && s.callers[c].Counting?
    case CreateReply(c, ok) =>
      c in s.callers && s.callers[c].Passed? && (ok ==> s.callers[c].identity !in s.region)
    case DeleteReply(c, ok) =>
      c in s.callers && s.callers[c].Deleting? && (ok ==> s.callers[c].identity in s.region)
    case Invalidate(c) =>
      s.lock.None? && c in s.callers && (s.callers[c].Created? || s.callers[c].Deleted?)
  }

  function To(s: State, c: nat, phase: Phase): State {
    s.(callers := s.callers[c := phase])
  }

  function Apply(s: State, e: Event): State
    requires Enabled(s, e)
  {
    match e
    case BeginCount(c, job) => To(s, c, Starting(job))
    case BeginDelete(c, identity) => To(s, c, Deleting(identity))
    case CacheHit(c, _) => To(s, c, Decide(s.callers[c].job, s.cachedCount))
    case CacheMiss(c, _) => To(s, c, Counting(s.callers[c].job, 0, 0)).(lock := Some(c))
    case Page(c, upTo) =>
      var p := s.callers[c];
      To(s, c, Counting(p.job, upTo, p.sum + |Range(s.region, p.cursor, upTo)|))
    case LastPage(c) =>
      var p := s.callers[c];
      To(s, c, Counted(p.job, p.sum + |Rest(s.region, p.cursor)|))
    case KeepCount(c, now) =>
      var p := s.callers[c];
      To(s, c, Decide(p.job, p.count)).(cachedCount := p.count, cacheExpiry := Some(now + CACHE_TTL), lock := None)
    case ListFails(c) => To(s, c, Finished).(lock := None)
    case CreateReply(c, ok) =>
      if ok then To(s, c, Created).(region := s.region + {s.callers[c].identity}) else To(s, c, Finished)
    case DeleteReply(c, ok) =>
      if ok then To(s, c, Deleted).(region := s.region - {s.callers[c].identity}) else To(s, c, Finished)
    case Invalidate(c) => To(s, c, Finished).(cacheExpiry := None)
  }

  // ----- Runs --------------------------------------------------------------

  predicate Initial(s: State) {
    s.cacheExpiry.None? && s.lock.None? && s.callers == map[]
  }

  ghost predicate Run(tr: seq<State>, es: seq<Event>) {
    && |tr| == |es| + 1
    && Initial(tr[0])
    && forall i :: 0 <= i < |es| ==> Enabled(tr[i], es[i]) && tr[i + 1] == Apply(tr[i], es[i])
  }

  datatype Stage = Checking | PastCheck | CreatePending | DeletePending | Other

  function StageOf(p: Phase): Stage {
    match p
    case Starting(job) => if job.Register? then Checking else Other
    case Counting(job, _, _) => if job.Register? then Checking else Other
    case Counted(job, _) => if job.Register? then Checking else Other
    case Passed(_) => PastCheck
    case Created => CreatePending
    case Deleted => DeletePending
    case _ => Other
  }

  function CallersIn(callers: map<nat, Phase>, stage: Stage): set<nat> {
    set c | c in callers && StageOf(callers[c]) == stage
  }

  function In(callers: map<nat, Phase>, stage: Stage): nat {
    |CallersIn(callers, stage)|
  }

  /** The `CreateDomainIdentity` calls in flight. */
  function CreatesInFlight(s: State): nat {
    In(s.callers, Checking) + In(s.callers, PastCheck) + In(s.callers, CreatePending)
  }

  /** A run in which at most `k` creates are ever in flight, from a region within its cap. */
  ghost predicate RunWithin(tr: seq<State>, es: seq<Event>, k: nat) {
    && Run(tr, es)
    && |tr[0].region| <= 10000
    && forall i :: 0 <= i < |tr| ==> CreatesInFlight(tr[i]) <= k
  }

  // ----- Counting lemmas ---------------------------------------------------

  lemma MoveOne(callers: map<nat, Phase>, c: nat, phase: Phase, stage: Stage)
    ensures |CallersIn(callers[c := phase], stage)|
            == |CallersIn(callers, stage)|
               - (if c in callers && StageOf(callers[c]) == stage then 1 else 0)
               + (if StageOf(phase) == stage then 1 else 0)
  {
    var before, after := CallersIn(callers, stage), CallersIn(callers[c := phase], stage);
    OthersStay(callers, c, phase, stage);
    hide CallersIn, StageOf;
    WithOrWithout(before, c);
    WithOrWithout(after, c);
  }

  lemma OthersStay(callers: map<nat, Phase>, c: nat, phase: Phase, stage: Stage)
    ensures var before, after := CallersIn(callers, stage), CallersIn(callers[c := phase], stage);
            && after - {c} == before - {c}
            && (c in before <==> c in callers && StageOf(callers[c]) == stage)
            && (c in after <==> StageOf(phase) == stage)
  {
    hide StageOf;
  }

  lemma WithOrWithout(s: set<nat>, c: nat)
    ensures |s| == |s - {c}| + if c in s then 1 else 0
  {
    assert c in s ==> s == (s - {c}) + {c};
    assert c !in s ==> s == s - {c};
  }

  lemma Move(s: State, c: nat, phase: Phase)
    ensures forall stage ::
      In(s.callers[c := phase], stage)
      == In(s.callers, stage)
         - (if c in s.callers && StageOf(s.callers[c]) == stage then 1 else 0)
         + (if StageOf(phase) == stage then 1 else 0)
  {
    forall stage {
      MoveOne(s.callers, c, phase, stage);
    }
  }

  lemma RangeSplits(region: set<nat>, from: nat, mid: nat)
    requires from <= mid
    ensures |Range(region, 0, mid)| == |Range(region, 0, from)| + |Range(region, from, mid)|
    ensures |region| == |Range(region, 0, mid)| + |Rest(region, mid)|
  {
    assert Range(region, 0, mid) == Range(region, 0, from) + Range(region, from, mid);
    assert region == Range(region, 0, mid) + Rest(region, mid);
  }

  lemma RangeChanges(region: set<nat>, x: nat, upTo: nat)
    ensures x !in region ==> |Range(region, 0, upTo)| <= |Range(region + {x}, 0, upTo)| <= |Range(region, 0, upTo)| + 1
    ensures x in region ==> |Range(region - {x}, 0, upTo)| <= |Range(region, 0, upTo)| <= |Range(region - {x}, 0, upTo)| + 1
  {
    var r := Range(region, 0, upTo);
    assert Range(region + {x}, 0, upTo) == if x < upTo then r + {x} else r;
    assert Range(region - {x}, 0, upTo) == r - {x};
    assert x in r ==> r == (r - {x}) + {x};
  }

  // ----- The invariant -----------------------------------------------------

  /** `estimate` is a count of `actual` that misses only changes not yet invalidated. */
  predicate UpToPending(callers: map<nat, Phase>, estimate: int, actual: int) {
    estimate - In(callers, DeletePending) <= actual <= estimate + In(callers, CreatePending)
  }

  ghost predicate Coherent(s: State) {
    && (forall c :: c in s.callers ==> (s.callers[c].Counting? || s.callers[c].Counted? <==> s.lock == Some(c)))
    && (s.lock.Some? ==> s.lock.value in s.callers)
    && (s.cacheExpiry.Some? ==> UpToPending(s.callers, s.cachedCount, |s.region|))
    && (forall c :: c in s.callers && s.callers[c].Counting? ==>
          UpToPending(s.callers, s.callers[c].sum, |Range(s.region, 0, s.callers[c].cursor)|))
    && (forall c :: c in s.callers && s.callers[c].Counted? ==> UpToPending(s.callers, s.callers[c].count, |s.region|))
  }

  /** Callers past the check have already been admitted against the cap. */
  predicate Admitted(s: State, k: nat) {
    |s.region| + In(s.callers, PastCheck) <= MAX_IDENTITIES + (if k == 0 then 0 else k - 1)
  }

  lemma LastPageKeepsCoherent(s: State, c: nat)
    requires Coherent(s) && Enabled(s, LastPage(c))
    ensures Coherent(Apply(s, LastPage(c)))
  {
    var p := s.callers[c];
    RangeSplits(s.region, p.cursor, p.cursor);
    Move(s, c, Counted(p.job, p.sum + |Rest(s.region, p.cursor)|));
  }

  lemma PageKeepsCoherent(s: State, c: nat, upTo: nat)
    requires Coherent(s) && Enabled(s, Page(c, upTo))
    ensures Coherent(Apply(s, Page(c, upTo)))
  {
    var p := s.callers[c];
    RangeSplits(s.region, p.cursor, upTo);
    Move(s, c, Counting(p.job, upTo, p.sum + |Range(s.region, p.cursor, upTo)|));
  }

  lemma CreateKeepsCoherent(s: State, c: nat)
    requires Coherent(s) && Enabled(s, CreateReply(c, true))
    ensures Coherent(Apply(s, CreateReply(c, true)))
  {
    hide In, Range, StageOf;
    MoveKnown(s, c, Created);
    var x := s.callers[c].identity;
    forall upTo {
      RangeChanges(s.region, x, upTo);
    }
  }

  lemma DeleteKeepsCoherent(s: State, c: nat)
    requires Coherent(s) && Enabled(s, DeleteReply(c, true))
    ensures Coherent(Apply(s, DeleteReply(c, true)))
  {
    hide In, Range, StageOf;
    MoveKnown(s, c, Deleted);
    var x := s.callers[c].identity;
    assert s.region == (s.region - {x}) + {x};
    forall upTo {
      RangeChanges(s.region, x, upTo);
    }
  }

  /** How a caller's move changes the number of pending creates and deletes. */
  lemma MoveKnown(s: State, c: nat, phase: Phase)
    ensures In(s.callers[c := phase], CreatePending)
            == In(s.callers, CreatePending) - (if c in s.callers && s.callers[c].Created? then 1 else 0)
               + (if phase.Created? then 1 else 0)
    ensures In(s.callers[c := phase], DeletePending)
            == In(s.callers, DeletePending) - (if c in s.callers && s.callers[c].Deleted? then 1 else 0)
               + (if phase.Deleted? then 1 else 0)
  {
    Move(s, c, phase);
  }

  /** Events that change neither the region nor the progress of a listing. */
  lemma QuietStepKeepsCoherent(s: State, e: Event)
    requires Coherent(s) && Enabled(s, e)
    requires !e.Page? && !e.LastPage? && !(e.CreateReply? && e.ok) && !(e.DeleteReply? && e.ok)
    ensures Coherent(Apply(s, e))
  {
    hide In, Range, Rest, StageOf;
    RangeSplits(s.region, 0, 0);
    MoveKnown(s, e.caller, Apply(s, e).callers[e.caller]);
  }

  lemma StepKeepsCoherent(s: State, e: Event)
    requires Coherent(s) && Enabled(s, e)
    ensures Coherent(Apply(s, e))
  {
    hide Coherent, Apply, Enabled;
    match e
    case Page(c, upTo) => PageKeepsCoherent(s, c, upTo);
    case LastPage(c) => LastPageKeepsCoherent(s, c);
    case CreateReply(c, true) => CreateKeepsCoherent(s, c);
    case DeleteReply(c, true) => DeleteKeepsCoherent(s, c);
    case _ => QuietStepKeepsCoherent(s, e);
  }

  /** A caller that passes the check does so on a count below the cap, which misses only
      creates still in flight. */
  lemma PassingKeepsAdmitted(s: State, c: nat, count: int, x: nat, k: nat)
    requires c in s.callers && StageOf(s.callers[c]) == Checking && !AtCap(count)
    requires UpToPending(s.callers, count, |s.region|)
    requires CreatesInFlight(To(s, c, Passed(x))) <= k
    ensures Admitted(To(s, c, Passed(x)), k)
  {
    Move(s, c, Passed(x));
  }

  /** Any other step adds no admitted caller that was not accounted for. */
  lemma OtherStepKeepsAdmitted(s: State, e: Event, k: nat)
    requires Enabled(s, e) && Admitted(s, k) && !Apply(s, e).callers[e.caller].Passed?
    ensures Admitted(Apply(s, e), k)
  {
    hide Range, Rest, In;
    MovePassed(s, e.caller, Apply(s, e).callers[e.caller]);
  }

  lemma MovePassed(s: State, c: nat, phase: Phase)
    ensures In(s.callers[c := phase], PastCheck)
            == In(s.callers, PastCheck) - (if c in s.callers && s.callers[c].Passed? then 1 else 0)
               + (if phase.Passed? then 1 else 0)
  {
    Move(s, c, phase);
  }

  lemma StepKeepsAdmitted(s: State, e: Event, k: nat)
    requires Coherent(s) && Enabled(s, e) && Admitted(s, k)
    requires CreatesInFlight(Apply(s, e)) <= k
    ensures Admitted(Apply(s, e), k)
  {
    if Apply(s, e).callers[e.caller].Passed? {
      var c := e.caller;
      UnfoldCoherent(s, c);
      hide Coherent, In;
      var count := if e.CacheHit? then s.cachedCount else s.callers[c].count;
      var x := s.callers[c].job.identity;
      PassingKeepsAdmitted(s, c, count, x, k);
    } else {
      OtherStepKeepsAdmitted(s, e, k);
    }
  }

  lemma UnfoldCoherent(s: State, c: nat)
    requires Coherent(s) && c in s.callers
    ensures s.cacheExpiry.Some? ==> UpToPending(s.callers, s.cachedCount, |s.region|)
    ensures s.callers[c].Counted? ==> UpToPending(s.callers, s.callers[c].count, |s.region|)
  {}

  // ----- Main results ------------------------------------------------------

  lemma {:induction false} RunIsCoherent(tr: seq<State>, es: seq<Event>, n: nat)
    requires Run(tr, es) && n < |tr|
    ensures Coherent(tr[n])
  {
    if n > 0 {
      RunIsCoherent(tr, es, n - 1);
      StepKeepsCoherent(tr[n - 1], es[n - 1]);
    }
  }

  /** The cached count differs from the region's by no more than the creates and deletes that
      have taken effect and not yet reached their invalidation; with none of those it is exact. */
  lemma CacheIsCoherent(tr: seq<State>, es: seq<Event>, n: nat)
    requires Run(tr, es) && n < |tr| && tr[n].cacheExpiry.Some?
    ensures var s := tr[n];
            && |s.region| - s.cachedCount <= In(s.callers, CreatePending)
            && s.cachedCount - |s.region| <= In(s.callers, DeletePending)
            && (In(s.callers, CreatePending) == 0 && In(s.callers, DeletePending) == 0 ==> s.cachedCount == |s.region|)
  {
    RunIsCoherent(tr, es, n);
  }

  lemma {:induction false} RunIsAdmitted(tr: seq<State>, es: seq<Event>, k: nat, n: nat)
    requires RunWithin(tr, es, k) && n < |tr|
    ensures Admitted(tr[n], k)
  {
    if n > 0 {
      RunIsAdmitted(tr, es, k, n - 1);
      RunIsCoherent(tr, es, n - 1);
      assert CreatesInFlight(tr[n]) <= k;
      StepKeepsAdmitted(tr[n - 1], es[n - 1], k);
    }
  }

  /** With at most `k` creates in flight the region never holds more than the cap plus `k - 1`;
      admitted but outstanding creates are already accounted for. */
  lemma CapHoldsUpToConcurrency(tr: seq<State>, es: seq<Event>, k: nat, n: nat)
    requires RunWithin(tr, es, k) && n < |tr|
    ensures |tr[n].region| + In(tr[n].callers, PastCheck) <= 10000 + (if k == 0 then 0 else k - 1)
    ensures k <= 1 ==> |tr[n].region| <= 10000
  {
    RunIsAdmitted(tr, es, k, n);
  }

  /** A change that lands while some caller holds the lock for its listing is invalidated only
      after that caller has stored its count or given up. */
  lemma {:induction false} LandedChangesAreInvalidatedAfterTheStore(tr: seq<State>, es: seq<Event>, i: nat, j: nat, holder: nat)
    returns (release: nat)
    requires Run(tr, es) && i < j < |es|
    requires tr[i].lock == Some(holder) && es[j].Invalidate?
    ensures i <= release < j
    ensures es[release].ListFails? || es[release].KeepCount?
    ensures es[release].caller == holder && tr[release].lock == Some(holder)
    decreases j - i
  {
    RunIsCoherent(tr, es, i);
    RunIsCoherent(tr, es, i + 1);
    if tr[i + 1].lock == Some(holder) {
      release := LandedChangesAreInvalidatedAfterTheStore(tr, es, i + 1, j, holder);
    } else {
      release := i;
    }
  }

  // ----- How long a count is trusted ---------------------------------------

  /** Event `j` is the last before `i` to store or to invalidate a count, and it stores one. */
  ghost predicate LastStore(es: seq<Event>, j: nat, i: nat)
    requires i <= |es|
  {
    j < i && es[j].KeepCount? && forall p :: j < p < i ==> !es[p].KeepCount? && !es[p].Invalidate?
  }

  lemma StoreStep(s: State, e: Event)
    requires Enabled(s, e)
    ensures if e.KeepCount? then
              && Apply(s, e).cacheExpiry == Some(e.now + 300000000000)
              && Apply(s, e).cachedCount == s.callers[e.caller].count
            else if e.Invalidate? then Apply(s, e).cacheExpiry == None
            else Apply(s, e).cacheExpiry == s.cacheExpiry && Apply(s, e).cachedCount == s.cachedCount
  {
    hide Range, Rest, Decide;
  }

  lemma {:induction false} StoreStays(tr: seq<State>, es: seq<Event>, j: nat, i: nat)
    requires Run(tr, es) && i < |tr| && LastStore(es, j, i)
    ensures tr[i].cacheExpiry == Some(es[j].now + 300000000000)
    ensures es[j].caller in tr[j].callers && tr[j].callers[es[j].caller].Counted?
    ensures tr[i].cachedCount == tr[j].callers[es[j].caller].count
  {
    StoreStep(tr[i - 1], es[i - 1]);
    if j < i - 1 {
      hide Apply, Enabled;
      StoreStays(tr, es, j, i - 1);
    }
  }

  lemma {:induction false} LiveCountsWereStored(tr: seq<State>, es: seq<Event>, i: nat) returns (j: nat)
    requires Run(tr, es) && i < |tr| && tr[i].cacheExpiry.Some?
    ensures LastStore(es, j, i)
  {
    StoreStep(tr[i - 1], es[i - 1]);
    if es[i - 1].KeepCount? {
      j := i - 1;
    } else {
      hide Apply, Enabled;
      j := LiveCountsWereStored(tr, es, i - 1);
    }
  }

  /** A caller goes by the stored count without listing exactly strictly within five minutes of its
      being stored, as long as nothing has invalidated or replaced it; the count is that one. */
  lemma CountIsTrustedFiveMinutes(tr: seq<State>, es: seq<Event>, j: nat, i: nat)
    requires Run(tr, es) && i < |es| && LastStore(es, j, i) && (es[i].CacheHit? || es[i].CacheMiss?)
    ensures es[i].CacheHit? <==> es[i].now < es[j].now + 300000000000
    ensures es[j].caller in tr[j].callers && tr[j].callers[es[j].caller].Counted?
    ensures es[i].CacheHit? ==> tr[i].cachedCount == tr[j].callers[es[j].caller].count
  {
    StoreStays(tr, es, j, i);
  }

  /** And every caller that does not list goes by such a count. */
  lemma HitsFollowAStore(tr: seq<State>, es: seq<Event>, i: nat) returns (j: nat)
    requires Run(tr, es) && i < |es| && es[i].CacheHit?
    ensures j < i && es[j].KeepCount? && (forall p :: j < p < i ==> !es[p].KeepCount? && !es[p].Invalidate?)
    ensures es[i].now < es[j].now + 300000000000
  {
    j := LiveCountsWereStored(tr, es, i);
    CountIsTrustedFiveMinutes(tr, es, j, i);
  }

  // ----- The bound is attained ---------------------------------------------

  /** The positions below `n`. */
  function Below(n: nat): set<nat> {
    if n == 0 then {} else Below(n - 1) + {n - 1}
  }

  lemma {:induction false} BelowIs(n: nat)
    ensures |Below(n)| == n && forall i: nat :: i in Below(n) <==> i < n
  {
    if n > 0 {
      BelowIs(n - 1);
    }
  }

  lemma InFlightAtMostCallers(s: State)
    ensures CreatesInFlight(s) <= |s.callers|
  {
    var checking, past, pending :=
      CallersIn(s.callers, Checking), CallersIn(s.callers, PastCheck), CallersIn(s.callers, CreatePending);
    var all := checking + past + pending;
    assert |all| == |checking| + |past| + |pending|;
    SubsetSize(all, s.callers.Keys);
    assert |s.callers.Keys| == |s.callers|;
  }

  lemma {:induction false} SubsetSize(a: set<nat>, b: set<nat>)
    requires a <= b
    ensures |a| <= |b|
  {
    if a != {} {
      var x :| x in a;
      SubsetSize(a - {x}, b - {x});
    }
  }

  /** `k` callers have passed the check and the first `m` of them have created. */
  function Crowd(k: nat, m: nat): State {
    State(Below(MAX_IDENTITIES - 1 + m), MAX_IDENTITIES - 1, Some(CACHE_TTL), None,
          map c | c in Below(k) :: if c < m then Created else Passed(MAX_IDENTITIES - 1 + c))
  }

  ghost predicate Leads(tr: seq<State>, es: seq<Event>, k: nat, s: State) {
    RunWithin(tr, es, k) && tr[|tr| - 1] == s
  }

  lemma Extend(tr: seq<State>, es: seq<Event>, k: nat, s: State, e: Event) returns (tr': seq<State>, es': seq<Event>)
    requires Leads(tr, es, k, s) && Enabled(s, e) && |Apply(s, e).callers| <= k
    ensures Leads(tr', es', k, Apply(s, e))
  {
    hide Apply, Enabled, Initial, CreatesInFlight;
    tr', es' := tr + [Apply(s, e)], es + [e];
    InFlightAtMostCallers(Apply(s, e));
  }

  lemma CrowdSize(k: nat, m: nat)
    ensures |Crowd(k, m).callers| == k && forall c: nat :: c in Crowd(k, m).callers <==> c < k
    ensures |Crowd(k, m).region| == MAX_IDENTITIES - 1 + m
    ensures forall i: nat :: i in Crowd(k, m).region <==> i < MAX_IDENTITIES - 1 + m
  {
    hide Below;
    BelowIs(k);
    BelowIs(MAX_IDENTITIES - 1 + m);
    assert |Crowd(k, m).callers| == |Crowd(k, m).callers.Keys|;
    assert Crowd(k, m).callers.Keys == Below(k);
  }

  /** One caller lists a region one below the cap. */
  lemma FirstSteps()
    ensures var s0 := State(Below(MAX_IDENTITIES - 1), 0, None, None, map[]);
            var begin := BeginCount(0, Register(MAX_IDENTITIES - 1));
            && Enabled(s0, begin) && Enabled(Apply(s0, begin), CacheMiss(0, 0))
            && var s2 := Apply(Apply(s0, begin), CacheMiss(0, 0));
            && Enabled(s2, LastPage(0)) && Enabled(Apply(s2, LastPage(0)), KeepCount(0, 0))
            && Apply(Apply(s2, LastPage(0)), KeepCount(0, 0)) == Crowd(1, 0)
            && |Apply(s0, begin).callers| == |s2.callers| == |Apply(s2, LastPage(0)).callers| == 1
  {
    hide Below;
    CrowdSize(1, 0);
    BelowIs(1);
    BelowIs(MAX_IDENTITIES - 1);
    var region := Below(MAX_IDENTITIES - 1);
    assert Rest(region, 0) == region;
  }

  /** The first caller lists the region and passes. */
  lemma FirstPasses(k: nat) returns (tr: seq<State>, es: seq<Event>)
    requires 1 <= k
    ensures Leads(tr, es, k, Crowd(1, 0))
  {
    FirstSteps();
    CrowdSize(1, 0);
    var s0 := State(Below(MAX_IDENTITIES - 1), 0, None, None, map[]);
    InFlightAtMostCallers(s0);
    tr, es := [s0], [];
    assert Leads(tr, es, k, s0);
    hide Apply, Below, Crowd, CreatesInFlight, Leads, Enabled;
    var begin := BeginCount(0, Register(MAX_IDENTITIES - 1));
    var s1 := Apply(s0, begin);
    tr, es := Extend(tr, es, k, s0, begin);
    var s2 := Apply(s1, CacheMiss(0, 0));
    tr, es := Extend(tr, es, k, s1, CacheMiss(0, 0));
    var s3 := Apply(s2, LastPage(0));
    tr, es := Extend(tr, es, k, s2, LastPage(0));
    tr, es := Extend(tr, es, k, s3, KeepCount(0, 0));
  }

  lemma NextPasses(j: nat)
    ensures var c, s := j, Crowd(j, 0);
            var begin := BeginCount(c, Register(MAX_IDENTITIES - 1 + c));
            && Enabled(s, begin) && Enabled(Apply(s, begin), CacheHit(c, 0))
            && Apply(Apply(s, begin), CacheHit(c, 0)) == Crowd(j + 1, 0)
            && |Apply(s, begin).callers| == j + 1
  {
    hide Below;
    CrowdSize(j, 0);
    CrowdSize(j + 1, 0);
  }

  lemma OneMorePasses(tr: seq<State>, es: seq<Event>, j: nat, k: nat) returns (tr': seq<State>, es': seq<Event>)
    requires 1 <= j < k && Leads(tr, es, k, Crowd(j, 0))
    ensures Leads(tr', es', k, Crowd(j + 1, 0))
  {
    NextPasses(j);
    CrowdSize(j + 1, 0);
    hide Apply, Enabled, Below, Crowd, Leads, CreatesInFlight;
    var s := Crowd(j, 0);
    var begin := BeginCount(j, Register(MAX_IDENTITIES - 1 + j));
    tr', es' := Extend(tr, es, k, s, begin);
    tr', es' := Extend(tr', es', k, Apply(s, begin), CacheHit(j, 0));
  }

  lemma {:induction false} AllPass(j: nat, k: nat) returns (tr: seq<State>, es: seq<Event>)
    requires 1 <= j <= k
    ensures Leads(tr, es, k, Crowd(j, 0))
  {
    hide Crowd, Leads;
    if j == 1 {
      tr, es := FirstPasses(k);
    } else {
      tr, es := AllPass(j - 1, k);
      tr, es := OneMorePasses(tr, es, j - 1, k);
    }
  }

  lemma NextCreates(k: nat, m: nat)
    requires m < k
    ensures Enabled(Crowd(k, m), CreateReply(m, true))
    ensures Apply(Crowd(k, m), CreateReply(m, true)) == Crowd(k, m + 1)
  {
    hide Below;
    CrowdSize(k, m);
    CrowdSize(k, m + 1);
  }

  lemma {:induction false} AllCreate(m: nat, k: nat) returns (tr: seq<State>, es: seq<Event>)
    requires 1 <= k && m <= k
    ensures Leads(tr, es, k, Crowd(k, m))
  {
    hide Apply, Below, Crowd, Leads;
    if m == 0 {
      tr, es := AllPass(k, k);
    } else {
      tr, es := AllCreate(m - 1, k);
      NextCreates(k, m - 1);
      CrowdSize(k, m);
      tr, es := Extend(tr, es, k, Crowd(k, m - 1), CreateReply(m - 1, true));
    }
  }

  /** The manager keeps the region within its cap exactly when creates are sequential: `k`
      concurrent creates can reach, and by the bound above cannot exceed, the cap plus `k - 1`. */
  lemma CapEnforcedIffSequential(k: nat)
    ensures (forall tr: seq<State>, es, n :: RunWithin(tr, es, k) && 0 <= n < |tr| ==> |tr[n].region| <= 10000)
            <==> k <= 1
    ensures k >= 1 ==> exists tr: seq<State>, es :: RunWithin(tr, es, k) && |tr[|tr| - 1].region| == 10000 + k - 1
  {
    forall tr: seq<State>, es, n: nat | RunWithin(tr, es, k) && n < |tr|
      ensures k <= 1 ==> |tr[n].region| <= MAX_IDENTITIES
    {
      CapHoldsUpToConcurrency(tr, es, k, n);
    }
    if k >= 1 {
      var tr, es := AllCreate(k, k);
      CrowdSize(k, k);
      assert RunWithin(tr, es, k) && 0 <= |tr| - 1 < |tr|;
      assert |tr[|tr| - 1].region| == MAX_IDENTITIES + k - 1;
    }
  }
}
