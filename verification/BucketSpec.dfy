/** The token bucket as a value, and what it means over a whole history of use.

    Clock readings are integer nanoseconds, taken under the mutex and therefore
    non-decreasing. Tokens and rates are reals. Every lock-protected section of
    `Wait` or `Available` is one `Op`, so a sequence of `Op`s is an arbitrary
    interleaving of any number of goroutines.
 */
module BucketSpec {

  const NANOS_PER_SECOND: real := 1000000000.0

  /** Tokens earned at `rate` per second over `ns` nanoseconds. */
  function Accrual(rate: real, ns: int): real {
    ns as real / NANOS_PER_SECOND * rate
  }

  /** The capacity field of the source always equals the rate, so it is not repeated. */
  datatype Bucket = Bucket(rate: real, tokens: real, last: int)

  ghost predicate Valid(b: Bucket) {
    0.0 < b.rate && 0.0 <= b.tokens <= b.rate
  }

  function Fresh(rate: real, now: int): Bucket {
    Bucket(rate, rate, now)
  }

  function Refill(b: Bucket, now: int): Bucket {
    var credited := b.tokens + Accrual(b.rate, now - b.last);
    Bucket(b.rate, if credited > b.rate then b.rate else credited, now)
  }

  /** Whether an attempt made at `now` obtains a token. */
  predicate Admits(b: Bucket, now: int) {
    Refill(b, now).tokens >= 1.0
  }

  function Take(b: Bucket, now: int): Bucket {
    var r := Refill(b, now);
    if r.tokens >= 1.0 then r.(tokens := r.tokens - 1.0) else r
  }

  /** The sleep computed after a refused attempt, truncated to whole nanoseconds. */
  function SleepNanos(b: Bucket): int
    requires 0.0 < b.rate
  {
    ((1.0 - b.tokens) / b.rate * NANOS_PER_SECOND).Floor
  }

  // ----- Histories ---------------------------------------------------------

  datatype Op = Attempt(at: int) | Observe(at: int)

  predicate Grants(b: Bucket, op: Op) {
    op.Attempt? && Admits(b, op.at)
  }

  function Step(b: Bucket, op: Op): Bucket {
    if op.Attempt? then Take(b, op.at) else Refill(b, op.at)
  }

  /** The bucket after the first `n` operations. */
  function After(b: Bucket, ops: seq<Op>, n: nat): (after: Bucket)
    requires n <= |ops|
    ensures after.rate == b.rate
  {
    if n == 0 then b else Step(After(b, ops, n - 1), ops[n - 1])
  }

  function Granted(b: Bucket, ops: seq<Op>, i: nat): bool
    requires i < |ops|
  {
    Grants(After(b, ops, i), ops[i])
  }

  /** Which of the operations obtained a token. */
  function Decisions(b: Bucket, ops: seq<Op>): seq<bool> {
    seq(|ops|, i requires 0 <= i < |ops| => Granted(b, ops, i))
  }

  /** Number of `true` entries at positions `lo..hi`. */
  function Count(ds: seq<bool>, lo: nat, hi: nat): nat
    requires hi <= |ds|
  {
    if hi <= lo then 0 else Count(ds, lo, hi - 1) + if ds[hi - 1] then 1 else 0
  }

  /** Number of grants made at instants in `[t1, t2]` among the first `n` operations. */
  function CountBetween(b: Bucket, ops: seq<Op>, n: nat, t1: int, t2: int): nat
    requires n <= |ops|
  {
    if n == 0 then 0
    else CountBetween(b, ops, n - 1, t1, t2)
         + if Granted(b, ops, n - 1) && t1 <= ops[n - 1].at <= t2 then 1 else 0
  }

  /** Clock readings never go backwards, and none precedes the bucket's own. */
  ghost predicate Timely(b: Bucket, ops: seq<Op>) {
    && (forall i :: 0 <= i < |ops| ==> b.last <= ops[i].at)
    && (forall i, j :: 0 <= i <= j < |ops| ==> ops[i].at <= ops[j].at)
  }

  /** The budget of a window: one second's burst plus what accrues while it is open. */
  function Budget(rate: real, from: int, to: int): real {
    rate + Accrual(rate, to - from)
  }

  // ----- Accrual arithmetic ------------------------------------------------

  lemma AccrualSplits(rate: real, x: int, y: int)
    ensures Accrual(rate, x + y) == Accrual(rate, x) + Accrual(rate, y)
  {
    var a, c := x as real / NANOS_PER_SECOND, y as real / NANOS_PER_SECOND;
    assert (x + y) as real / NANOS_PER_SECOND == a + c;
    assert (a + c) * rate == a * rate + c * rate;
  }

  lemma ScaleMonotone(x: real, y: real, rate: real)
    requires 0.0 < rate
    ensures x <= y ==> x * rate <= y * rate
    ensures x < y ==> x * rate < y * rate
  {
    if x < y {
      assert (y - x) * rate > 0.0;
    }
  }

  lemma AccrualOfNothing(rate: real)
    ensures Accrual(rate, 0) == 0.0
  {
    assert 0.0 * rate == 0.0;
  }

  lemma AccrualMonotone(rate: real, x: int, y: int)
    requires 0.0 < rate && x <= y
    ensures Accrual(rate, x) <= Accrual(rate, y)
    ensures x < y ==> Accrual(rate, x) < Accrual(rate, y)
    ensures Accrual(rate, 0) == 0.0
  {
    ScaleMonotone(x as real / NANOS_PER_SECOND, y as real / NANOS_PER_SECOND, rate);
    AccrualOfNothing(rate);
  }

  /** A budget is the rate times one plus the length of its window in seconds. */
  lemma BudgetInSeconds(rate: real, t1: int, t2: int)
    ensures Budget(rate, t1, t2) == rate * (1.0 + (t2 - t1) as real / 1000000000.0)
  {
    var secs := (t2 - t1) as real / NANOS_PER_SECOND;
    assert rate * (1.0 + secs) == rate + secs * rate;
  }

  lemma BudgetExtends(rate: real, from: int, mid: int, to: int)
    ensures Budget(rate, from, to) == Budget(rate, from, mid) + Accrual(rate, to - mid)
  {
    hide Accrual;
    AccrualSplits(rate, mid - from, to - mid);
  }

  // ----- Step invariant ----------------------------------------------------

  lemma StepKeepsValid(b: Bucket, op: Op)
    requires Valid(b) && b.last <= op.at
    ensures Valid(Step(b, op)) && Step(b, op).rate == b.rate && Step(b, op).last == op.at
  {
    hide Accrual;
    AccrualMonotone(b.rate, 0, op.at - b.last);
  }

  lemma {:induction false} AfterKeepsValid(b: Bucket, ops: seq<Op>, n: nat)
    requires Valid(b) && Timely(b, ops) && n <= |ops|
    ensures Valid(After(b, ops, n)) && After(b, ops, n).rate == b.rate
    ensures After(b, ops, n).last == if n == 0 then b.last else ops[n - 1].at
  {
    hide Accrual;
    if n > 0 {
      AfterKeepsValid(b, ops, n - 1);
      StepKeepsValid(After(b, ops, n - 1), ops[n - 1]);
    }
  }

  // ----- The bucket is exact -----------------------------------------------

  /** Start of the `j`-th window; the window after the last operation starts now. */
  function WindowStart(ops: seq<Op>, n: nat, j: nat, now: int): int
    requires n <= |ops|
  {
    if j < n then ops[j].at else now
  }

  /** What the `j`-th window still allows at `now`, after the first `n` operations. */
  function Slack(b: Bucket, ops: seq<Op>, n: nat, j: nat, now: int): real
    requires n <= |ops|
  {
    Budget(b.rate, WindowStart(ops, n, j, now), now) - Count(Decisions(b, ops), j, n) as real
  }

  /** An operation spends from every window already open, and time earns for all of them. */
  lemma SlackShifts(b: Bucket, ops: seq<Op>, n: nat, j: nat, now: int)
    requires j < n <= |ops|
    ensures Slack(b, ops, n, j, now)
            == Slack(b, ops, n - 1, j, ops[n - 1].at) - (if Granted(b, ops, n - 1) then 1.0 else 0.0)
               + Accrual(b.rate, now - ops[n - 1].at)
  {
    hide Accrual, Budget, Granted;
    BudgetExtends(b.rate, WindowStart(ops, n - 1, j, ops[n - 1].at), ops[n - 1].at, now);
  }

  /** After a refill the stored count is the least slack of any window ending now,
      and some window attains it. */
  lemma {:induction false} TokensAreLeastSlack(rate: real, created: int, ops: seq<Op>, n: nat, now: int)
    returns (tightest: nat)
    requires 0.0 < rate && n <= |ops|
    requires Timely(Fresh(rate, created), ops)
    requires now >= if n == 0 then created else ops[n - 1].at
    ensures tightest <= n
    ensures var b := Fresh(rate, created);
            && Refill(After(b, ops, n), now).tokens == Slack(b, ops, n, tightest, now)
            && forall j :: 0 <= j <= n ==> Refill(After(b, ops, n), now).tokens <= Slack(b, ops, n, j, now)
  {
    hide Accrual, Slack;
    var b := Fresh(rate, created);
    AfterKeepsValid(b, ops, n);
    var end := After(b, ops, n);
    AccrualMonotone(rate, 0, now - end.last);
    NewestSlack(b, ops, n, now);
    if n == 0 {
      tightest := 0;
    } else {
      var at := ops[n - 1].at;
      AfterKeepsValid(b, ops, n - 1);
      var t := TokensAreLeastSlack(rate, created, ops, n - 1, at);
      forall j | 0 <= j < n
        ensures Slack(b, ops, n, j, now)
                == Slack(b, ops, n - 1, j, at) - (if Granted(b, ops, n - 1) then 1.0 else 0.0) + Accrual(rate, now - at)
      {
        SlackShifts(b, ops, n, j, now);
      }
      tightest := if end.tokens + Accrual(rate, now - at) > rate then n else t;
    }
  }

  /** A window that starts now has its whole burst left. */
  lemma NewestSlack(b: Bucket, ops: seq<Op>, n: nat, now: int)
    requires n <= |ops|
    ensures Slack(b, ops, n, n, now) == b.rate
  {
    hide Accrual;
    AccrualOfNothing(b.rate);
  }

  /** The window that starts at the bucket's creation bounds the stored count too. */
  lemma CreationWindowHolds(rate: real, created: int, ops: seq<Op>, n: nat, now: int)
    requires 0.0 < rate && n <= |ops| && Timely(Fresh(rate, created), ops)
    requires now >= if n == 0 then created else ops[n - 1].at
    ensures var b := Fresh(rate, created);
            Refill(After(b, ops, n), now).tokens <= Budget(rate, created, now) - Count(Decisions(b, ops), 0, n) as real
  {
    hide Accrual;
    var b := Fresh(rate, created);
    var _ := TokensAreLeastSlack(rate, created, ops, n, now);
    var first := WindowStart(ops, n, 0, now);
    assert Refill(After(b, ops, n), now).tokens <= Slack(b, ops, n, 0, now);
    AccrualMonotone(rate, now - first, now - created);
  }

  /** What a sliding-window check over the whole history would ask of one more grant at `now`:
      that every window ending now, from an earlier operation, from the creation of the bucket,
      or starting now, stays within its budget. */
  ghost predicate EveryWindowFits(rate: real, created: int, ops: seq<Op>, now: int) {
    var ds := Decisions(Fresh(rate, created), ops);
    && (forall j :: 0 <= j <= |ops| ==>
          Count(ds, j, |ops|) as real + 1.0 <= Budget(rate, WindowStart(ops, |ops|, j, now), now))
    && Count(ds, 0, |ops|) as real + 1.0 <= Budget(rate, created, now)
  }

  /** The one-number bucket refines the sliding-window check over the whole history. */
  lemma GrantIffEveryWindowFits(rate: real, created: int, ops: seq<Op>, now: int)
    requires 0.0 < rate && Timely(Fresh(rate, created), ops + [Attempt(now)])
    ensures Admits(After(Fresh(rate, created), ops, |ops|), now) <==> EveryWindowFits(rate, created, ops, now)
  {
    hide Accrual, Budget;
    var b := Fresh(rate, created);
    var n := |ops|;
    TimelyPrefix(b, ops, Attempt(now));
    var t := TokensAreLeastSlack(rate, created, ops, n, now);
    CreationWindowHolds(rate, created, ops, n, now);
    forall j | 0 <= j <= n
      ensures Slack(b, ops, n, j, now) == Budget(rate, WindowStart(ops, n, j, now), now) - Count(Decisions(b, ops), j, n) as real
    {}
  }

  lemma TimelyPrefix(b: Bucket, ops: seq<Op>, last: Op)
    requires Timely(b, ops + [last])
    ensures Timely(b, ops)
    ensures last.at >= if |ops| == 0 then b.last else ops[|ops| - 1].at
  {
    var all := ops + [last];
    assert forall i :: 0 <= i < |ops| ==> all[i] == ops[i];
    assert all[|ops|] == last;
  }

  // ----- The bucket is optimal ---------------------------------------------

  /** A choice of grants that keeps every window between two operations within budget. */
  ghost predicate RespectsBudgets(rate: real, ops: seq<Op>, choice: seq<bool>) {
    && |choice| == |ops|
    && (forall i :: 0 <= i < |ops| && choice[i] ==> ops[i].Attempt?)
    && (forall i, j :: 0 <= i <= j < |ops| ==>
          Count(choice, i, j + 1) as real <= Budget(rate, ops[i].at, ops[j].at))
  }

  lemma {:induction false} CountSplits(ds: seq<bool>, lo: nat, mid: nat, hi: nat)
    requires lo <= mid <= hi <= |ds|
    ensures Count(ds, lo, hi) == Count(ds, lo, mid) + Count(ds, mid, hi)
  {
    if mid < hi {
      CountSplits(ds, lo, mid, hi - 1);
    }
  }

  /** The bucket's own grants respect every window budget. */
  lemma BucketRespectsBudgets(rate: real, created: int, ops: seq<Op>)
    requires 0.0 < rate && Timely(Fresh(rate, created), ops)
    ensures RespectsBudgets(rate, ops, Decisions(Fresh(rate, created), ops))
  {
    hide Accrual;
    var b := Fresh(rate, created);
    var ds := Decisions(b, ops);
    forall i, j | 0 <= i <= j < |ops|
      ensures Count(ds, i, j + 1) as real <= Budget(rate, ops[i].at, ops[j].at)
    {
      var now := ops[j].at;
      AfterKeepsValid(b, ops, j + 1);
      var _ := TokensAreLeastSlack(rate, created, ops, j + 1, now);
      assert Refill(After(b, ops, j + 1), now).tokens <= Slack(b, ops, j + 1, i, now);
      AccrualMonotone(rate, 0, 0);
      assert 0.0 <= Refill(After(b, ops, j + 1), now).tokens;
    }
  }

  /** No other budget-respecting choice is ever ahead of the bucket, at any prefix. */
  lemma {:induction false} BucketIsOptimal(rate: real, created: int, ops: seq<Op>, choice: seq<bool>, n: nat)
    requires 0.0 < rate && Timely(Fresh(rate, created), ops)
    requires RespectsBudgets(rate, ops, choice) && n <= |ops|
    ensures Count(choice, 0, n) <= Count(Decisions(Fresh(rate, created), ops), 0, n)
  {
    hide Accrual;
    var b := Fresh(rate, created);
    var ds := Decisions(b, ops);
    if n > 0 {
      BucketIsOptimal(rate, created, ops, choice, n - 1);
      var m := n - 1;
      if choice[m] && !ds[m] {
        // The bucket refused, so some window is already full; exchange on its start.
        var now := ops[m].at;
        AfterKeepsValid(b, ops, m);
        var j := TokensAreLeastSlack(rate, created, ops, m, now);
        assert Slack(b, ops, m, j, now) < 1.0;
        assert WindowStart(ops, m, j, now) == ops[j].at;
        assert Count(choice, j, m + 1) as real <= Budget(rate, ops[j].at, ops[m].at);
        assert Count(choice, j, n) < Count(ds, j, m) + 1;
        BucketIsOptimal(rate, created, ops, choice, j);
        CountSplits(choice, 0, j, n);
        CountSplits(ds, 0, j, m);
      }
    }
  }

  // ----- Rate safety -------------------------------------------------------

  lemma {:induction false} TokensPlusRecentGrants(b: Bucket, ops: seq<Op>, n: nat, t1: int, t2: int)
    requires Valid(b) && Timely(b, ops) && n <= |ops|
    requires forall i :: 0 <= i < n ==> ops[i].at <= t2
    ensures n > 0 && t1 <= ops[n - 1].at ==>
              CountBetween(b, ops, n, t1, t2) as real + After(b, ops, n).tokens <= Budget(b.rate, t1, ops[n - 1].at)
    ensures n == 0 || ops[n - 1].at < t1 ==> CountBetween(b, ops, n, t1, t2) == 0
  {
    hide Accrual;
    if n > 0 {
      TokensPlusRecentGrants(b, ops, n - 1, t1, t2);
      AfterKeepsValid(b, ops, n - 1);
      var now := ops[n - 1].at;
      if t1 <= now {
        AccrualMonotone(b.rate, 0, now - t1);
        if n > 1 && t1 <= ops[n - 2].at {
          BudgetExtends(b.rate, t1, ops[n - 2].at, now);
        }
      }
    }
  }

  lemma {:induction false} GrantsWithinBudget(b: Bucket, ops: seq<Op>, n: nat, t1: int, t2: int)
    requires Valid(b) && Timely(b, ops) && n <= |ops| && t1 <= t2
    ensures CountBetween(b, ops, n, t1, t2) as real <= Budget(b.rate, t1, t2)
  {
    hide Accrual;
    AccrualMonotone(b.rate, 0, t2 - t1);
    if n > 0 && ops[n - 1].at > t2 {
      GrantsWithinBudget(b, ops, n - 1, t1, t2);
    } else if n > 0 {
      TokensPlusRecentGrants(b, ops, n, t1, t2);
      AfterKeepsValid(b, ops, n);
      if t1 <= ops[n - 1].at {
        AccrualMonotone(b.rate, ops[n - 1].at - t1, t2 - t1);
      }
    }
  }

  /** Between any two instants no more is granted than the budget of the time between them, and
      at every moment the token count stays between zero and the capacity. */
  lemma RateSafety(b: Bucket, ops: seq<Op>, n: nat, t1: int, t2: int)
    requires Valid(b) && Timely(b, ops) && n <= |ops| && t1 <= t2
    ensures CountBetween(b, ops, n, t1, t2) as real <= Budget(b.rate, t1, t2) == b.rate * (1.0 + (t2 - t1) as real / 1000000000.0)
    ensures 0.0 <= After(b, ops, n).tokens <= b.rate
  {
    BudgetInSeconds(b.rate, t1, t2);
    hide Accrual, Budget, After, CountBetween;
    GrantsWithinBudget(b, ops, n, t1, t2);
    AfterKeepsValid(b, ops, n);
  }

  // ----- The budget is attained --------------------------------------------

  const SECOND: int := 1000000000

  /** `k` attempts at once, then again every second. */
  function Bursts(k: nat, start: int, seconds: nat): (ops: seq<Op>)
    ensures |ops| == k * (seconds + 1)
    ensures forall i :: 0 <= i < |ops| ==> ops[i].Attempt? && start <= ops[i].at <= start + seconds * SECOND
  {
    var burst := seq(k, _ => Attempt(start + seconds * SECOND));
    if seconds == 0 then burst else Bursts(k, start, seconds - 1) + burst
  }

  lemma {:induction false} AfterOfPrefix(b: Bucket, first: seq<Op>, rest: seq<Op>, n: nat)
    requires n <= |first|
    ensures After(b, first + rest, n) == After(b, first, n)
  {
    hide Step;
    if n > 0 {
      AfterOfPrefix(b, first, rest, n - 1);
    }
  }

  /** A bucket that is full at `at` grants a burst of up to its capacity. */
  lemma {:induction false} BurstIsGranted(b: Bucket, prior: seq<Op>, k: nat, at: int, j: nat)
    requires Valid(b) && k as real <= b.rate && j <= k
    requires Refill(After(b, prior, |prior|), at).tokens == b.rate
    ensures var ops := prior + seq(k, _ => Attempt(at));
            && Refill(After(b, ops, |prior| + j), at) == Bucket(b.rate, b.rate - j as real, at)
            && (j > 0 ==> After(b, ops, |prior| + j).last == at && Granted(b, ops, |prior| + j - 1))
  {
    hide Accrual;
    var burst := seq(k, _ => Attempt(at));
    AccrualOfNothing(b.rate);
    if j == 0 {
      AfterOfPrefix(b, prior, burst, |prior|);
    } else {
      BurstIsGranted(b, prior, k, at, j - 1);
      assert (prior + burst)[|prior| + j - 1] == Attempt(at);
    }
  }

  lemma BurstAfter(b: Bucket, prior: seq<Op>, k: nat, at: int)
    requires Valid(b) && 1 <= k && k as real <= b.rate
    requires forall i :: 0 <= i < |prior| ==> Granted(b, prior, i)
    requires Refill(After(b, prior, |prior|), at).tokens == b.rate
    ensures var ops := prior + seq(k, _ => Attempt(at));
            && (forall i :: 0 <= i < |ops| ==> Granted(b, ops, i))
            && Refill(After(b, ops, |ops|), at + SECOND).tokens == b.rate
  {
    hide Granted, After, Refill, Valid;
    var burst := seq(k, _ => Attempt(at));
    var ops := prior + burst;
    forall i | 0 <= i < |ops|
      ensures Granted(b, ops, i)
    {
      if i < |prior| {
        AfterOfPrefix(b, prior, burst, i);
        SameGrant(b, prior, ops, i);
      } else {
        BurstIsGranted(b, prior, k, at, i - |prior| + 1);
      }
    }
    BurstIsGranted(b, prior, k, at, k);
    FullAgain(After(b, ops, |ops|), at);
  }

  /** Every attempt of such bursts is granted, and each second fills the bucket again. */
  lemma {:induction false} BurstsAreGranted(rate: real, k: nat, start: int, seconds: nat)
    requires 0.0 < rate && 1 <= k && k as real <= rate
    ensures var b, ops := Fresh(rate, start), Bursts(k, start, seconds);
            && (forall i :: 0 <= i < |ops| ==> Granted(b, ops, i))
            && Refill(After(b, ops, |ops|), start + (seconds + 1) * SECOND).tokens == rate
  {
    hide Granted, After, Refill, Valid;
    var b, at := Fresh(rate, start), start + seconds * SECOND;
    FullAtFirst(rate, start);
    if seconds == 0 {
      BurstAfter(b, [], k, at);
      assert [] + seq(k, _ => Attempt(at)) == Bursts(k, start, seconds);
    } else {
      BurstsAreGranted(rate, k, start, seconds - 1);
      BurstAfter(b, Bursts(k, start, seconds - 1), k, at);
    }
  }

  lemma {:induction false} BurstsAreTimely(rate: real, k: nat, start: int, seconds: nat)
    ensures Timely(Fresh(rate, start), Bursts(k, start, seconds))
  {
    if seconds > 0 {
      BurstsAreTimely(rate, k, start, seconds - 1);
    }
  }

  lemma SameGrant(b: Bucket, some: seq<Op>, all: seq<Op>, i: nat)
    requires some <= all && i < |some| && After(b, some, i) == After(b, all, i)
    ensures Granted(b, some, i) == Granted(b, all, i)
  {}

  lemma FullAtFirst(rate: real, start: int)
    requires 0.0 < rate
    ensures Valid(Fresh(rate, start)) && Refill(After(Fresh(rate, start), [], 0), start).tokens == rate
  {
    hide Accrual;
    AccrualOfNothing(rate);
  }

  lemma FullAgain(b: Bucket, at: int)
    requires 0.0 < b.rate && b.last == at && Refill(b, at).tokens >= 0.0
    ensures Refill(b, at + SECOND).tokens == b.rate
  {
    AccrualOfNothing(b.rate);
    assert Accrual(b.rate, SECOND) == b.rate;
  }

  lemma {:induction false} AllCounted(b: Bucket, ops: seq<Op>, n: nat, t1: int, t2: int)
    requires n <= |ops| && forall i :: 0 <= i < |ops| ==> Granted(b, ops, i) && t1 <= ops[i].at <= t2
    ensures CountBetween(b, ops, n, t1, t2) == n
  {
    hide Granted;
    if n > 0 {
      AllCounted(b, ops, n - 1, t1, t2);
    }
  }

  /** The budget of a window is attained: at every whole rate, and over every whole number of
      seconds. */
  lemma BudgetIsAttained(k: nat, start: int, seconds: nat) returns (ops: seq<Op>)
    requires 1 <= k
    ensures var rate := k as real;
            && Timely(Fresh(rate, start), ops)
            && CountBetween(Fresh(rate, start), ops, |ops|, start, start + seconds * SECOND) as real
               == Budget(rate, start, start + seconds * SECOND)
  {
    hide Granted, After, Refill, Timely, CountBetween;
    ops := Bursts(k, start, seconds);
    BurstsAreGranted(k as real, k, start, seconds);
    BurstsAreTimely(k as real, k, start, seconds);
    AllCounted(Fresh(k as real, start), ops, |ops|, start, start + seconds * SECOND);
    BudgetInSeconds(k as real, start, start + seconds * SECOND);
    assert (seconds * SECOND) as real / NANOS_PER_SECOND == seconds as real;
  }

  lemma {:induction false} SlowNeverGrants(b: Bucket, ops: seq<Op>, n: nat, t1: int, t2: int)
    requires b.rate < 1.0 && n <= |ops|
    ensures CountBetween(b, ops, n, t1, t2) == 0
  {
    hide Accrual, After;
    if n > 0 {
      SlowNeverGrants(b, ops, n - 1, t1, t2);
    }
  }

  /** What the source promises: in the second from `t` on, at most `rate` of the attempts of this
      history are granted. */
  ghost predicate AtMostRateInSecond(rate: real, created: int, ops: seq<Op>, t: int) {
    Timely(Fresh(rate, created), ops) ==>
      CountBetween(Fresh(rate, created), ops, |ops|, t, t + SECOND) as real <= rate
  }

  /** No second ever sees more than `rate` grants exactly if the rate is below one, when nothing is
      granted at all: any bucket that grants can grant twice its whole capacity within a second. */
  lemma AtMostRatePerSecondIffNothingGranted(rate: real)
    requires 0.0 < rate
    ensures (forall created, ops, t :: AtMostRateInSecond(rate, created, ops, t)) <==> rate < 1.0
  {
    hide Granted, After, Refill, CountBetween, Valid, Timely;
    if rate < 1.0 {
      forall created, ops, t
        ensures AtMostRateInSecond(rate, created, ops, t)
      {
        SlowNeverGrants(Fresh(rate, created), ops, |ops|, t, t + SECOND);
      }
    } else {
      var k := rate.Floor;
      var ops := Bursts(k, 0, 1);
      BurstsAreGranted(rate, k, 0, 1);
      BurstsAreTimely(rate, k, 0, 1);
      AllCounted(Fresh(rate, 0), ops, |ops|, 0, 0 + SECOND);
      assert (2 * k) as real > rate;
      assert !AtMostRateInSecond(rate, 0, ops, 0);
    }
  }

  // ----- Observation is transparent ----------------------------------------

  lemma RefillComposes(b: Bucket, t1: int, t2: int)
    requires Valid(b) && b.last <= t1 <= t2
    ensures Refill(Refill(b, t1), t2) == Refill(b, t2)
  {
    hide Accrual;
    AccrualSplits(b.rate, t1 - b.last, t2 - t1);
    AccrualMonotone(b.rate, 0, t1 - b.last);
    AccrualMonotone(b.rate, 0, t2 - t1);
  }

  /** The operations marked in `keep`, in order. */
  function Select<T>(xs: seq<T>, keep: seq<bool>, n: nat): seq<T>
    requires n <= |xs| && |keep| == |xs|
  {
    if n == 0 then [] else Select(xs, keep, n - 1) + if keep[n - 1] then [xs[n - 1]] else []
  }

  lemma {:induction false} AfterExtends(b: Bucket, ops: seq<Op>, op: Op, n: nat)
    requires n <= |ops|
    ensures After(b, ops + [op], n) == After(b, ops, n)
  {
    if n > 0 {
      AfterExtends(b, ops, op, n - 1);
    }
  }

  lemma DecisionsExtend(b: Bucket, ops: seq<Op>, op: Op)
    ensures Decisions(b, ops + [op]) == Decisions(b, ops) + [Grants(After(b, ops, |ops|), op)]
    ensures After(b, ops + [op], |ops| + 1) == Step(After(b, ops, |ops|), op)
  {
    forall i | 0 <= i <= |ops|
      ensures After(b, ops + [op], i) == After(b, ops, i)
    {
      AfterExtends(b, ops, op, i);
    }
  }

  /** `thin` has seen fewer readings of the clock than `full`, and no later reader can tell. */
  ghost predicate Alike(thin: Bucket, full: Bucket) {
    && Valid(thin) && Valid(full) && thin.last <= full.last
    && forall t :: full.last <= t ==> Refill(thin, t) == Refill(full, t)
  }

  lemma KeptStep(thin: Bucket, full: Bucket, op: Op)
    requires Alike(thin, full) && full.last <= op.at
    ensures Grants(thin, op) == Grants(full, op)
    ensures Alike(Step(thin, op), Step(full, op))
  {
    hide Accrual;
    StepKeepsValid(full, op);
    assert Refill(thin, op.at) == Refill(full, op.at);
    assert Step(thin, op) == Step(full, op);
  }

  lemma DroppedStep(thin: Bucket, full: Bucket, op: Op)
    requires Alike(thin, full) && full.last <= op.at && !Grants(full, op)
    ensures Alike(thin, Step(full, op))
  {
    hide Accrual;
    StepKeepsValid(full, op);
    forall t | op.at <= t
      ensures Refill(thin, t) == Refill(Step(full, op), t)
    {
      RefillComposes(full, op.at, t);
    }
  }

  /** Dropping any observations and any refused attempts changes neither which of the
      remaining attempts are granted nor the tokens any later reader sees. */
  lemma {:induction false} ObservationIsTransparent(b: Bucket, ops: seq<Op>, keep: seq<bool>, n: nat)
    requires Valid(b) && Timely(b, ops) && |keep| == |ops| && n <= |ops|
    requires forall i :: 0 <= i < |ops| && Granted(b, ops, i) ==> keep[i]
    ensures var kept := Select(ops, keep, n);
            && Decisions(b, kept) == Select(Decisions(b, ops), keep, n)
            && Alike(After(b, kept, |kept|), After(b, ops, n))
  {
    hide Refill, Valid, Alike, Grants, Step;
    if n == 0 {
      AlikeItself(b);
    } else {
      ObservationIsTransparent(b, ops, keep, n - 1);
      AfterKeepsValid(b, ops, n - 1);
      var kept, op := Select(ops, keep, n - 1), ops[n - 1];
      var thin, full := After(b, kept, |kept|), After(b, ops, n - 1);
      if keep[n - 1] {
        DecisionsExtend(b, kept, op);
        KeptStep(thin, full, op);
      } else {
        assert Select(ops, keep, n) == kept;
        assert Select(Decisions(b, ops), keep, n) == Select(Decisions(b, ops), keep, n - 1);
        DroppedStep(thin, full, op);
      }
    }
  }

  lemma AlikeItself(b: Bucket)
    requires Valid(b)
    ensures Alike(b, b)
  {}

  // ----- The sleep is tight ------------------------------------------------

  lemma DivideThenMultiply(x: real, rate: real)
    requires 0.0 < rate && 0.0 <= x
    ensures x / rate * rate == x && 0.0 <= x / rate
  {}

  lemma SleepBounds(b: Bucket)
    requires Valid(b) && b.tokens < 1.0
    ensures 0 <= SleepNanos(b)
    ensures Accrual(b.rate, SleepNanos(b)) <= 1.0 - b.tokens < Accrual(b.rate, SleepNanos(b) + 1)
  {
    var seconds := (1.0 - b.tokens) / b.rate;
    var ns := SleepNanos(b);
    DivideThenMultiply(1.0 - b.tokens, b.rate);
    assert ns as real / NANOS_PER_SECOND <= seconds < (ns + 1) as real / NANOS_PER_SECOND;
    ScaleMonotone(ns as real / NANOS_PER_SECOND, seconds, b.rate);
    ScaleMonotone(seconds, (ns + 1) as real / NANOS_PER_SECOND, b.rate);
  }

  /** After a refused attempt: no instant before the sleep ends admits; at its end the residual
      deficit is below one nanosecond of accrual; and every instant at least one nanosecond
      after its end admits, exactly when the rate is at least one. */
  lemma SleepIsTight(b: Bucket, t: int)
    requires Valid(b) && b.tokens < 1.0 && b.last <= t
    ensures t < b.last + SleepNanos(b) ==> !Admits(b, t)
    ensures t == b.last + SleepNanos(b) ==> 1.0 - Refill(b, t).tokens < Accrual(b.rate, 1) || b.rate < 1.0
    ensures t > b.last + SleepNanos(b) ==> (Admits(b, t) <==> b.rate >= 1.0)
    ensures b.rate < 1.0 ==> !Admits(b, t)
  {
    hide Accrual;
    SleepBounds(b);
    var ns := SleepNanos(b);
    var elapsed := t - b.last;
    AccrualSplits(b.rate, ns, 1);
    if elapsed < ns {
      AccrualMonotone(b.rate, elapsed, ns);
    } else if elapsed > ns {
      AccrualMonotone(b.rate, ns + 1, elapsed);
    }
  }

  /** A bucket makes progress exactly when its rate is at least one: below it no instant
      ever admits, at or above it every bucket admits from some instant on. */
  lemma ProgressIffRateAtLeastOne(b: Bucket)
    requires Valid(b)
    ensures b.rate >= 1.0 <==> exists t :: b.last <= t && Admits(b, t)
    ensures b.rate >= 1.0 && b.tokens < 1.0 ==>
              forall t :: b.last + SleepNanos(b) < t ==> Admits(b, t)
  {
    hide Accrual;
    if b.tokens >= 1.0 {
      forall t | b.last <= t
        ensures Admits(b, t)
      {
        AccrualMonotone(b.rate, 0, t - b.last);
      }
      assert Admits(b, b.last);
    } else {
      SleepBounds(b);
      var t0 := b.last + SleepNanos(b) + 1;
      forall t | b.last <= t
        ensures Admits(b, t) ==> b.rate >= 1.0
        ensures t0 <= t && b.rate >= 1.0 ==> Admits(b, t)
      {
        SleepIsTight(b, t);
      }
      assert b.rate >= 1.0 ==> b.last <= t0 && Admits(b, t0);
    }
  }

  // ----- One call of Wait ----------------------------------------------------

  /** The attempts of a waiter that reads the clock at the given instants. */
  function AttemptsAt(readings: seq<int>): seq<Op> {
    seq(|readings|, i requires 0 <= i < |readings| => Attempt(readings[i]))
  }

  /** A lone waiter that honours its sleeps, on a clock that has advanced by its third
      reading, never needs a fourth attempt. */
  lemma LoneWaiterNeedsThreeAttempts(b: Bucket, r0: int, r1: int, r2: int)
    requires Valid(b) && b.rate >= 1.0 && b.last <= r0
    requires !Admits(b, r0)
    requires r0 + SleepNanos(Take(b, r0)) <= r1 < r2
    ensures Admits(Take(b, r0), r1) || Admits(Take(Take(b, r0), r1), r2)
    ensures r0 + SleepNanos(Take(b, r0)) < r1 ==> Admits(Take(b, r0), r1)
  {
    hide Accrual;
    var b1 := Take(b, r0);
    StepKeepsValid(b, Attempt(r0));
    SleepBounds(b1);
    SleepIsTight(b1, r1);
    SleepIsTight(b1, r2);
    RefillComposes(b1, r1, r2);
  }
}
