/** backend/ses/ratelimit.go: the limiter object, proved against `BucketSpec`. */
module RateLimit {
  import opened BucketSpec

  class TokenBucket {
    const rate: real
    const cap: real
    var tokens: real
    var lastTime: int

    ghost predicate Valid()
      reads this
    {
      cap == rate && BucketSpec.Valid(State())
    }

    ghost function State(): Bucket
      reads this
    {
      Bucket(rate, tokens, lastTime)
    }

    constructor (rate: real, now: int)
      ensures cap == rate && State() == Fresh(rate, now)
      ensures this.rate == rate == tokens && lastTime == now
      ensures 0.0 < rate ==> Valid()
    {
      this.rate := rate;
      this.tokens := rate;
      this.cap := rate;
      this.lastTime := now;
    }

    /** Credits the elapsed time; called with the mutex held. */
    method Credit(now: int)
      requires Valid() && lastTime <= now
      modifies this`tokens, this`lastTime
      ensures Valid() && State() == Refill(old(State()), now)
    {
      StepKeepsValid(State(), Observe(now));
      var elapsed := (now - lastTime) as real / NANOS_PER_SECOND;
      tokens := tokens + elapsed * rate;
      if tokens > cap {
        tokens := cap;
      }
      lastTime := now;
    }

    /** What `Wait` does with the mutex held: takes a token, or computes how long to sleep. */
    method Attempt(now: int) returns (granted: bool, sleep: int)
      requires Valid() && lastTime <= now
      modifies this`tokens, this`lastTime
      ensures Valid() && State() == Take(old(State()), now) && lastTime == now
      ensures granted == Admits(old(State()), now)
      ensures !granted ==> sleep == SleepNanos(State())
      ensures var earned := old(tokens) + (now - old(lastTime)) as real / 1000000000.0 * rate;
              var held := if earned > rate then rate else earned;
              && (granted <==> held >= 1.0) && tokens == (if granted then held - 1.0 else held)
              && (!granted ==> sleep == ((1.0 - held) / rate * 1000000000.0).Floor)
    {
      RefillInNumbers(State(), now);
      hide Accrual;
      Credit(now);
      if tokens >= 1.0 {
        tokens := tokens - 1.0;
        return true, 0;
      }
      var deficit := 1.0 - tokens;
      return false, (deficit / rate * NANOS_PER_SECOND).Floor;
    }

    /** One call of `Wait`. `readings` are the instants at which it reads the clock; the
        context is done after the last one, so every call that returns is such a sequence.
        It makes attempts until the first that is granted, and only then stops early. */
    method Wait(readings: seq<int>) returns (granted: bool, attempts: nat, sleeps: seq<int>)
      requires Valid() && |readings| > 0 && Timely(State(), AttemptsAt(readings))
      modifies this`tokens, this`lastTime
      ensures Valid() && 1 <= attempts <= |readings|
      ensures State() == After(old(State()), AttemptsAt(readings), attempts)
      ensures forall i :: 0 <= i < attempts - 1 ==> !Granted(old(State()), AttemptsAt(readings), i)
      ensures granted == Granted(old(State()), AttemptsAt(readings), attempts - 1)
      ensures granted || attempts == |readings|
      ensures |sleeps| == if granted then attempts - 1 else attempts
      ensures forall i :: 0 <= i < |sleeps| ==>
                sleeps[i] == SleepNanos(After(old(State()), AttemptsAt(readings), i + 1))
    {
      hide Accrual, After, Granted, Refill, Take, Admits, SleepNanos;
      ghost var before, ops := State(), AttemptsAt(readings);
      attempts, sleeps := 0, [];
      NothingYet(before, ops);
      assert ops[0].at >= before.last;
      while true
        invariant 0 <= attempts < |readings|
        invariant Valid() && State() == After(before, ops, attempts)
        invariant lastTime <= readings[attempts]
        invariant forall i :: 0 <= i < attempts ==> !Granted(before, ops, i)
        invariant |sleeps| == attempts
        invariant forall i :: 0 <= i < attempts ==> sleeps[i] == SleepNanos(After(before, ops, i + 1))
        decreases |readings| - attempts
      {
        OneAttempt(before, ops, attempts);
        var sleep;
        granted, sleep := Attempt(readings[attempts]);
        attempts := attempts + 1;
        if granted {
          return;
        }
        sleeps := sleeps + [sleep];
        if attempts == |readings| {
          return;
        }
        assert ops[attempts].at >= ops[attempts - 1].at;
      }
    }

    method Available(now: int) returns (available: real)
      requires Valid() && lastTime <= now
      modifies this`tokens, this`lastTime
      ensures Valid() && State() == Refill(old(State()), now)
      ensures available == tokens
      ensures var earned := old(tokens) + (now - old(lastTime)) as real / 1000000000.0 * rate;
              available == if earned > rate then rate else earned
    {
      Credit(now);
      available := tokens;
    }
  }

  lemma RefillInNumbers(b: Bucket, now: int)
    ensures var earned := b.tokens + (now - b.last) as real / 1000000000.0 * b.rate;
            Refill(b, now).tokens == if earned > b.rate then b.rate else earned
  {}

  lemma NothingYet(b: Bucket, ops: seq<Op>)
    ensures After(b, ops, 0) == b
  {}

  lemma OneAttempt(b: Bucket, ops: seq<Op>, n: nat)
    requires n < |ops| && ops[n].Attempt?
    ensures Granted(b, ops, n) == Admits(After(b, ops, n), ops[n].at)
    ensures After(b, ops, n + 1) == Take(After(b, ops, n), ops[n].at)
  {}
}
