/** The sequential `Send` is one interleaving of the concurrent engine: a call whose events all
    happen in a row ends as `SesSend.SendSpec` says. So what `Engine` proves about every run
    holds of the sender object, and what the object returns is what the engine computes. */
module SoloSend {
  import opened Text
  import opened Wrappers
  import opened Delivery
  import opened BucketSpec
  import opened VerifyCache
  import opened SesSend
  import opened Engine
  import Suppression

  /** The events lead from `s` to `t`, each enabled in turn. */
  ghost predicate Leads(s: State, es: seq<Event>, t: State)
    decreases |es|
  {
    if es == [] then s == t else Enabled(s, es[0]) && Leads(Apply(s, es[0]), es[1..], t)
  }

  lemma {:induction false} LeadsOn(s: State, es: seq<Event>, t: State, more: seq<Event>, u: State)
    requires Leads(s, es, t) && Leads(t, more, u)
    ensures Leads(s, es + more, u)
    decreases |es|
  {
    hide Enabled, Apply;
    if es == [] {
      assert es + more == more;
    } else {
      LeadsOn(Apply(s, es[0]), es[1..], t, more, u);
      assert (es + more)[1..] == es[1..] + more;
    }
  }

  lemma LeadsByOne(s: State, e: Event)
    requires Enabled(s, e)
    ensures Leads(s, [e], Apply(s, e))
  {
    assert [e][1..] == [];
  }

  /** Prefixes an event. */
  lemma LeadsAfter(s: State, e: Event, es: seq<Event>, t: State)
    requires Enabled(s, e) && Leads(Apply(s, e), es, t)
    ensures Leads(s, [e] + es, t)
  {
    LeadsByOne(s, e);
    LeadsOn(s, [e], Apply(s, e), es, t);
  }

  function Put(s: State, c: nat, call: Call): State {
    s.(calls := s.calls[c := call])
  }

  /** The filter, from the `i`-th recipient on. */
  lemma {:induction false} Filters(s: State, c: nat, msg: Message, up: seq<bool>, i: nat) returns (es: seq<Event>, t: State)
    requires |up| == |Everyone(msg)| && i <= |up| && false !in up[..i]
    requires c in s.calls && s.calls[c] == Call(Mail(msg), Hits(s.list.Keys, Everyone(msg))[..i], Filtering)
    ensures Leads(s, es, t)
    ensures false !in up ==> t == Put(s, c, Call(Mail(msg), Hits(s.list.Keys, Everyone(msg)), Filtering))
    ensures false in up ==>
              && At(t, c, Finished(Some(ListFailed(Suppression.DatabaseFailure))))
              && t == Put(s, c, t.calls[c]) && t.calls[c].task == Mail(msg)
    decreases |up| - i
  {
    hide Leads, Normalize;
    var all, hits := Everyone(msg), Hits(s.list.Keys, Everyone(msg));
    if i == |up| {
      assert hits[..i] == hits && up[..i] == up;
      es, t := [], s;
      assert s.calls[c := s.calls[c]] == s.calls;
      LeadsNowhere(s);
    } else {
      var e := LookUp(c, up[i]);
      LeadsByOne(s, e);
      if up[i] {
        assert hits[..i + 1] == hits[..i] + [hits[i]] && up[..i + 1] == up[..i] + [true];
        var s' := Apply(s, e);
        es, t := Filters(s', c, msg, up, i + 1);
        LeadsAfter(s, e, es, t);
        es := [e] + es;
      } else {
        es, t := [e], Apply(s, e);
        assert up[i] in up;
      }
    }
  }

  lemma LeadsNowhere(s: State)
    ensures Leads(s, [], s)
  {}

  /** The gate, for a message let through or refused by `SesSend.Gate`. */
  lemma Gates(s: State, c: nat, msg: Message, w: World) returns (es: seq<Event>, t: State)
    requires s.cfg.requireVerified && SenderDomain(msg.from.email) != ""
    requires c in s.calls && s.calls[c].task == Mail(msg) && s.calls[c].phase == Gating(SenderDomain(msg.from.email))
    ensures Leads(s, es, t)
    ensures var (refusal, cache) := Gate(s.cfg, s.cache, msg, w);
            t == To(s, c, if refusal.None? then Waiting(false) else Finished(refusal)).(cache := cache)
  {
    hide Leads, SenderDomain, Lookup, Record, IsSuccess;
    var domain := SenderDomain(msg.from.email);
    var e := Consult(c, w.gateNow);
    LeadsByOne(s, e);
    es, t := [e], Apply(s, e);
    if Lookup(s.cache, domain, w.gateNow).None? {
      var ask := Reply(c, w.gateReply);
      LeadsByOne(t, ask);
      LeadsOn(s, es, t, [ask], Apply(t, ask));
      es, t := es + [ask], Apply(t, ask);
      if !w.gateReply.ApiError? {
        var store := Store(c, w.gateLater);
        LeadsByOne(t, store);
        LeadsOn(s, es, t, [store], Apply(t, store));
        es, t := es + [store], Apply(t, store);
      }
    }
  }

  lemma TokenStep(s: State, c: nat, tried: bool, now: int)
    requires At(s, c, Waiting(tried)) && s.bucket.last <= now
    ensures Enabled(s, TryToken(c, now))
    ensures Apply(s, TryToken(c, now))
            == To(s, c, if Admits(s.bucket, now) then Paid else Waiting(true)).(bucket := Take(s.bucket, now))
  {
    hide Admits, Take;
  }

  /** The wait: attempts up to the first grant. */
  lemma {:induction false} Waits(s: State, c: nat, readings: seq<int>, tried: bool) returns (es: seq<Event>, t: State)
    requires |readings| > 0 && Timely(s.bucket, AttemptsAt(readings))
    requires At(s, c, Waiting(tried))
    ensures Leads(s, es, t)
    ensures var n, ops := Attempts(s.bucket, readings), AttemptsAt(readings);
            t == To(s, c, if Granted(s.bucket, ops, n - 1) then Paid else Waiting(true)).(bucket := After(s.bucket, ops, n))
    decreases |readings|
  {
    hide Leads, Accrual, Refill, Normalize, NobodyLeft, Everyone, Lookup, Record;
    var ops, e := AttemptsAt(readings), TryToken(c, readings[0]);
    assert ops[0].at == readings[0];
    TokenStep(s, c, tried, readings[0]);
    hide Apply, Enabled;
    LeadsByOne(s, e);
    var s' := Apply(s, e);
    if |readings| == 1 || Admits(s.bucket, readings[0]) {
      es, t := [e], s';
      assert After(s.bucket, ops, 1) == Take(s.bucket, readings[0]);
    } else {
      var rest := readings[1..];
      assert Timely(s'.bucket, AttemptsAt(rest)) by {
        TimelyTail(s.bucket, readings);
      }
      es, t := Waits(s', c, rest, true);
      LeadsAfter(s, e, es, t);
      es := [e] + es;
      var n := Attempts(s'.bucket, rest);
      AfterTail(s.bucket, readings, n - 1);
      AfterTail(s.bucket, readings, n);
    }
  }

  lemma TimelyTail(b: Bucket, readings: seq<int>)
    requires |readings| > 0 && Timely(b, AttemptsAt(readings))
    ensures Timely(Take(b, readings[0]), AttemptsAt(readings[1..]))
  {
    var ops, rest := AttemptsAt(readings), AttemptsAt(readings[1..]);
    assert forall i :: 0 <= i < |rest| ==> rest[i] == ops[i + 1];
    assert ops[0].at == readings[0];
  }

  /** SES is called with the token, or the wait is given up. */
  lemma Ends(s: State, c: nat, accepts: bool) returns (last: Event, t: State)
    requires At(s, c, Paid) || At(s, c, Waiting(true))
    ensures Leads(s, [last], t)
    ensures t == To(s, c, Finished(if s.calls[c].phase.Waiting? then Some(Cancelled)
                                   else if accepts then None else Some(SesRejected)))
  {
    last := if s.calls[c].phase.Paid? then SendEmail(c, accepts) else Cancel(c);
    LeadsByOne(s, last);
    t := Apply(s, last);
    hide Leads;
  }

  lemma WaitsAndEnds(s: State, c: nat, readings: seq<int>, accepts: bool) returns (es: seq<Event>, t: State)
    requires |readings| > 0 && Timely(s.bucket, AttemptsAt(readings)) && At(s, c, Waiting(false))
    ensures Leads(s, es, t)
    ensures var n, ops := Attempts(s.bucket, readings), AttemptsAt(readings);
            t == To(s, c, Finished(if !Granted(s.bucket, ops, n - 1) then Some(Cancelled)
                                   else if accepts then None else Some(SesRejected))).(bucket := After(s.bucket, ops, n))
  {
    hide Leads, Attempts, After, Granted, AttemptsAt, Timely;
    es, t := Waits(s, c, readings, false);
    var last, u := Ends(t, c, accepts);
    LeadsOn(s, es, t, [last], u);
    es, t := es + [last], u;
  }

  /** How the engine shows the outcome of a finished call. */
  ghost predicate Shows(t: State, c: nat, msg: Message, outcome: Outcome) {
    && At(t, c, Finished(outcome.err)) && t.calls[c].task == Mail(msg)
    && (outcome.call.Some? ==>
          |t.calls[c].hits| == |Everyone(msg)| && outcome.call == Some(CallFor(t.cfg, msg, t.calls[c].hits)))
  }

  /** Running alone from any state of the engine, a `Send` ends with the error, the envelope and the
      shared state that the sequential specification gives. */
  lemma SoloSendMatchesSpec(s: State, c: nat, msg: Message, w: World) returns (es: seq<Event>, t: State)
    requires c !in s.calls && Usable(s.bucket.last, msg, w)
    ensures Leads(s, [Begin(c, Mail(msg))] + es, t)
    ensures var (shared, outcome) := SendSpec(s.cfg, s.list.Keys, Shared(s.bucket, s.cache), msg, w);
            && Shows(t, c, msg, outcome)
            && t.bucket == shared.bucket && t.cache == shared.cache && t.list == s.list
  {
    hide Leads, Gate, Attempts, After, NobodyLeft, DestinationOf, Accrual;
    var begin, hits := Begin(c, Mail(msg)), Hits(s.list.Keys, Everyone(msg));
    var s1 := Apply(s, begin);
    assert hits[..0] == [];
    es, t := Filters(s1, c, msg, w.up, 0);
    if false !in w.up {
      var filtered := Filtered(c);
      LeadsByOne(t, filtered);
      LeadsOn(s1, es, t, [filtered], Apply(t, filtered));
      es, t := es + [filtered], Apply(t, filtered);
      if !NobodyLeft(msg, hits) {
        es, t := SoloRest(s1, es, t, c, msg, w);
      }
    }
    LeadsAfter(s, begin, es, t);
  }

  /** The part of a send after its filter. */
  lemma SoloRest(s: State, prefix: seq<Event>, mid: State, c: nat, msg: Message, w: World) returns (es: seq<Event>, t: State)
    requires Leads(s, prefix, mid) && Usable(mid.bucket.last, msg, w)
    requires var hits := Hits(mid.list.Keys, Everyone(msg));
             && false !in w.up && !NobodyLeft(msg, hits)
             && c in mid.calls && mid.calls[c] == Call(Mail(msg), hits, AfterFilter(mid.cfg, msg, hits))
    ensures Leads(s, es, t)
    ensures var (shared, outcome) := SendSpec(mid.cfg, mid.list.Keys, Shared(mid.bucket, mid.cache), msg, w);
            && Shows(t, c, msg, outcome)
            && t.bucket == shared.bucket && t.cache == shared.cache && t.list == mid.list
  {
    hide Leads, Attempts, After, NobodyLeft, DestinationOf, Accrual, SenderDomain, Lookup, Record, IsSuccess, Normalize,
         Admits, Take, Grants, Apply, Enabled;
    es, t := prefix, mid;
    if mid.calls[c].phase.Gating? {
      var more, u := Gates(mid, c, msg, w);
      LeadsOn(s, es, t, more, u);
      es, t := es + more, u;
    }
    if t.calls[c].phase.Waiting? {
      assert Timely(t.bucket, AttemptsAt(w.readings));
      var more, u := WaitsAndEnds(t, c, w.readings, w.sesReply.Accepted?);
      LeadsOn(s, es, t, more, u);
      es, t := es + more, u;
    }
  }
}
