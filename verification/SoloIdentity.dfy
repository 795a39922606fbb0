/** The manager object running alone is one interleaving of the protocol of `IdentityCap`: given
    the pages of the region it manages, its methods take the protocol's steps. So the bounds
    proved there for every run bound what the object does. */
module SoloIdentity {
  import opened Wrappers
  import opened IdentityCap
  import opened Identity

  /** The events lead from `s` to `t`, each enabled in turn. */
  ghost predicate Path(s: State, es: seq<Event>, t: State)
    decreases |es|
  {
    if es == [] then s == t else Enabled(s, es[0]) && Path(Apply(s, es[0]), es[1..], t)
  }

  lemma PathAfter(s: State, e: Event, es: seq<Event>, t: State)
    requires Enabled(s, e) && Path(Apply(s, e), es, t)
    ensures Path(s, [e] + es, t)
  {
    assert ([e] + es)[1..] == es;
  }

  lemma PathOfOne(s: State, e: Event)
    requires Enabled(s, e)
    ensures Path(s, [e], Apply(s, e))
  {
    assert [e][1..] == [];
  }

  /** Page boundaries from `from` on. */
  predicate Ascending(from: nat, cuts: seq<nat>)
    decreases |cuts|
  {
    cuts == [] || (from <= cuts[0] && Ascending(cuts[0], cuts[1..]))
  }

  /** The replies of a listing of the region cut into pages, or cut short by an error. */
  function RepliesOf(region: set<nat>, from: nat, cuts: seq<nat>, fails: bool): seq<ListReply>
    decreases |cuts|
  {
    if cuts == [] then [if fails then ListError else ListPage(|Rest(region, from)|, false)]
    else [ListPage(|Range(region, from, cuts[0])|, true)] + RepliesOf(region, cuts[0], cuts[1..], fails)
  }

  lemma {:induction false} ListedCons(reply: ListReply, replies: seq<ListReply>, n: nat)
    requires n <= |replies|
    ensures Listed([reply] + replies, n + 1) == (if reply.ListPage? then reply.size else 0) + Listed(replies, n)
  {
    if n > 0 {
      ListedCons(reply, replies, n - 1);
    } else {
      assert Listed([reply] + replies, 0) == 0;
    }
  }

  lemma RestSplits(region: set<nat>, from: nat, mid: nat)
    requires from <= mid
    ensures |Rest(region, from)| == |Range(region, from, mid)| + |Rest(region, mid)|
  {
    assert Rest(region, from) == Range(region, from, mid) + Rest(region, mid);
  }

  /** A complete listing counts every identity, however it is cut into pages. */
  lemma {:induction false} PagesCountEverything(region: set<nat>, from: nat, cuts: seq<nat>, fails: bool)
    requires Ascending(from, cuts)
    ensures var replies := RepliesOf(region, from, cuts, fails);
            && IsListing(replies)
            && replies[|replies| - 1].ListError? == fails
            && (!fails ==> Listed(replies, |replies|) == |Rest(region, from)|)
    decreases |cuts|
  {
    hide Range, Rest;
    if cuts != [] {
      var rest := RepliesOf(region, cuts[0], cuts[1..], fails);
      PagesCountEverything(region, cuts[0], cuts[1..], fails);
      ListedCons(ListPage(|Range(region, from, cuts[0])|, true), rest, |rest|);
      RestSplits(region, from, cuts[0]);
    }
  }

  /** The listing, from a page boundary on. */
  lemma {:induction false} Lists(s: State, c: nat, job: Job, from: nat, sum: nat, cuts: seq<nat>, fails: bool, later: int)
    returns (es: seq<Event>, t: State)
    requires Ascending(from, cuts)
    requires c in s.callers && s.callers[c] == Counting(job, from, sum)
    ensures Path(s, es, t)
    ensures var count := sum + |Rest(s.region, from)|;
            t == if fails then To(s, c, Finished).(lock := None)
                 else To(s, c, Decide(job, count)).(cachedCount := count, cacheExpiry := Some(later + CACHE_TTL), lock := None)
    decreases |cuts|
  {
    hide Range, Rest, Path;
    if cuts != [] {
      RestSplits(s.region, from, cuts[0]);
      var page := Page(c, cuts[0]);
      var s' := Apply(s, page);
      es, t := Lists(s', c, job, cuts[0], sum + |Range(s.region, from, cuts[0])|, cuts[1..], fails, later);
      PathAfter(s, page, es, t);
      es := [page] + es;
    } else if fails {
      es, t := [ListFails(c)], Apply(s, ListFails(c));
      PathOfOne(s, ListFails(c));
    } else {
      var s' := Apply(s, LastPage(c));
      t := Apply(s', KeepCount(c, later));
      PathOfOne(s', KeepCount(c, later));
      PathAfter(s, LastPage(c), [KeepCount(c, later)], t);
      es := [LastPage(c), KeepCount(c, later)];
      assert [LastPage(c)] + [KeepCount(c, later)] == es;
    }
  }

  /** What a lone create does to the protocol's state. */
  function AfterCreate(s: State, c: nat, identity: nat, now: int, fails: bool, later: int, accepts: bool): State {
    var live := IsFresh(s.cacheExpiry, now);
    if !live && fails then To(s, c, Finished)
    else
      var count := if live then s.cachedCount else |s.region|;
      var expiry := if live then s.cacheExpiry else Some(later + CACHE_TTL);
      var counted := To(s, c, Finished).(cachedCount := count, cacheExpiry := expiry);
      if AtCap(count) || !accepts then counted
      else counted.(region := s.region + {identity}, cacheExpiry := None)
  }

  lemma {:induction false} PathJoins(s: State, es: seq<Event>, t: State, more: seq<Event>, u: State)
    requires Path(s, es, t) && Path(t, more, u)
    ensures Path(s, es + more, u)
    decreases |es|
  {
    hide Enabled, Apply;
    if es == [] {
      assert es + more == more;
    } else {
      PathJoins(Apply(s, es[0]), es[1..], t, more, u);
      assert (es + more)[1..] == es[1..] + more;
    }
  }

  /** The count, from taking the lock to giving it back. */
  lemma Counts(s: State, c: nat, job: Job, cuts: seq<nat>, now: int, fails: bool, later: int)
    returns (es: seq<Event>, t: State)
    requires s.lock.None? && c in s.callers && s.callers[c] == Starting(job) && Ascending(0, cuts)
    ensures Path(s, es, t)
    ensures t == if IsFresh(s.cacheExpiry, now) then To(s, c, Decide(job, s.cachedCount))
                 else if fails then To(s, c, Finished)
                 else To(s, c, Decide(job, |s.region|)).(cachedCount := |s.region|, cacheExpiry := Some(later + CACHE_TTL))
  {
    hide Path;
    if IsFresh(s.cacheExpiry, now) {
      es, t := [CacheHit(c, now)], Apply(s, CacheHit(c, now));
      PathOfOne(s, CacheHit(c, now));
    } else {
      var s' := Apply(s, CacheMiss(c, now));
      assert Rest(s.region, 0) == s.region;
      es, t := Lists(s', c, job, 0, 0, cuts, fails, later);
      PathAfter(s, CacheMiss(c, now), es, t);
      es := [CacheMiss(c, now)] + es;
    }
  }

  lemma CreatesAlone(s: State, c: nat, identity: nat, cuts: seq<nat>, now: int, fails: bool, later: int, accepts: bool)
    returns (es: seq<Event>)
    requires s.lock.None? && c !in s.callers && Ascending(0, cuts) && (accepts ==> identity !in s.region)
    ensures Path(s, es, AfterCreate(s, c, identity, now, fails, later, accepts))
  {
    hide Path;
    var begin := BeginCount(c, Register(identity));
    var s1 := Apply(s, begin);
    var t;
    es, t := Counts(s1, c, Register(identity), cuts, now, fails, later);
    PathAfter(s, begin, es, t);
    es := [begin] + es;
    if t.callers[c].Passed? {
      var reply := CreateReply(c, accepts);
      PathOfOne(t, reply);
      PathJoins(s, es, t, [reply], Apply(t, reply));
      es, t := es + [reply], Apply(t, reply);
      if accepts {
        PathOfOne(t, Invalidate(c));
        PathJoins(s, es, t, [Invalidate(c)], Apply(t, Invalidate(c)));
        es, t := es + [Invalidate(c)], Apply(t, Invalidate(c));
      }
    }
    assert t == AfterCreate(s, c, identity, now, fails, later, accepts);
  }

  /** `CreateDomainIdentity` on an object whose cache is the protocol's, with the pages of the
      protocol's region: the object's new cache is that of a lone run of the protocol, and the
      call succeeds exactly when that run adds the identity. */
  method CreateRefinesProtocol(m: IdentityManager, s: State, c: nat, identity: nat, cuts: seq<nat>, now: int, fails: bool,
                               later: int, accepts: bool)
    returns (outcome: CreateOutcome, ghost es: seq<Event>, t: State)
    requires m.cachedCount == s.cachedCount && m.cacheExpiry == s.cacheExpiry
    requires s.lock.None? && c !in s.callers && Ascending(0, cuts) && (accepts ==> identity !in s.region)
    modifies m`cachedCount, m`cacheExpiry
    ensures Path(s, es, t) && t.callers == s.callers[c := Finished] && t.lock == s.lock
    ensures m.cachedCount == t.cachedCount && m.cacheExpiry == t.cacheExpiry
    ensures outcome.Registered? <==> t.region != s.region
    ensures t.region == if outcome.Registered? then s.region + {identity} else s.region
  {
    hide Path, RepliesOf;
    var replies := RepliesOf(s.region, 0, cuts, fails);
    PagesCountEverything(s.region, 0, cuts, fails);
    assert Rest(s.region, 0) == s.region;
    var called;
    outcome, called := m.CreateDomainIdentity(now, replies, later, accepts);
    es := CreatesAlone(s, c, identity, cuts, now, fails, later, accepts);
    t := AfterCreate(s, c, identity, now, fails, later, accepts);
  }
}
