/** backend/ses/identity.go: the manager object. Its concurrent behaviour is in `IdentityCap`
    and, for the verification cache, in `Engine`; here each method is proved to take the
    decisions those machines are built from. */
module Identity {
  import opened Wrappers
  import opened VerifyCache
  import IdentityCap

  const DEFAULT_WARN_THRESHOLD := 9000

  /** One reply to `ListEmailIdentities`. */
  datatype ListReply = ListError | ListPage(size: nat, more: bool)

  /** The replies of one complete listing: every reply but the last announces another page,
      the last one does not or is an error. */
  predicate IsListing(replies: seq<ListReply>) {
    && |replies| > 0
    && (forall i :: 0 <= i < |replies| - 1 ==> replies[i].ListPage? && replies[i].more)
    && (replies[|replies| - 1].ListPage? ==> !replies[|replies| - 1].more)
  }

  /** Number of identities on the first `n` pages. */
  function Listed(replies: seq<ListReply>, n: nat): nat
    requires n <= |replies|
  {
    if n == 0 then 0
    else Listed(replies, n - 1) + if replies[n - 1].ListPage? then replies[n - 1].size else 0
  }

  datatype IdentityUsage = IdentityUsage(count: int, max: int, headroom: int, nearCap: bool, atCap: bool)

  datatype CreateOutcome = CountFailed | RefusedAtCap(count: int) | Rejected | Registered

  class IdentityManager {
    const warnThreshold: int
    var cachedCount: int
    var cacheExpiry: Option<int>
    var verifiedCache: Cache

    constructor (warnThreshold: int)
      ensures this.warnThreshold == if warnThreshold <= 0 then 9000 else warnThreshold
      ensures cacheExpiry.None? && verifiedCache == map[]
    {
      this.warnThreshold := if warnThreshold <= 0 then DEFAULT_WARN_THRESHOLD else warnThreshold;
      cachedCount := 0;
      cacheExpiry := None;
      verifiedCache := map[];
    }

    /** Sums every page of a listing; an error on any page fails the count. */
    method FetchIdentityCount(replies: seq<ListReply>) returns (count: Option<nat>)
      requires IsListing(replies)
      ensures count == if replies[|replies| - 1].ListError? then None else Some(Listed(replies, |replies|))
    {
      var sum, i := 0, 0;
      while true
        invariant 0 <= i < |replies|
        invariant sum == Listed(replies, i)
        decreases |replies| - i
      {
        if replies[i].ListError? {
          return None;
        }
        sum := sum + replies[i].size;
        if !replies[i].more {
          return Some(sum);
        }
        i := i + 1;
      }
    }

    /** The cached count while it is fresh at `now`; otherwise a new listing, whose result is
        kept for the cache lifetime counted from `later`, and which changes nothing if it fails. */
    method IdentityCount(now: int, replies: seq<ListReply>, later: int) returns (count: Option<int>, listed: bool)
      requires IsListing(replies)
      modifies this`cachedCount, this`cacheExpiry
      ensures listed <==> old(cacheExpiry).None? || old(cacheExpiry).value <= now
      ensures !listed ==> count == Some(old(cachedCount))
      ensures !listed || count.None? ==> cachedCount == old(cachedCount) && cacheExpiry == old(cacheExpiry)
      ensures listed ==> count == if replies[|replies| - 1].ListError? then None else Some(Listed(replies, |replies|))
      ensures listed && count.Some? ==> cachedCount == count.value && cacheExpiry == Some(later + 300000000000)
    {
      if cacheExpiry.Some? && now < cacheExpiry.value {
        return Some(cachedCount), false;
      }
      var fetched := FetchIdentityCount(replies);
      if fetched.None? {
        return None, true;
      }
      cachedCount := fetched.value;
      cacheExpiry := Some(later + IdentityCap.CACHE_TTL);
      return Some(fetched.value), true;
    }

    method InvalidateCache()
      modifies this`cacheExpiry
      ensures cacheExpiry.None?
    {
      cacheExpiry := None;
    }

    method Usage(now: int, replies: seq<ListReply>, later: int) returns (usage: Option<IdentityUsage>)
      requires IsListing(replies)
      modifies this`cachedCount, this`cacheExpiry
      ensures usage.Some? ==>
                && usage.value.count == cachedCount && cacheExpiry.Some?
                && usage.value.count + usage.value.headroom == usage.value.max == 10000
                && usage.value.atCap == (usage.value.headroom <= 0)
                && usage.value.nearCap == (usage.value.count >= warnThreshold)
      ensures var live := old(cacheExpiry).Some? && now < old(cacheExpiry).value;
              && (usage.None? <==> !live && replies[|replies| - 1].ListError?)
              && (live || usage.None? ==> cachedCount == old(cachedCount) && cacheExpiry == old(cacheExpiry))
              && (!live && usage.Some? ==>
                    cachedCount == Listed(replies, |replies|) && cacheExpiry == Some(later + 300000000000))
    {
      var count, listed := IdentityCount(now, replies, later);
      if count.None? {
        return None;
      }
      var n := count.value;
      var max := IdentityCap.MAX_IDENTITIES;
      return Some(IdentityUsage(n, max, max - n, n >= warnThreshold, n >= max));
    }

    /** `sesAccepts` is SES's answer to the create call, which is made only below the cap. The
        cached count is dropped exactly when SES accepted. */
    method CreateDomainIdentity(now: int, replies: seq<ListReply>, later: int, sesAccepts: bool)
      returns (outcome: CreateOutcome, called: bool)
      requires IsListing(replies)
      modifies this`cachedCount, this`cacheExpiry
      ensures called <==> !outcome.CountFailed? && cachedCount < 10000
      ensures called || outcome.CountFailed? || outcome == RefusedAtCap(cachedCount)
      ensures called ==> outcome == if sesAccepts then Registered else Rejected
      ensures var live := old(cacheExpiry).Some? && now < old(cacheExpiry).value;
              && (outcome.CountFailed? <==> !live && replies[|replies| - 1].ListError?)
              && cachedCount == (if live || outcome.CountFailed? then old(cachedCount) else Listed(replies, |replies|))
              && cacheExpiry == if outcome.Registered? then None
                                else if live || outcome.CountFailed? then old(cacheExpiry)
                                else Some(later + 300000000000)
    {
      called := false;
      var usage := Usage(now, replies, later);
      if usage.None? {
        return CountFailed, called;
      }
      if usage.value.atCap {
        return RefusedAtCap(usage.value.count), called;
      }
      called := true;
      if !sesAccepts {
        return Rejected, called;
      }
      InvalidateCache();
      return Registered, called;
    }

    method DeleteDomainIdentity(sesAccepts: bool) returns (ok: bool)
      modifies this`cacheExpiry
      ensures ok == sesAccepts
      ensures cacheExpiry == if ok then None else old(cacheExpiry)
    {
      if !sesAccepts {
        return false;
      }
      InvalidateCache();
      return true;
    }

    /** The cache is consulted at `now`; on a miss SES is asked and its reply recorded at
        `later`. None is an API error: nothing is recorded and no caller sees a verdict. */
    method IsVerified(domain: string, now: int, reply: StatusReply, later: int) returns (verdict: Option<bool>)
      modifies this`verifiedCache
      ensures var hit := Lookup(old(verifiedCache), domain, now);
              if hit.Some? then verdict == hit && verifiedCache == old(verifiedCache)
              else if reply.ApiError? then verdict.None? && verifiedCache == old(verifiedCache)
              else verdict == Some(IsSuccess(reply))
                   && verifiedCache == Record(old(verifiedCache), domain, IsSuccess(reply), later)
      ensures if domain in old(verifiedCache) && now < old(verifiedCache)[domain].expiry then
                verdict == Some(old(verifiedCache)[domain].verified) && verifiedCache == old(verifiedCache)
              else
                && (verdict == Some(true) <==> reply == Dkim("SUCCESS"))
                && (verdict.None? <==> reply == ApiError)
                && verifiedCache == if verdict.None? then old(verifiedCache)
                                    else old(verifiedCache)[domain := VerifyEntry(verdict.value, later + 60000000000)]
    {
      SuccessSpelledOut(reply);
      if domain in verifiedCache && now < verifiedCache[domain].expiry {
        return Some(verifiedCache[domain].verified);
      }
      var status := StatusOf(reply);
      if status.None? {
        return None;
      }
      var verified := status.value == "SUCCESS";
      verifiedCache := verifiedCache[domain := VerifyEntry(verified, later + VERIFY_TTL)];
      return Some(verified);
    }
  }
}
