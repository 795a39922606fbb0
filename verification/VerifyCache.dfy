/** The verification-status cache of backend/ses/identity.go as a value: what a lookup at an
    instant returns, and what recording a reply stores. */
module VerifyCache {
  import opened Wrappers

  const VERIFY_TTL: int := 60000000000  // sixty seconds in nanoseconds

  datatype VerifyEntry = VerifyEntry(verified: bool, expiry: int)

  type Cache = map<string, VerifyEntry>

  /** SES's answer about a domain: an API error, no DKIM attributes, or a DKIM status. */
  datatype StatusReply = ApiError | NoDkim | Dkim(status: string)

  function StatusOf(reply: StatusReply): Option<string> {
    match reply
    case ApiError => None
    case NoDkim => Some("UNKNOWN")
    case Dkim(status) => Some(status)
  }

  predicate IsSuccess(reply: StatusReply) {
    StatusOf(reply) == Some("SUCCESS")
  }

  function Lookup(cache: Cache, domain: string, now: int): Option<bool> {
    if domain in cache && now < cache[domain].expiry then Some(cache[domain].verified) else None
  }

  function Record(cache: Cache, domain: string, verified: bool, now: int): Cache {
    cache[domain := VerifyEntry(verified, now + VERIFY_TTL)]
  }

  /** Only a reply whose DKIM status is "SUCCESS" verifies a domain: neither one without DKIM
      attributes nor an error does. */
  lemma SuccessSpelledOut(reply: StatusReply)
    ensures IsSuccess(reply) <==> reply == Dkim("SUCCESS")
    ensures StatusOf(reply).None? <==> reply == ApiError
  {
    assert "UNKNOWN"[0] != "SUCCESS"[0];
  }

  /** A recorded verdict answers for its own domain, and for no other, until sixty seconds after it
      was recorded; an empty cache answers for none. */
  lemma LookupOfRecord(cache: Cache, domain: string, verified: bool, at: int, asked: string, now: int)
    ensures Lookup(map[], asked, now) == None
    ensures Lookup(Record(cache, domain, verified, at), asked, now)
            == if asked != domain then Lookup(cache, asked, now)
               else if now < at + 60000000000 then Some(verified)
               else None
  {}
}
