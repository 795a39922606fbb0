/** The order of an SMTP session, as the standards give it and independently of any client:
    sections 3.3 and 4.1.4 of RFC 5321 for the mail transaction, section 4 of RFC 4954 for AUTH,
    and the rule of this relay that AUTH is spoken only over TLS. */
module SmtpSession {

  /** One thing the client does, with the server's answer to it. */
  datatype Exchange =
    | Dial(overTls: bool, ok: bool)
    | Greeting(ok: bool)
    | Ehlo(ok: bool, offersStartTls: bool)
    | Helo(ok: bool)
    | StartTls(ok: bool)
    | Auth(ok: bool)
    | MailFrom(address: string, ok: bool)
    | RcptTo(address: string, ok: bool)
    | Data(ok: bool)
    | EndOfText(text: seq<bv8>, complete: bool, ok: bool)
    | Quit(ok: bool)
    | Close

  datatype Stage = Start | Dialled | Connected | Greeted | InMail | HasRecipient | InText | Ended | Gone | Illegal

  datatype Session = Session(stage: Stage, tls: bool, offered: bool, authenticated: bool)

  const FRESH := Session(Start, false, false, false)
  const ILLEGAL := Session(Illegal, false, false, false)

  predicate IsOpen(stage: Stage) {
    stage != Start && stage != Gone && stage != Illegal
  }

  function Advance(s: Session, x: Exchange): Session {
    match x
    case Dial(overTls, ok) =>
      if s.stage != Start then ILLEGAL else Session(if ok then Dialled else Gone, overTls, false, false)
    case Greeting(ok) =>
      if s.stage != Dialled then ILLEGAL else s.(stage := if ok then Connected else Dialled)
    case Ehlo(ok, offers) =>
      if s.stage != Connected && s.stage != Greeted then ILLEGAL
      else if ok then s.(stage := Greeted, offered := offers && !s.tls) else s
    case Helo(ok) =>
      if s.stage != Connected then ILLEGAL else if ok then s.(stage := Greeted, offered := false) else s
    case StartTls(ok) =>
      if s.stage != Greeted || s.tls || !s.offered then ILLEGAL
      else if ok then Session(Connected, true, false, false) else s
    case Auth(ok) =>
      if s.stage != Greeted || !s.tls || s.authenticated then ILLEGAL else s.(authenticated := ok)
    case MailFrom(_, ok) =>
      if s.stage != Greeted then ILLEGAL else s.(stage := if ok then InMail else Greeted)
    case RcptTo(_, ok) =>
      if s.stage != InMail && s.stage != HasRecipient then ILLEGAL
      else s.(stage := if ok then HasRecipient else s.stage)
    case Data(ok) =>
      if s.stage != HasRecipient then ILLEGAL else s.(stage := if ok then InText else HasRecipient)
    case EndOfText(_, _, _) =>
      if s.stage != InText then ILLEGAL else s.(stage := Greeted)
    case Quit(ok) =>
      if s.stage != Connected && s.stage != Greeted && s.stage != InMail && s.stage != HasRecipient then ILLEGAL
      else s.(stage := Ended)
    case Close =>
      if IsOpen(s.stage) then s.(stage := Gone) else ILLEGAL
  }

  /** Where a session stands after a trace. */
  function After(trace: seq<Exchange>): Session {
    if trace == [] then FRESH else Advance(After(trace[..|trace| - 1]), trace[|trace| - 1])
  }

  predicate Legal(trace: seq<Exchange>) {
    After(trace).stage != Illegal
  }

  /** The recipients the server accepted, in order. */
  function AcceptedRecipients(trace: seq<Exchange>): seq<string> {
    if trace == [] then []
    else
      var x := trace[|trace| - 1];
      AcceptedRecipients(trace[..|trace| - 1]) + if x.RcptTo? && x.ok then [x.address] else []
  }

  /** The server took responsibility for a complete message. */
  predicate MessageAccepted(trace: seq<Exchange>) {
    exists i :: 0 <= i < |trace| && IsAcceptance(trace[i])
  }

  predicate IsAcceptance(x: Exchange) {
    x.EndOfText? && x.complete && x.ok
  }

  lemma OneMore(trace: seq<Exchange>, x: Exchange)
    ensures After(trace + [x]) == Advance(After(trace), x)
    ensures AcceptedRecipients(trace + [x])
            == AcceptedRecipients(trace) + if x.RcptTo? && x.ok then [x.address] else []
    ensures MessageAccepted(trace + [x]) <==> MessageAccepted(trace) || IsAcceptance(x)
  {
    hide IsAcceptance;
    assert (trace + [x])[..|trace|] == trace;
    if MessageAccepted(trace) {
      var i :| 0 <= i < |trace| && IsAcceptance(trace[i]);
      assert IsAcceptance((trace + [x])[i]);
    }
    if IsAcceptance(x) {
      assert IsAcceptance((trace + [x])[|trace|]);
    }
  }

  // ----- What legality gives -----------------------------------------------

  lemma {:induction false} PrefixIsLegal(trace: seq<Exchange>, n: nat)
    requires Legal(trace) && n <= |trace|
    ensures Legal(trace[..n])
  {
    if n < |trace| {
      PrefixIsLegal(trace[..|trace| - 1], n);
      assert trace[..|trace| - 1][..n] == trace[..n];
    } else {
      assert trace[..n] == trace;
    }
  }

  lemma {:induction false} TlsWasRaised(trace: seq<Exchange>)
    requires After(trace).tls
    ensures exists i :: 0 <= i < |trace| && (trace[i] == Dial(true, true) || trace[i] == StartTls(true) || trace[i] == Dial(true, false))
    ensures IsOpen(After(trace).stage) ==>
              exists i :: 0 <= i < |trace| && (trace[i] == Dial(true, true) || trace[i] == StartTls(true))
  {
    var n := |trace| - 1;
    var before := trace[..n];
    if After(before).tls {
      TlsWasRaised(before);
      if IsOpen(After(trace).stage) {
        assert IsOpen(After(before).stage);
        var i :| 0 <= i < |before| && (before[i] == Dial(true, true) || before[i] == StartTls(true));
        assert trace[i] == before[i];
      }
      var i :| 0 <= i < |before| && (before[i] == Dial(true, true) || before[i] == StartTls(true) || before[i] == Dial(true, false));
      assert trace[i] == before[i];
    } else {
      assert trace[n] == Dial(true, true) || trace[n] == StartTls(true) || trace[n] == Dial(true, false);
    }
  }

  /** In a legal session every AUTH is preceded by a successful TLS handshake. */
  lemma AuthOnlyUnderTls(trace: seq<Exchange>, k: nat)
    requires Legal(trace) && k < |trace| && trace[k].Auth?
    ensures exists i :: 0 <= i < k && (trace[i] == Dial(true, true) || trace[i] == StartTls(true))
  {
    PrefixIsLegal(trace, k + 1);
    assert trace[..k + 1][..k] == trace[..k];
    TlsWasRaised(trace[..k]);
    var i :| 0 <= i < k && (trace[..k][i] == Dial(true, true) || trace[..k][i] == StartTls(true));
    assert trace[i] == trace[..k][i];
  }

  /** In a legal session, what is said on an encrypted channel comes after the handshake. */
  lemma HandshakeCameFirst(trace: seq<Exchange>, k: nat)
    requires Legal(trace) && k < |trace| && After(trace[..k]).tls && trace[k].MailFrom?
    ensures exists i :: 0 <= i < k && (trace[i] == Dial(true, true) || trace[i] == StartTls(true))
  {
    PrefixIsLegal(trace, k + 1);
    assert trace[..k + 1][..k] == trace[..k];
    TlsWasRaised(trace[..k]);
    var i :| 0 <= i < k && (trace[..k][i] == Dial(true, true) || trace[..k][i] == StartTls(true));
    assert trace[i] == trace[..k][i];
  }

  lemma {:induction false} TextNeedsRecipient(trace: seq<Exchange>)
    requires After(trace).stage == HasRecipient || After(trace).stage == InText
    ensures AcceptedRecipients(trace) != []
  {
    var before, x := trace[..|trace| - 1], trace[|trace| - 1];
    if !(x.RcptTo? && x.ok) {
      TextNeedsRecipient(before);
    }
  }

  /** In a legal session no message text is accepted before a recipient is. */
  lemma {:induction false} AcceptanceNeedsRecipient(trace: seq<Exchange>)
    requires Legal(trace) && MessageAccepted(trace)
    ensures AcceptedRecipients(trace) != []
  {
    var n := |trace| - 1;
    assert trace == trace[..n] + [trace[n]];
    OneMore(trace[..n], trace[n]);
    PrefixIsLegal(trace, n);
    if MessageAccepted(trace[..n]) {
      AcceptanceNeedsRecipient(trace[..n]);
    } else {
      TextNeedsRecipient(trace[..n]);
    }
  }
}
