/** backend/smtp/smtp.go: what the relay says next, given what was said so far, and what follows
    from that for every server.

    A conversation is fixed by the configuration, the envelope and the server's answers. `NextMove`
    gives it one line at a time; the sender object of `Smtp` is proved to conduct exactly it. */
module SmtpDialogue {
  import opened Wrappers
  import opened SmtpSession

  datatype Config = Config(host: string, port: int, username: string, from: string, implicitTls: bool)

  datatype SmtpError =
    | NoRecipients
    | DialFailed
    | StartTlsFailed
    | StartTlsNotOffered
    | AuthFailed
    | MailRefused
    | RcptRefused(address: string)
    | DataRefused
    | WriteFailed
    | TextRefused
    | QuitFailed

  /** One `Send`: the configuration, the envelope sender and recipients, and the text. */
  datatype Errand = Errand(cfg: Config, from: string, rcpts: seq<string>, text: seq<bv8>)

  predicate Implicit(cfg: Config) {
    cfg.port == 465 || cfg.implicitTls
  }

  /** net/smtp does not send an address that would break the command line. */
  predicate Sendable(address: string) {
    '\r' !in address && '\n' !in address
  }

  // ----- The server --------------------------------------------------------

  /** One answer of the server or the network; a script that runs out is a dropped connection. */
  datatype Answer = Answer(ok: bool, offersStartTls: bool)

  const SILENCE := Answer(false, false)

  function AnswerAt(script: seq<Answer>, n: nat): Answer {
    if n < |script| then script[n] else SILENCE
  }

  /** How many answers an exchange takes: the text is written, then acknowledged. */
  function Uses(x: Exchange): nat {
    if x.EndOfText? then 2 else if x.Close? then 0 else 1
  }

  function Taken(trace: seq<Exchange>): nat {
    if trace == [] then 0 else Taken(trace[..|trace| - 1]) + Uses(trace[|trace| - 1])
  }

  /** The line with the given answers to it. */
  function Answered(line: Exchange, a: Answer, b: Answer): Exchange {
    match line
    case Dial(overTls, _) => Dial(overTls, a.ok)
    case Greeting(_) => Greeting(a.ok)
    case Ehlo(_, _) => Ehlo(a.ok, a.offersStartTls)
    case Helo(_) => Helo(a.ok)
    case StartTls(_) => StartTls(a.ok)
    case Auth(_) => Auth(a.ok)
    case MailFrom(address, _) => MailFrom(address, a.ok)
    case RcptTo(address, _) => RcptTo(address, a.ok)
    case Data(_) => Data(a.ok)
    case EndOfText(text, _, _) => EndOfText(text, a.ok, b.ok)
    case Quit(_) => Quit(a.ok)
    case Close => Close
  }

  /** What becomes of a line said after `before`, with this server. */
  function Heard(script: seq<Answer>, before: seq<Exchange>, line: Exchange): Exchange {
    Answered(line, AnswerAt(script, Taken(before)), AnswerAt(script, Taken(before) + 1))
  }

  // ----- The relay ---------------------------------------------------------

  datatype Move = Say(line: Exchange) | HangUp(err: Option<SmtpError>)

  const EHLO := Say(Ehlo(true, true))

  function MailStep(e: Errand): Move {
    if Sendable(e.from) then Say(MailFrom(e.from, true)) else HangUp(Some(MailRefused))
  }

  /** With `n` recipients accepted. */
  function RcptStep(e: Errand, n: nat): Move {
    if n >= |e.rcpts| then Say(Data(true))
    else if Sendable(e.rcpts[n]) then Say(RcptTo(e.rcpts[n], true))
    else HangUp(Some(RcptRefused(e.rcpts[n])))
  }

  /** On a channel as secure as it will get. */
  function CredentialsStep(e: Errand): Move {
    if e.cfg.username != "" then Say(Auth(true)) else MailStep(e)
  }

  function AfterHello(e: Errand, now: Session): Move {
    if now.offered then Say(StartTls(true))
    else if e.cfg.username != "" && !now.tls then HangUp(Some(StartTlsNotOffered))
    else CredentialsStep(e)
  }

  /** When neither EHLO nor HELO is accepted; the refusal is noticed where the hello was needed. */
  function HelloRefused(e: Errand): Move {
    HangUp(Some(if e.cfg.username == "" then MailRefused
                else if Implicit(e.cfg) then AuthFailed
                else StartTlsNotOffered))
  }

  function NextMove(e: Errand, talk: seq<Exchange>): Move {
    if talk == [] then
      if e.rcpts == [] then HangUp(Some(NoRecipients)) else Say(Dial(Implicit(e.cfg), true))
    else
      var now := After(talk);
      match talk[|talk| - 1]
      case Dial(_, ok) => if ok then Say(Greeting(true)) else HangUp(Some(DialFailed))
      case Greeting(ok) =>
        if !ok then HangUp(Some(DialFailed))
        else if Implicit(e.cfg) && e.cfg.username == "" && !Sendable(e.from) then MailStep(e)
        else EHLO
      case Ehlo(ok, _) =>
        if ok then AfterHello(e, now)
        else if now.tls && !Implicit(e.cfg) then HangUp(Some(StartTlsFailed))
        else Say(Helo(true))
      case Helo(ok) => if ok then AfterHello(e, now) else HelloRefused(e)
      case StartTls(ok) => if ok then EHLO else HangUp(Some(StartTlsFailed))
      case Auth(ok) => if ok then MailStep(e) else HangUp(Some(AuthFailed))
      case MailFrom(_, ok) => if ok then RcptStep(e, 0) else HangUp(Some(MailRefused))
      case RcptTo(address, ok) =>
        if ok then RcptStep(e, |AcceptedRecipients(talk)|) else HangUp(Some(RcptRefused(address)))
      case Data(ok) => if ok then Say(EndOfText(e.text, true, true)) else HangUp(Some(DataRefused))
      case EndOfText(_, complete, ok) =>
        if !complete then HangUp(Some(WriteFailed)) else if !ok then HangUp(Some(TextRefused)) else Say(Quit(true))
      case Quit(ok) => HangUp(if ok then None else Some(QuitFailed))
      case Close => HangUp(Some(DialFailed))  // a talk ends before the connection is closed
  }

  /** Every line is the one called for, with the answers of this server, in order. */
  ghost predicate Conducted(e: Errand, script: seq<Answer>, talk: seq<Exchange>) {
    talk == [] ||
    var before := talk[..|talk| - 1];
    && Conducted(e, script, before)
    && NextMove(e, before).Say?
    && talk[|talk| - 1] == Heard(script, before, NextMove(e, before).line)
  }

  /** The whole log of a talk: a connection that was opened is closed. */
  function HungUp(talk: seq<Exchange>): seq<Exchange> {
    if talk != [] && talk[0].Dial? && talk[0].ok then talk + [Close] else talk
  }

  function TalkOf(trace: seq<Exchange>): seq<Exchange> {
    if trace != [] && trace[|trace| - 1].Close? then trace[..|trace| - 1] else trace
  }

  /** The log of a whole conversation that ended with this error. */
  ghost predicate Finished(e: Errand, script: seq<Answer>, trace: seq<Exchange>, err: Option<SmtpError>) {
    var talk := TalkOf(trace);
    && Conducted(e, script, talk)
    && NextMove(e, talk) == HangUp(err)
    && trace == HungUp(talk)
  }

  // ----- Conducting a conversation -----------------------------------------

  lemma OneMoreLine(e: Errand, script: seq<Answer>, talk: seq<Exchange>, line: Exchange)
    requires Conducted(e, script, talk) && NextMove(e, talk) == Say(line)
    ensures Conducted(e, script, talk + [Heard(script, talk, line)])
    ensures Taken(talk + [Heard(script, talk, line)]) == Taken(talk) + Uses(line)
  {
    hide NextMove;
    assert (talk + [Heard(script, talk, line)])[..|talk|] == talk;
  }

  lemma LastIsNoClose(e: Errand, script: seq<Answer>, talk: seq<Exchange>)
    requires Conducted(e, script, talk) && talk != []
    ensures !talk[|talk| - 1].Close?
  {}

  lemma FinishedBy(e: Errand, script: seq<Answer>, talk: seq<Exchange>, err: Option<SmtpError>)
    requires Conducted(e, script, talk) && NextMove(e, talk) == HangUp(err)
    ensures Finished(e, script, HungUp(talk), err) && TalkOf(HungUp(talk)) == talk
  {
    hide NextMove;
    if talk != [] {
      LastIsNoClose(e, script, talk);
      assert (talk + [Close])[..|talk|] == talk;
    }
  }

  /** The conversation so far, at each of its lines. */
  lemma {:induction false} LineAt(e: Errand, script: seq<Answer>, talk: seq<Exchange>, i: nat)
    requires Conducted(e, script, talk) && i < |talk|
    ensures Conducted(e, script, talk[..i]) && NextMove(e, talk[..i]).Say?
    ensures talk[i] == Heard(script, talk[..i], NextMove(e, talk[..i]).line)
    ensures talk[..i + 1] == talk[..i] + [talk[i]]
  {
    hide NextMove, Heard;
    var n := |talk| - 1;
    if i < n {
      LineAt(e, script, talk[..n], i);
      assert talk[..n][..i] == talk[..i];
    }
  }

  /** A server's answers leave room for one conversation only. */
  lemma {:induction false} OneTalkExtendsTheOther(e: Errand, script: seq<Answer>, talk: seq<Exchange>, other: seq<Exchange>, i: nat)
    requires Conducted(e, script, talk) && Conducted(e, script, other)
    requires i <= |talk| && i <= |other|
    ensures talk[..i] == other[..i]
  {
    hide NextMove, Heard;
    if i > 0 {
      OneTalkExtendsTheOther(e, script, talk, other, i - 1);
      LineAt(e, script, talk, i - 1);
      LineAt(e, script, other, i - 1);
    }
  }

  /** The log and the error are determined by the configuration, the envelope and the server. */
  lemma ConversationIsDetermined(e: Errand, script: seq<Answer>, trace: seq<Exchange>, err: Option<SmtpError>,
                                 other: seq<Exchange>, otherErr: Option<SmtpError>)
    requires Finished(e, script, trace, err) && Finished(e, script, other, otherErr)
    ensures trace == other && err == otherErr
  {
    hide NextMove, Conducted;
    var a, b := TalkOf(trace), TalkOf(other);
    var n := if |a| <= |b| then |a| else |b|;
    OneTalkExtendsTheOther(e, script, a, b, n);
    assert a[..n] == b[..n];
    if |a| < |b| {
      LineAt(e, script, b, n);
    } else if |b| < |a| {
      LineAt(e, script, a, n);
    }
    assert a == a[..|a|] && b == b[..|b|];
  }

  // ----- Where a conversation stands ---------------------------------------

  function StageAt(x: Exchange, accepted: nat): Stage {
    match x
    case Dial(_, ok) => if ok then Dialled else Gone
    case Greeting(ok) => if ok then Connected else Dialled
    case Ehlo(ok, _) => if ok then Greeted else Connected
    case Helo(ok) => if ok then Greeted else Connected
    case StartTls(ok) => if ok then Connected else Greeted
    case Auth(_) => Greeted
    case MailFrom(_, ok) => if ok then InMail else Greeted
    case RcptTo(_, _) => if accepted > 0 then HasRecipient else InMail
    case Data(ok) => if ok then InText else HasRecipient
    case EndOfText(_, _, _) => Greeted
    case Quit(_) => Ended
    case Close => Gone
  }

  /** How far the session has come after the last line of a conversation, read off that line. */
  ghost predicate StandsChannel(e: Errand, talk: seq<Exchange>)
    requires talk != []
  {
    var x, now := talk[|talk| - 1], After(talk);
    && e.rcpts != []
    && now.stage == StageAt(x, |AcceptedRecipients(talk)|)
    && (Implicit(e.cfg) ==> now.tls)
    && (x.Helo? ==> now.tls == Implicit(e.cfg))
    && (x.Dial? || x.Greeting? || x.Ehlo? || x.Helo? || x.StartTls? ==> !now.authenticated)
    && (now.offered ==> !now.tls)
  }

  /** What has been accepted by then. */
  ghost predicate StandsMail(e: Errand, talk: seq<Exchange>)
    requires talk != []
  {
    var x, accepted := talk[|talk| - 1], AcceptedRecipients(talk);
    && (if x.Dial? || x.Greeting? || x.Ehlo? || x.Helo? || x.StartTls? || x.Auth? || x.MailFrom? then accepted == []
        else if x.RcptTo? then accepted <= e.rcpts && (!x.ok ==> |accepted| < |e.rcpts| && x.address == e.rcpts[|accepted|])
        else accepted == e.rcpts)
    && (x.RcptTo? && x.ok ==> accepted != [])
    && (MessageAccepted(talk) <==> x.Quit? || IsAcceptance(x))
  }

  ghost predicate Stands(e: Errand, talk: seq<Exchange>) {
    talk == [] || (StandsChannel(e, talk) && StandsMail(e, talk))
  }

  lemma StepStandsChannel(e: Errand, script: seq<Answer>, before: seq<Exchange>, x: Exchange)
    requires Stands(e, before) && NextMove(e, before).Say?
    requires x == Heard(script, before, NextMove(e, before).line)
    ensures StandsChannel(e, before + [x])
  {
    hide After, AcceptedRecipients, MessageAccepted, AnswerAt, Taken, Sendable;
    OneMore(before, x);
    if before == [] {
      NothingSaid();
    }
  }

  lemma StepStandsMail(e: Errand, script: seq<Answer>, before: seq<Exchange>, x: Exchange)
    requires Stands(e, before) && NextMove(e, before).Say?
    requires x == Heard(script, before, NextMove(e, before).line)
    ensures StandsMail(e, before + [x])
  {
    hide After, AcceptedRecipients, MessageAccepted, AnswerAt, Taken, Sendable, Advance, StageAt;
    OneMore(before, x);
    if before == [] {
      NothingSaid();
    } else {
      assert e.rcpts != [];
    }
  }

  lemma StepStands(e: Errand, script: seq<Answer>, before: seq<Exchange>, x: Exchange)
    requires Stands(e, before) && NextMove(e, before).Say?
    requires x == Heard(script, before, NextMove(e, before).line)
    ensures Stands(e, before + [x])
  {
    StepStandsChannel(e, script, before, x);
    StepStandsMail(e, script, before, x);
    hide NextMove, Heard, StandsChannel, StandsMail;
  }

  lemma NothingSaid()
    ensures After([]) == FRESH && AcceptedRecipients([]) == [] && !MessageAccepted([])
  {}

  lemma {:induction false} ConversationStands(e: Errand, script: seq<Answer>, talk: seq<Exchange>)
    requires Conducted(e, script, talk)
    ensures Stands(e, talk)
  {
    hide NextMove, Heard, Stands;
    if talk != [] {
      var n := |talk| - 1;
      ConversationStands(e, script, talk[..n]);
      StepStands(e, script, talk[..n], talk[n]);
      assert talk == talk[..n] + [talk[n]];
    } else {
      assert Stands(e, talk) by { StandsAtFirst(e); }
    }
  }

  lemma StandsAtFirst(e: Errand)
    ensures Stands(e, [])
  {}

  // ----- What every conversation keeps -------------------------------------

  lemma ConnectionIsOpen(e: Errand, script: seq<Answer>, talk: seq<Exchange>)
    requires Conducted(e, script, talk) && talk != []
    ensures talk[0].Dial? && (IsOpen(After(talk).stage) <==> talk[0].ok) && Legal(talk)
  {
    hide After, AcceptedRecipients, MessageAccepted, Conducted, NextMove, Implicit;
    ConversationStands(e, script, talk);
    FirstLineIsDial(e, script, talk);
    LastIsNoClose(e, script, talk);
  }

  /** Every conversation is a legal session, and leaves no connection open. */
  lemma ConversationsAreLegal(e: Errand, script: seq<Answer>, trace: seq<Exchange>, err: Option<SmtpError>)
    requires Finished(e, script, trace, err)
    ensures Legal(trace) && !IsOpen(After(trace).stage)
    ensures AcceptedRecipients(trace) == AcceptedRecipients(TalkOf(trace))
    ensures MessageAccepted(trace) <==> MessageAccepted(TalkOf(trace))
  {
    hide After, AcceptedRecipients, MessageAccepted, Conducted, NextMove;
    var talk := TalkOf(trace);
    NothingSaid();
    OneMore(talk, Close);
    if talk != [] {
      ConnectionIsOpen(e, script, talk);
    }
  }

  lemma {:induction false} FirstLineIsDial(e: Errand, script: seq<Answer>, talk: seq<Exchange>)
    requires Conducted(e, script, talk) && talk != []
    ensures talk[0] == Dial(Implicit(e.cfg), AnswerAt(script, 0).ok)
    ensures talk[|talk| - 1].Dial? || !AnswerAt(script, 0).ok ==> talk == [talk[0]]
  {
    hide After, AcceptedRecipients, AnswerAt, Taken, Sendable;
    assert AnswerAt(script, Taken([])) == AnswerAt(script, 0) by { NothingTaken(); }
    LineAt(e, script, talk, 0);
    assert talk[..0] == [];
    if |talk| > 1 {
      LineAt(e, script, talk, 1);
      assert talk[..1] == [talk[0]];
      LineAt(e, script, talk, |talk| - 1);
    }
  }

  lemma NothingTaken()
    ensures Taken([]) == 0
  {}

  /** The result says what the server accepted: there is no error exactly if every recipient, the
      text and QUIT were accepted, and once the text is accepted only QUIT can fail. */
  lemma ResultIsWhatWasAccepted(e: Errand, script: seq<Answer>, trace: seq<Exchange>, err: Option<SmtpError>)
    requires Finished(e, script, trace, err)
    ensures err.None? <==> e.rcpts != [] && AcceptedRecipients(trace) == e.rcpts && MessageAccepted(trace) && Quit(true) in trace
    ensures MessageAccepted(trace) ==> AcceptedRecipients(trace) == e.rcpts && (err.None? || err == Some(QuitFailed))
    ensures e.rcpts == [] <==> err == Some(NoRecipients)
    ensures e.rcpts == [] ==> trace == []
  {
    var talk := TalkOf(trace);
    hide AcceptedRecipients, MessageAccepted, Conducted, HungUp;
    ConversationStands(e, script, talk);
    ConversationsAreLegal(e, script, trace, err);
    QuitComesLast(e, script, talk);
    NothingSaid();
    assert Quit(true) in trace <==> Quit(true) in talk by { InHungUp(talk, Quit(true)); }
  }

  lemma InHungUp(talk: seq<Exchange>, x: Exchange)
    requires !x.Close?
    ensures x in HungUp(talk) <==> x in talk
  {}

  lemma {:induction false} QuitComesLast(e: Errand, script: seq<Answer>, talk: seq<Exchange>)
    requires Conducted(e, script, talk)
    ensures Quit(true) in talk <==> talk != [] && talk[|talk| - 1] == Quit(true)
  {
    if talk != [] {
      var n := |talk| - 1;
      QuitComesLast(e, script, talk[..n]);
      assert talk == talk[..n] + [talk[n]];
    }
  }

  predicate Accepted(x: Exchange) {
    x.Close? || (x.ok && (x.EndOfText? ==> x.complete))
  }

  /** The first refusal ends the conversation, but for an EHLO, which HELO may follow. */
  lemma FirstRefusalIsLast(e: Errand, script: seq<Answer>, talk: seq<Exchange>, i: nat)
    requires Conducted(e, script, talk) && i + 1 < |talk|
    ensures Accepted(talk[i]) || (talk[i].Ehlo? && talk[i + 1].Helo?)
  {
    hide Conducted, After, AcceptedRecipients, AnswerAt, Taken, Sendable;
    LineAt(e, script, talk, i);
    LineAt(e, script, talk, i + 1);
    assert (talk[..i] + [talk[i]])[i] == talk[i];
  }

  /** Which error is returned, read off the last line of the conversation: what was refused, or what
      could not be said. */
  lemma ErrorSpelledOut(e: Errand, script: seq<Answer>, talk: seq<Exchange>, err: Option<SmtpError>)
    requires Conducted(e, script, talk) && NextMove(e, talk) == HangUp(err) && talk != []
    ensures var x, n := talk[|talk| - 1], |AcceptedRecipients(talk)|;
            && (err == None <==> x == Quit(true))
            && (err == Some(QuitFailed) <==> x == Quit(false))
            && (err == Some(TextRefused) <==> x.EndOfText? && x.complete && !x.ok)
            && (err == Some(WriteFailed) <==> x.EndOfText? && !x.complete)
            && (err == Some(DataRefused) <==> x == Data(false))
            && (err.Some? && err.value.RcptRefused? <==> x.RcptTo? || (x.MailFrom? && x.ok))
            && (err.Some? && err.value.RcptRefused? ==> n < |e.rcpts| && err.value.address == e.rcpts[n])
            && (x.MailFrom? && !x.ok ==> err == Some(MailRefused))
            && (err == Some(MailRefused) ==> x.MailFrom? || '\r' in e.from || '\n' in e.from || x == Helo(false))
            && (x == Auth(false) ==> err == Some(AuthFailed))
            && (err == Some(AuthFailed) ==> e.cfg.username != "" && (x == Auth(false) || x == Helo(false)))
            && (err == Some(StartTlsNotOffered) ==> e.cfg.username != "" && !After(talk).tls && (x.Ehlo? || x.Helo?))
            && (x == StartTls(false) ==> err == Some(StartTlsFailed))
            && (err == Some(StartTlsFailed) ==> x == StartTls(false) || (x.Ehlo? && !x.ok && After(talk).tls))
            && (err == Some(DialFailed) <==> (x.Dial? || x.Greeting?) && !x.ok)
            && err != Some(NoRecipients)
  {
    hide After, AcceptedRecipients, MessageAccepted, AnswerAt, Taken, Conducted, Guarded;
    ConversationStands(e, script, talk);
    LastIsNoClose(e, script, talk);
    EveryLineIsProper(e, script, talk);
    assert Proper(e, talk[..|talk| - 1], talk[|talk| - 1]);
  }

  // ----- Encryption and credentials ----------------------------------------

  /** A line that may be said: mail names the configured sender and follows a configured AUTH,
      AUTH is spoken only with credentials and under TLS, and mail goes in clear only where there
      are no credentials, TLS is not configured and the server has not offered it. */
  ghost predicate Proper(e: Errand, before: seq<Exchange>, x: Exchange) {
    && (x.Dial? ==> x.overTls == Implicit(e.cfg))
    && (x.Auth? ==> e.cfg.username != "" && After(before).tls)
    && (x.RcptTo? ==> Sendable(x.address) && x.address in e.rcpts)
    && (x.EndOfText? ==> x.text == e.text)
    && (x.MailFrom? ==>
          && x.address == e.from && Sendable(x.address)
          && (e.cfg.username != "" ==> Auth(true) in before)
          && (After(before).tls || (e.cfg.username == "" && !Implicit(e.cfg) && Ehlo(true, true) !in before)))
  }

  /** Before mail, in clear: an offer of TLS is answered with STARTTLS. */
  ghost predicate Guarded(e: Errand, talk: seq<Exchange>) {
    talk == [] ||
    var x, now := talk[|talk| - 1], After(talk);
    && (x.Auth? ==> now.tls)
    && (!now.tls && Ehlo(true, true) in talk ==> (x == Ehlo(true, true) && now.offered) || x == StartTls(false))
  }

  lemma StepIsProper(e: Errand, script: seq<Answer>, before: seq<Exchange>, x: Exchange)
    requires Stands(e, before) && Guarded(e, before) && NextMove(e, before).Say?
    requires x == Heard(script, before, NextMove(e, before).line)
    ensures Proper(e, before, x) && Guarded(e, before + [x])
  {
    hide After, AcceptedRecipients, MessageAccepted, AnswerAt, Taken, Sendable;
    OneMore(before, x);
    if before == [] {
      NothingSaid();
    }
  }

  /** Every line of every conversation is proper. */
  lemma {:induction false} EveryLineIsProper(e: Errand, script: seq<Answer>, talk: seq<Exchange>)
    requires Conducted(e, script, talk)
    ensures Guarded(e, talk) && forall i :: 0 <= i < |talk| ==> Proper(e, talk[..i], talk[i])
  {
    hide NextMove, Heard, Stands, Proper;
    if talk != [] {
      var n := |talk| - 1;
      var before := talk[..n];
      ConversationStands(e, script, before);
      EveryLineIsProper(e, script, before);
      StepIsProper(e, script, before, talk[n]);
      assert talk == before + [talk[n]];
      forall i | 0 <= i < |talk|
        ensures Proper(e, talk[..i], talk[i])
      {
        if i < n {
          assert before[..i] == talk[..i] && before[i] == talk[i];
        }
      }
    }
  }

  // ----- When a send succeeds ----------------------------------------------

  predicate AllAccepted(script: seq<Answer>, from: nat, count: nat) {
    forall i: nat :: from <= i < from + count ==> AnswerAt(script, i).ok
  }

  /** Whether the hello is accepted, by EHLO or failing that by HELO. */
  predicate Greets(script: seq<Answer>) {
    AnswerAt(script, 2).ok || AnswerAt(script, 3).ok
  }

  predicate UpgradesTls(cfg: Config, script: seq<Answer>) {
    !Implicit(cfg) && AnswerAt(script, 2) == Answer(true, true)
  }

  /** The answers that come after the hello: STARTTLS and a second EHLO, AUTH, MAIL, every RCPT,
      DATA, the text and its acknowledgement, QUIT. */
  function LinesAfterHello(e: Errand, script: seq<Answer>): nat {
    (if UpgradesTls(e.cfg, script) then 2 else 0) + (if e.cfg.username != "" then 1 else 0) + |e.rcpts| + 5
  }

  /** The server goes along with the whole errand. */
  predicate Cooperates(e: Errand, script: seq<Answer>) {
    && e.rcpts != [] && Sendable(e.from) && (forall i :: 0 <= i < |e.rcpts| ==> Sendable(e.rcpts[i]))
    && AllAccepted(script, 0, 2) && Greets(script)
    && (e.cfg.username == "" || Implicit(e.cfg) || UpgradesTls(e.cfg, script))
    && AllAccepted(script, if AnswerAt(script, 2).ok then 3 else 4, LinesAfterHello(e, script))
  }

  /** The same, answer by answer: connection, greeting, EHLO or failing that HELO, with credentials a
      channel that is or can be encrypted, and then one positive answer for every further line. */
  lemma CooperatesSpelledOut(e: Errand, script: seq<Answer>)
    ensures Cooperates(e, script) <==>
            && e.rcpts != []
            && '\r' !in e.from && '\n' !in e.from
            && (forall i :: 0 <= i < |e.rcpts| ==> '\r' !in e.rcpts[i] && '\n' !in e.rcpts[i])
            && |script| >= 3 && script[0].ok && script[1].ok
            && (script[2].ok || (|script| >= 4 && script[3].ok))
            && var plain := e.cfg.port != 465 && !e.cfg.implicitTls;
               var upgrade := plain && script[2].ok && script[2].offersStartTls;
               var n := if script[2].ok then 3 else 4;
               var more := (if upgrade then 2 else 0) + (if e.cfg.username != "" then 1 else 0) + |e.rcpts| + 5;
               && (e.cfg.username != "" && plain ==> upgrade)
               && n + more <= |script|
               && forall i :: n <= i < n + more ==> script[i].ok
  {
    TwoAnswers(script);
    if |script| >= 3 {
      AllAcceptedSpelledOut(script, if script[2].ok then 3 else 4, LinesAfterHello(e, script));
      hide AllAccepted;
    }
  }

  lemma AllAcceptedSpelledOut(script: seq<Answer>, from: nat, count: nat)
    requires count > 0
    ensures AllAccepted(script, from, count) <==> from + count <= |script| && forall i :: from <= i < from + count ==> script[i].ok
  {
    if AllAccepted(script, from, count) {
      assert AnswerAt(script, from + count - 1).ok;
      forall i | from <= i < from + count
        ensures i < |script| && script[i].ok
      {
        assert AnswerAt(script, i).ok;
      }
    }
  }

  lemma FirstAndRest(script: seq<Answer>, from: nat, count: nat)
    requires count > 0
    ensures AllAccepted(script, from, count) <==> AnswerAt(script, from).ok && AllAccepted(script, from + 1, count - 1)
  {
    hide AnswerAt;
    assert AllAccepted(script, from, count) ==> AnswerAt(script, from).ok;
  }

  /** A talk from its first line to the end of the conversation. */
  ghost predicate Whole(e: Errand, script: seq<Answer>, talk: seq<Exchange>, err: Option<SmtpError>) {
    Conducted(e, script, talk) && NextMove(e, talk) == HangUp(err)
  }

  /** A whole talk goes on where a line is called for, and ends where none is. */
  lemma Onwards(e: Errand, script: seq<Answer>, talk: seq<Exchange>, err: Option<SmtpError>, m: nat)
    requires Whole(e, script, talk, err) && m <= |talk|
    ensures var move := NextMove(e, talk[..m]);
            if move.HangUp? then move.err == err
            else
              && m < |talk| && talk[m] == Heard(script, talk[..m], move.line)
              && talk[..m + 1] == talk[..m] + [talk[m]] && (talk[..m + 1])[|talk[..m + 1]| - 1] == talk[m]
              && Taken(talk[..m + 1]) == Taken(talk[..m]) + Uses(move.line)
  {
    hide NextMove, Heard;
    assert talk[..|talk|] == talk;
    if m < |talk| {
      LineAt(e, script, talk, m);
      OneMoreLine(e, script, talk[..m], NextMove(e, talk[..m]).line);
    }
  }

  /** DATA, the text and QUIT. */
  lemma TextTail(e: Errand, script: seq<Answer>, talk: seq<Exchange>, err: Option<SmtpError>, m: nat)
    requires Whole(e, script, talk, err) && m <= |talk|
    requires NextMove(e, talk[..m]) == Say(Data(true))
    ensures err.None? <==> AllAccepted(script, Taken(talk[..m]), 4)
  {
    hide Conducted, Whole, AllAccepted, AnswerAt, Taken, After, AcceptedRecipients;
    var t := Taken(talk[..m]);
    assert AllAccepted(script, t, 4) <==>
           AnswerAt(script, t).ok && AnswerAt(script, t + 1).ok && AnswerAt(script, t + 2).ok && AnswerAt(script, t + 3).ok
    by { FourAnswers(script, t); }
    Onwards(e, script, talk, err, m);
    Onwards(e, script, talk, err, m + 1);
    if AnswerAt(script, t).ok {
      Onwards(e, script, talk, err, m + 2);
      if AnswerAt(script, t + 1).ok && AnswerAt(script, t + 2).ok {
        Onwards(e, script, talk, err, m + 3);
      }
    }
  }

  lemma FourAnswers(script: seq<Answer>, t: nat)
    ensures AllAccepted(script, t, 4) <==>
            AnswerAt(script, t).ok && AnswerAt(script, t + 1).ok && AnswerAt(script, t + 2).ok && AnswerAt(script, t + 3).ok
  {
    hide AnswerAt;
    FirstAndRest(script, t, 4);
    FirstAndRest(script, t + 1, 3);
  }

  /** The remaining recipients and the text. */
  lemma {:induction false} RecipientsTail(e: Errand, script: seq<Answer>, talk: seq<Exchange>, err: Option<SmtpError>, m: nat, n: nat)
    requires Whole(e, script, talk, err) && m <= |talk| && n <= |e.rcpts|
    requires NextMove(e, talk[..m]) == RcptStep(e, n) && |AcceptedRecipients(talk[..m])| == n
    ensures err.None? <==> (forall i :: n <= i < |e.rcpts| ==> Sendable(e.rcpts[i]))
                           && AllAccepted(script, Taken(talk[..m]), |e.rcpts| - n + 4)
    decreases |e.rcpts| - n
  {
    hide Conducted, Whole, AllAccepted, AnswerAt, Taken, After, AcceptedRecipients, Sendable;
    var t := Taken(talk[..m]);
    if n == |e.rcpts| {
      TextTail(e, script, talk, err, m);
    } else {
      Onwards(e, script, talk, err, m);
      if Sendable(e.rcpts[n]) {
        FirstAndRest(script, t, |e.rcpts| - n + 4);
        OneMore(talk[..m], talk[m]);
        if AnswerAt(script, t).ok {
          RecipientsTail(e, script, talk, err, m + 1, n + 1);
        } else {
          Onwards(e, script, talk, err, m + 1);
        }
      }
    }
  }

  lemma MailTail(e: Errand, script: seq<Answer>, talk: seq<Exchange>, err: Option<SmtpError>, m: nat)
    requires Whole(e, script, talk, err) && m <= |talk|
    requires NextMove(e, talk[..m]) == MailStep(e) && AcceptedRecipients(talk[..m]) == []
    ensures err.None? <==> Sendable(e.from) && (forall i :: 0 <= i < |e.rcpts| ==> Sendable(e.rcpts[i]))
                           && AllAccepted(script, Taken(talk[..m]), |e.rcpts| + 5)
  {
    hide Conducted, Whole, AllAccepted, AnswerAt, Taken, After, AcceptedRecipients, Sendable;
    var t := Taken(talk[..m]);
    Onwards(e, script, talk, err, m);
    if Sendable(e.from) {
      FirstAndRest(script, t, |e.rcpts| + 5);
      OneMore(talk[..m], talk[m]);
      if AnswerAt(script, t).ok {
        RecipientsTail(e, script, talk, err, m + 1, 0);
      } else {
        Onwards(e, script, talk, err, m + 1);
      }
    }
  }

  lemma CredentialsTail(e: Errand, script: seq<Answer>, talk: seq<Exchange>, err: Option<SmtpError>, m: nat)
    requires Whole(e, script, talk, err) && m <= |talk|
    requires NextMove(e, talk[..m]) == CredentialsStep(e) && AcceptedRecipients(talk[..m]) == []
    ensures err.None? <==> Sendable(e.from) && (forall i :: 0 <= i < |e.rcpts| ==> Sendable(e.rcpts[i]))
                           && AllAccepted(script, Taken(talk[..m]), (if e.cfg.username != "" then 1 else 0) + |e.rcpts| + 5)
  {
    hide Conducted, Whole, AllAccepted, AnswerAt, Taken, After, AcceptedRecipients, Sendable;
    if e.cfg.username == "" {
      MailTail(e, script, talk, err, m);
    } else {
      Onwards(e, script, talk, err, m);
      FirstAndRest(script, Taken(talk[..m]), |e.rcpts| + 6);
      OneMore(talk[..m], talk[m]);
      if talk[m].ok {
        MailTail(e, script, talk, err, m + 1);
      } else {
        Onwards(e, script, talk, err, m + 1);
      }
    }
  }

  /** Sendable addresses, and `count` more answers from `from` on, all positive. */
  predicate TakesTheMail(e: Errand, script: seq<Answer>, from: nat, count: nat) {
    && Sendable(e.from) && (forall i :: 0 <= i < |e.rcpts| ==> Sendable(e.rcpts[i]))
    && AllAccepted(script, from, count)
  }

  lemma UpgradeTail(e: Errand, script: seq<Answer>, talk: seq<Exchange>, err: Option<SmtpError>, m: nat)
    requires Whole(e, script, talk, err) && m <= |talk|
    requires NextMove(e, talk[..m]) == Say(StartTls(true)) && AcceptedRecipients(talk[..m]) == []
    requires After(talk[..m]).stage == Greeted && After(talk[..m]).offered && !After(talk[..m]).tls && !Implicit(e.cfg)
    ensures err.None? <==> TakesTheMail(e, script, Taken(talk[..m]), 2 + (if e.cfg.username != "" then 1 else 0) + |e.rcpts| + 5)
  {
    hide Conducted, Whole, AllAccepted, AnswerAt, Taken, After, AcceptedRecipients, Sendable, Implicit;
    var t, c := Taken(talk[..m]), (if e.cfg.username != "" then 1 else 0) + |e.rcpts| + 5;
    FirstAndRest(script, t, c + 2);
    FirstAndRest(script, t + 1, c + 1);
    Onwards(e, script, talk, err, m);
    OneMore(talk[..m], talk[m]);
    Onwards(e, script, talk, err, m + 1);
    if AnswerAt(script, t).ok {
      OneMore(talk[..m + 1], talk[m + 1]);
      if AnswerAt(script, t + 1).ok {
        CredentialsTail(e, script, talk, err, m + 2);
      } else {
        Onwards(e, script, talk, err, m + 2);
      }
    }
  }

  lemma AfterHelloTail(e: Errand, script: seq<Answer>, talk: seq<Exchange>, err: Option<SmtpError>, m: nat)
    requires Whole(e, script, talk, err) && m <= |talk|
    requires var now := After(talk[..m]);
             && NextMove(e, talk[..m]) == AfterHello(e, now) && AcceptedRecipients(talk[..m]) == []
             && now.stage == Greeted && now.tls == Implicit(e.cfg) && !now.authenticated
             && now.offered == UpgradesTls(e.cfg, script)
    ensures err.None? <==> (e.cfg.username == "" || Implicit(e.cfg) || UpgradesTls(e.cfg, script))
                           && TakesTheMail(e, script, Taken(talk[..m]), LinesAfterHello(e, script))
  {
    hide Conducted, Whole, AllAccepted, AnswerAt, Taken, After, AcceptedRecipients, Sendable, NextMove;
    if UpgradesTls(e.cfg, script) {
      UpgradeTail(e, script, talk, err, m);
    } else if e.cfg.username != "" && !Implicit(e.cfg) {
      Onwards(e, script, talk, err, m);
    } else {
      CredentialsTail(e, script, talk, err, m);
    }
  }

  /** EHLO, and HELO where it is refused. */
  lemma HelloTail(e: Errand, script: seq<Answer>, talk: seq<Exchange>, err: Option<SmtpError>)
    requires Whole(e, script, talk, err) && 2 <= |talk| && Taken(talk[..2]) == 2
    requires NextMove(e, talk[..2]) == EHLO && AcceptedRecipients(talk[..2]) == []
    requires After(talk[..2]) == Session(Connected, Implicit(e.cfg), false, false)
    ensures err.None? <==>
              && Greets(script) && (e.cfg.username == "" || Implicit(e.cfg) || UpgradesTls(e.cfg, script))
              && TakesTheMail(e, script, if AnswerAt(script, 2).ok then 3 else 4, LinesAfterHello(e, script))
  {
    hide Conducted, Whole, AllAccepted, AnswerAt, Taken, After, AcceptedRecipients, Sendable, Implicit, TakesTheMail, LinesAfterHello;
    Onwards(e, script, talk, err, 2);
    OneMore(talk[..2], talk[2]);
    if AnswerAt(script, 2).ok {
      AfterHelloTail(e, script, talk, err, 3);
    } else {
      Onwards(e, script, talk, err, 3);
      OneMore(talk[..3], talk[3]);
      if AnswerAt(script, 3).ok {
        AfterHelloTail(e, script, talk, err, 4);
      } else {
        Onwards(e, script, talk, err, 4);
      }
    }
  }

  lemma TwoAnswers(script: seq<Answer>)
    ensures AllAccepted(script, 0, 2) <==> AnswerAt(script, 0).ok && AnswerAt(script, 1).ok
  {
    hide AnswerAt;
    FirstAndRest(script, 0, 2);
    FirstAndRest(script, 1, 1);
  }

  /** A send succeeds with exactly the servers that go along with the whole errand. */
  lemma SucceedsIffServerCooperates(e: Errand, script: seq<Answer>, trace: seq<Exchange>, err: Option<SmtpError>)
    requires Finished(e, script, trace, err)
    ensures err.None? <==> Cooperates(e, script)
  {
    hide Conducted, AllAccepted, AnswerAt, Taken, After, AcceptedRecipients, Sendable, Implicit, LinesAfterHello, UpgradesTls, Greets;
    var talk := TalkOf(trace);
    NothingSaid();
    NothingTaken();
    TwoAnswers(script);
    assert talk[..0] == [];
    Onwards(e, script, talk, err, 0);
    if e.rcpts != [] {
      OneMore(talk[..0], talk[0]);
      Onwards(e, script, talk, err, 1);
      if AnswerAt(script, 0).ok {
        OneMore(talk[..1], talk[1]);
        Onwards(e, script, talk, err, 2);
        if AnswerAt(script, 1).ok && NextMove(e, talk[..2]) == EHLO {
          HelloTail(e, script, talk, err);
        }
      }
    }
  }
}
