/** backend/smtp/smtp.go: one SMTP session per `Send`, against a server that answers as it likes.

    `Client` stands for the connection object of Go's net/smtp: each operation makes the
    exchanges that object makes, takes the server's answers from a script, and logs them. The
    sender is proved to conduct the conversation of `SmtpDialogue`. */
module Smtp {
  import opened Wrappers
  import opened Delivery
  import opened SmtpSession
  import opened SmtpDialogue

  /** `answers` goes on where the first `taken` answers of the script end. */
  ghost predicate IsRest(answers: seq<Answer>, script: seq<Answer>, taken: nat) {
    forall i: nat :: AnswerAt(answers, i) == AnswerAt(script, taken + i)
  }

  lemma RestOfRest(answers: seq<Answer>, script: seq<Answer>, taken: nat, fewer: seq<Answer>)
    requires IsRest(answers, script, taken) && IsRest(fewer, answers, 1)
    ensures AnswerAt(answers, 0) == AnswerAt(script, taken) && IsRest(fewer, script, taken + 1)
  {
    hide AnswerAt;
    forall i: nat
      ensures AnswerAt(fewer, i) == AnswerAt(script, taken + 1 + i)
    {
      assert AnswerAt(fewer, i) == AnswerAt(answers, 1 + i);
    }
    assert AnswerAt(answers, 0) == AnswerAt(script, taken + 0);
  }

  lemma TakenMore(trace: seq<Exchange>, x: Exchange)
    ensures Taken(trace + [x]) == Taken(trace) + Uses(x)
  {
    assert (trace + [x])[..|trace|] == trace;
  }

  lemma AllIsRest(script: seq<Answer>)
    ensures IsRest(script, script, 0)
  {}

  class Client {
    ghost const script: seq<Answer>
    var answers: seq<Answer>
    var trace: seq<Exchange>
    var open: bool
    var saidHello: bool
    var helloOk: bool
    var offersStartTls: bool

    /** What is left to answer with is the script without what the log has taken. */
    ghost predicate Valid()
      reads this
    {
      && IsRest(answers, script, Taken(trace))
      && (open ==> trace != [] && trace[0].Dial? && trace[0].ok)
    }

    constructor (answers: seq<Answer>)
      ensures Valid() && trace == [] && !open && !saidHello && script == answers
    {
      script, this.answers := answers, answers;
      trace, open := [], false;
      saidHello, helloOk, offersStartTls := false, false, false;
      new;
      hide AnswerAt, Taken, IsRest;
      NothingTaken();
      AllIsRest(answers);
    }

    method NextAnswer() returns (a: Answer)
      modifies this`answers
      ensures a == AnswerAt(old(answers), 0) && IsRest(answers, old(answers), 1)
    {
      if answers == [] {
        return SILENCE;
      }
      a := answers[0];
      answers := answers[1..];
    }

    /** Says one line, hears what the server makes of it and logs it. */
    method Exchange(line: Exchange) returns (x: Exchange)
      requires Valid() && !line.Close? && (line.Dial? <==> trace == [])
      modifies this`answers, this`trace
      ensures Valid() && x == Heard(script, old(trace), line) && trace == old(trace) + [x]
    {
      hide AnswerAt, Taken, IsRest;
      ghost var n, before := Taken(trace), answers;
      var a := NextAnswer();
      RestOfRest(before, script, n, answers);
      x := Answered(line, a, a);
      if line.EndOfText? {
        before := answers;
        var b := NextAnswer();
        RestOfRest(before, script, n + 1, answers);
        x := Answered(line, a, b);
      }
      TakenMore(trace, x);
      trace := trace + [x];
    }

    /** Opens the connection and reads the greeting; a connection that is not greeted is closed. */
    method Connect(overTls: bool) returns (ok: bool)
      requires Valid() && trace == [] && !saidHello && !open
      modifies this
      ensures Valid() && open == ok && !saidHello
      ensures var dialled := Heard(script, [], Dial(overTls, true));
              var greeted := Heard(script, [dialled], Greeting(true));
              && ok == (dialled.ok && greeted.ok)
              && trace == if !dialled.ok then [dialled]
                          else if greeted.ok then [dialled, greeted]
                          else [dialled, greeted, Close]
    {
      hide AnswerAt, Taken;
      var dialled := Exchange(Dial(overTls, true));
      assert trace == [dialled];
      if !dialled.ok {
        return false;
      }
      open := true;
      var greeted := Exchange(Greeting(true));
      assert trace == [dialled, greeted];
      if !greeted.ok {
        CloseConnection();
        assert trace == [dialled, greeted, Close];
      }
      return greeted.ok;
    }

    /** EHLO, and HELO if that is refused; done once and its result remembered. */
    method Hello() returns (ok: bool)
      requires Valid() && open
      modifies this`answers, this`trace, this`saidHello, this`helloOk, this`offersStartTls
      ensures Valid() && saidHello && ok == helloOk
      ensures trace == Hailed(script, old(trace), old(saidHello))
      ensures if old(saidHello) then unchanged(this) else ok == Last(trace).ok && offersStartTls == (Last(trace) == Ehlo(true, true))
    {
      hide AnswerAt, Taken;
      if saidHello {
        return helloOk;
      }
      ghost var before := trace;
      saidHello := true;
      var ehlo := Exchange(Ehlo(true, true));
      helloOk, offersStartTls := ehlo.ok, ehlo.ok && ehlo.offersStartTls;
      if !ehlo.ok {
        var helo := Exchange(Helo(true));
        helloOk := helo.ok;
        assert trace == before + [ehlo, helo];
      }
      return helloOk;
    }

    method OffersStartTls() returns (has: bool)
      requires Valid() && open && !saidHello
      modifies this`answers, this`trace, this`saidHello, this`helloOk, this`offersStartTls
      ensures Valid() && saidHello && trace == Hailed(script, old(trace), false)
      ensures helloOk == Last(trace).ok && has == (Last(trace) == Ehlo(true, true))
    {
      var ok := Hello();
      return ok && offersStartTls;
    }

    /** STARTTLS, the handshake, and a new EHLO. */
    method StartTLS() returns (ok: bool)
      requires Valid() && open && saidHello && helloOk
      modifies this`answers, this`trace, this`offersStartTls
      ensures Valid()
      ensures var upgraded := Heard(script, old(trace), StartTls(true));
              var mid := old(trace) + [upgraded];
              var ehlo := Heard(script, mid, Ehlo(true, true));
              && ok == (upgraded.ok && ehlo.ok)
              && trace == if upgraded.ok then mid + [ehlo] else mid
    {
      hide AnswerAt, Taken;
      var upgraded := Exchange(StartTls(true));
      if !upgraded.ok {
        return false;
      }
      var ehlo := Exchange(Ehlo(true, true));
      offersStartTls := ehlo.offersStartTls;
      return ehlo.ok;
    }

    /** AUTH, once the hello has been accepted. */
    method Authenticate() returns (ok: bool)
      requires Valid() && open
      modifies this`answers, this`trace, this`saidHello, this`helloOk, this`offersStartTls
      ensures Valid() && (ok ==> saidHello && helloOk)
      ensures HelloThen(script, old(trace), old(saidHello), old(helloOk), Auth(true), trace, ok)
    {
      hide AnswerAt, Taken;
      var hello := Hello();
      if !hello {
        return false;
      }
      var x := Exchange(Auth(true));
      return x.ok;
    }

    /** MAIL FROM, once the hello has been accepted. */
    method Mail(from: string) returns (ok: bool)
      requires Valid() && open
      modifies this`answers, this`trace, this`saidHello, this`helloOk, this`offersStartTls
      ensures Valid()
      ensures !Sendable(from) ==> !ok && trace == old(trace)
      ensures Sendable(from) ==>
                HelloThen(script, old(trace), old(saidHello), old(helloOk), MailFrom(from, true), trace, ok)
    {
      hide AnswerAt, Taken;
      if !Sendable(from) {
        return false;
      }
      var hello := Hello();
      if !hello {
        return false;
      }
      var x := Exchange(MailFrom(from, true));
      return x.ok;
    }

    method Rcpt(address: string) returns (ok: bool)
      requires Valid() && open
      modifies this`answers, this`trace
      ensures Valid()
      ensures var x := Heard(script, old(trace), RcptTo(address, true));
              if Sendable(address) then ok == x.ok && trace == old(trace) + [x] else !ok && trace == old(trace)
    {
      hide AnswerAt, Taken;
      if !Sendable(address) {
        return false;
      }
      var x := Exchange(RcptTo(address, true));
      return x.ok;
    }

    method BeginData() returns (ok: bool)
      requires Valid() && open
      modifies this`answers, this`trace
      ensures Valid()
      ensures var x := Heard(script, old(trace), Data(true));
              ok == x.ok && trace == old(trace) + [x]
    {
      hide AnswerAt, Taken;
      var x := Exchange(Data(true));
      return x.ok;
    }

    /** Writes the text; a failed write ends it early, whatever the server then answers. */
    method WriteText(text: seq<bv8>) returns (written: bool, ok: bool)
      requires Valid() && open
      modifies this`answers, this`trace
      ensures Valid()
      ensures var x := Heard(script, old(trace), EndOfText(text, true, true));
              written == x.complete && ok == x.ok && trace == old(trace) + [x]
    {
      hide AnswerAt, Taken;
      var x := Exchange(EndOfText(text, true, true));
      return x.complete, x.ok;
    }

    /** QUIT; an accepted QUIT closes the connection. */
    method SayQuit() returns (ok: bool)
      requires Valid() && open
      modifies this`answers, this`trace, this`open
      ensures Valid() && open == !ok
      ensures var x := Heard(script, old(trace), Quit(true));
              ok == x.ok && trace == if ok then old(trace) + [x] + [Close] else old(trace) + [x]
    {
      hide AnswerAt, Taken;
      var x := Exchange(Quit(true));
      if x.ok {
        CloseConnection();
      }
      return x.ok;
    }

    /** Closing a closed connection does nothing. */
    method CloseConnection()
      requires Valid()
      modifies this`trace, this`open
      ensures Valid() && !open
      ensures trace == if old(open) then old(trace) + [Close] else old(trace)
    {
      hide Taken, IsRest;
      if open {
        TakenMore(trace, Close);
        trace := trace + [Close];
        open := false;
      }
    }
  }

  function Last(trace: seq<Exchange>): Exchange
    requires trace != []
  {
    trace[|trace| - 1]
  }

  /** The log after a hello, which is said once. */
  function Hailed(script: seq<Answer>, before: seq<Exchange>, said: bool): (after: seq<Exchange>)
    ensures !said ==> after != [] && (Last(after).Ehlo? || Last(after).Helo?)
  {
    if said then before
    else
      var ehlo := Heard(script, before, Ehlo(true, true));
      if ehlo.ok then before + [ehlo] else before + [ehlo] + [Heard(script, before + [ehlo], Helo(true))]
  }

  /** The hello, and the line if the hello was accepted. */
  ghost predicate HelloThen(script: seq<Answer>, before: seq<Exchange>, said: bool, helloOk: bool, line: Exchange,
                            after: seq<Exchange>, ok: bool)
    requires line.Auth? || line.MailFrom?
  {
    var mid := Hailed(script, before, said);
    var x := Heard(script, mid, line);
    if if said then helloOk else Last(mid).ok then ok == x.ok && after == mid + [x]
    else !ok && after == mid
  }

  /** A connection as the dialogue has left it before mail: not yet greeted, greeted, or with a
      hello that was refused. */
  ghost predicate Poised(e: Errand, c: Client, greeted: Move)
    reads c
  {
    && c.Valid() && c.open && e.rcpts != [] && Conducted(e, c.script, c.trace) && c.trace != []
    && if !c.saidHello then
         && Implicit(e.cfg) && Last(c.trace) == Greeting(true)
         && After(c.trace) == Session(Connected, true, false, false)
       else NextMove(e, c.trace) == if c.helloOk then greeted else HangUp(Some(MailRefused))
  }

  lemma HailIsConducted(e: Errand, script: seq<Answer>, before: seq<Exchange>)
    requires Conducted(e, script, before) && before != [] && Last(before) == Greeting(true)
    requires NextMove(e, before) == EHLO && After(before) == Session(Connected, Implicit(e.cfg), false, false)
    ensures var after := Hailed(script, before, false);
            && Conducted(e, script, after)
            && NextMove(e, after) == (if Last(after).ok then AfterHello(e, After(after)) else HelloRefused(e))
            && After(after).tls == Implicit(e.cfg)
            && (Last(after).ok ==> After(after).stage == Greeted)
            && After(after).offered == (!Implicit(e.cfg) && Last(after) == Ehlo(true, true))
  {
    hide After, AcceptedRecipients, AnswerAt, Taken, Sendable, Conducted;
    var ehlo := Heard(script, before, Ehlo(true, true));
    OneMoreLine(e, script, before, Ehlo(true, true));
    OneMore(before, ehlo);
    if !ehlo.ok {
      OneMoreLine(e, script, before + [ehlo], Helo(true));
      OneMore(before + [ehlo], Heard(script, before + [ehlo], Helo(true)));
    }
  }

  lemma DialIsConducted(e: Errand, script: seq<Answer>)
    requires e.rcpts != []
    ensures var dialled := Heard(script, [], Dial(Implicit(e.cfg), true));
            var greeted := Heard(script, [dialled], Greeting(true));
            && (!dialled.ok ==> Finished(e, script, [dialled], Some(DialFailed)))
            && (dialled.ok && !greeted.ok ==> Finished(e, script, [dialled, greeted, Close], Some(DialFailed)))
            && (dialled.ok && greeted.ok ==>
                  && Conducted(e, script, [dialled, greeted])
                  && After([dialled, greeted]) == Session(Connected, Implicit(e.cfg), false, false))
  {
    hide After, AcceptedRecipients, AnswerAt, Taken, Sendable, Conducted, Finished;
    var dialled := Heard(script, [], Dial(Implicit(e.cfg), true));
    assert Conducted(e, script, []) by { NothingIsConducted(e, script); }
    NothingSaid();
    OneMoreLine(e, script, [], Dial(Implicit(e.cfg), true));
    OneMore([], dialled);
    assert [] + [dialled] == [dialled];
    if dialled.ok {
      var greeted := Heard(script, [dialled], Greeting(true));
      OneMoreLine(e, script, [dialled], Greeting(true));
      OneMore([dialled], greeted);
      assert [dialled] + [greeted] == [dialled, greeted];
      if !greeted.ok {
        FinishedBy(e, script, [dialled, greeted], Some(DialFailed));
        assert [dialled, greeted] + [Close] == [dialled, greeted, Close];
      }
    } else {
      FinishedBy(e, script, [dialled], Some(DialFailed));
    }
  }

  lemma NothingIsConducted(e: Errand, script: seq<Answer>)
    ensures Conducted(e, script, [])
  {}

  lemma UpgradeIsConducted(e: Errand, script: seq<Answer>, before: seq<Exchange>)
    requires Conducted(e, script, before) && NextMove(e, before) == Say(StartTls(true))
    requires !Implicit(e.cfg) && After(before).stage == Greeted && After(before).offered && !After(before).tls
    ensures var upgraded := Heard(script, before, StartTls(true));
            var ehlo := Heard(script, before + [upgraded], Ehlo(true, true));
            var after := if upgraded.ok then before + [upgraded] + [ehlo] else before + [upgraded];
            && Conducted(e, script, after)
            && NextMove(e, after) == if upgraded.ok && ehlo.ok then CredentialsStep(e) else HangUp(Some(StartTlsFailed))
  {
    hide After, AcceptedRecipients, AnswerAt, Taken, Sendable, Conducted, Implicit;
    var upgraded := Heard(script, before, StartTls(true));
    OneMoreLine(e, script, before, StartTls(true));
    OneMore(before, upgraded);
    var mid := before + [upgraded];
    if upgraded.ok {
      OneMoreLine(e, script, mid, Ehlo(true, true));
      OneMore(mid, Heard(script, mid, Ehlo(true, true)));
    }
  }

  /** What MAIL leads to, from a connection that is ready for mail. */
  lemma MailIsConducted(e: Errand, c: Client)
    requires Poised(e, c, MailStep(e)) && (!c.saidHello ==> e.cfg.username == "")
    ensures if !Sendable(e.from) then NextMove(e, c.trace) == HangUp(Some(MailRefused))
            else
              var mid := Hailed(c.script, c.trace, c.saidHello);
              var x := Heard(c.script, mid, MailFrom(e.from, true));
              if if c.saidHello then c.helloOk else Last(mid).ok then
                && Conducted(e, c.script, mid + [x]) && AcceptedRecipients(mid + [x]) == []
                && NextMove(e, mid + [x]) == if x.ok then RcptStep(e, 0) else HangUp(Some(MailRefused))
              else Conducted(e, c.script, mid) && NextMove(e, mid) == HangUp(Some(MailRefused))
  {
    hide Conducted, After, AcceptedRecipients, AnswerAt, Taken, Sendable;
    if Sendable(e.from) {
      if !c.saidHello {
        HailIsConducted(e, c.script, c.trace);
      }
      var mid := Hailed(c.script, c.trace, c.saidHello);
      if if c.saidHello then c.helloOk else Last(mid).ok {
        OneMoreLine(e, c.script, mid, MailFrom(e.from, true));
        ConversationStands(e, c.script, mid + [Heard(c.script, mid, MailFrom(e.from, true))]);
      }
    }
  }

  lemma RcptIsConducted(e: Errand, script: seq<Answer>, before: seq<Exchange>, n: nat)
    requires Conducted(e, script, before) && n < |e.rcpts|
    requires NextMove(e, before) == RcptStep(e, n) && |AcceptedRecipients(before)| == n
    ensures if !Sendable(e.rcpts[n]) then NextMove(e, before) == HangUp(Some(RcptRefused(e.rcpts[n])))
            else
              var x := Heard(script, before, RcptTo(e.rcpts[n], true));
              && Conducted(e, script, before + [x])
              && |AcceptedRecipients(before + [x])| == n + (if x.ok then 1 else 0)
              && NextMove(e, before + [x]) == if x.ok then RcptStep(e, n + 1) else HangUp(Some(RcptRefused(e.rcpts[n])))
  {
    hide Conducted, After, AcceptedRecipients, AnswerAt, Taken, Sendable;
    if Sendable(e.rcpts[n]) {
      OneMoreLine(e, script, before, RcptTo(e.rcpts[n], true));
      OneMore(before, Heard(script, before, RcptTo(e.rcpts[n], true)));
    }
  }

  /** What one `Send` promises about its session and its result, for any server. */
  ghost predicate Kept(e: Errand, script: seq<Answer>, now: int, receipt: Receipt, err: Option<SmtpError>,
                       trace: seq<Exchange>) {
    && Finished(e, script, trace, err)
    && Legal(trace) && !IsOpen(After(trace).stage)
    && (forall i :: 0 <= i < |trace| ==> Proper(e, trace[..i], trace[i]))
    && (err.None? <==> Cooperates(e, script))
    && (err.None? <==> e.rcpts != [] && AcceptedRecipients(trace) == e.rcpts && MessageAccepted(trace) && Quit(true) in trace)
    && (MessageAccepted(trace) ==> AcceptedRecipients(trace) == e.rcpts && (err.None? || err == Some(QuitFailed)))
    && (e.rcpts == [] <==> err == Some(NoRecipients))
    && (receipt == if err.None? then Receipt("", "smtp", now, Tagged(e.rcpts, Sent)) else NO_RECEIPT)
  }

  function ErrandOf(cfg: Config, msg: Message): Errand {
    Errand(cfg, if cfg.from != "" then cfg.from else msg.from.email, Emails(Everyone(msg)), msg.mimeBody)
  }

  lemma FinishedIsKept(e: Errand, script: seq<Answer>, now: int, receipt: Receipt, err: Option<SmtpError>,
                       trace: seq<Exchange>)
    requires Finished(e, script, trace, err)
    requires receipt == if err.None? then Receipt("", "smtp", now, Tagged(e.rcpts, Sent)) else NO_RECEIPT
    ensures Kept(e, script, now, receipt, err, trace)
  {
    hide Finished, Legal, IsOpen, Proper, Cooperates, AcceptedRecipients, MessageAccepted, Conducted, NextMove;
    ConversationsAreLegal(e, script, trace, err);
    ResultIsWhatWasAccepted(e, script, trace, err);
    SucceedsIffServerCooperates(e, script, trace, err);
    LogIsProper(e, script, trace, err);
  }

  lemma LogIsProper(e: Errand, script: seq<Answer>, trace: seq<Exchange>, err: Option<SmtpError>)
    requires Finished(e, script, trace, err)
    ensures forall i :: 0 <= i < |trace| ==> Proper(e, trace[..i], trace[i])
  {
    hide Conducted, NextMove, After, Implicit;
    var talk := TalkOf(trace);
    EveryLineIsProper(e, script, talk);
    forall i | 0 <= i < |trace|
      ensures Proper(e, trace[..i], trace[i])
    {
      if i < |talk| {
        assert trace[..i] == talk[..i] && trace[i] == talk[i];
      }
    }
  }

  lemma KeptSpelledOut(cfg: Config, msg: Message, answers: seq<Answer>, now: int, receipt: Receipt, err: Option<SmtpError>,
                       trace: seq<Exchange>)
    requires Kept(ErrandOf(cfg, msg), answers, now, receipt, err, trace)
    ensures trace == [] <==> msg.to == [] && msg.cc == [] && msg.bcc == []
    ensures trace != [] ==> trace[0].Dial? && (trace[0].overTls <==> cfg.port == 465 || cfg.implicitTls)
    ensures forall i :: 0 <= i < |trace| && trace[i].MailFrom? ==>
              && trace[i].address == (if cfg.from != "" then cfg.from else msg.from.email)
              && '\r' !in trace[i].address && '\n' !in trace[i].address
              && (cfg.username != "" ==> Auth(true) in trace[..i])
    ensures forall i :: 0 <= i < |trace| && trace[i].RcptTo? ==> '\r' !in trace[i].address && '\n' !in trace[i].address
    ensures forall i :: 0 <= i < |trace| && trace[i].EndOfText? ==> trace[i].text == msg.mimeBody
    ensures err.None? ==> EndOfText(msg.mimeBody, true, true) in trace && Quit(true) in trace
    ensures forall i :: 0 <= i < |trace| && trace[i].Auth? ==> cfg.username != ""
    ensures forall i :: 0 <= i < |trace| && (trace[i].MailFrom? || trace[i].Auth?) ==>
              || Dial(true, true) in trace[..i] || StartTls(true) in trace[..i]
              || (trace[i].MailFrom? && cfg.username == "" && cfg.port != 465 && !cfg.implicitTls && Ehlo(true, true) !in trace[..i])
    ensures if err.None? then
              var all := msg.to + msg.cc + msg.bcc;
              && receipt.messageId == "" && receipt.backend == "smtp" && receipt.sentAt == now
              && |receipt.recipients| == |all|
              && forall i :: 0 <= i < |all| ==> receipt.recipients[i] == RecipientStatus(all[i].email, Sent)
            else receipt.recipients == []
  {
    var e := ErrandOf(cfg, msg);
    hide Finished, Cooperates, AcceptedRecipients, MessageAccepted, After, Conducted, NextMove;
    assert |e.rcpts| == |msg.to| + |msg.cc| + |msg.bcc|;
    ResultIsWhatWasAccepted(e, answers, trace, err);
    LogBegins(e, answers, trace, err);
    forall i | 0 <= i < |trace| && (trace[i].MailFrom? || trace[i].Auth?)
      ensures || Dial(true, true) in trace[..i] || StartTls(true) in trace[..i]
              || (trace[i].MailFrom? && cfg.username == "" && cfg.port != 465 && !cfg.implicitTls && Ehlo(true, true) !in trace[..i])
    {
      assert Proper(e, trace[..i], trace[i]);
      if trace[i].Auth? {
        AuthOnlyUnderTls(trace, i);
        var p :| 0 <= p < i && (trace[p] == Dial(true, true) || trace[p] == StartTls(true));
        assert trace[..i][p] == trace[p];
      } else if After(trace[..i]).tls {
        HandshakeCameFirst(trace, i);
        var p :| 0 <= p < i && (trace[p] == Dial(true, true) || trace[p] == StartTls(true));
        assert trace[..i][p] == trace[p];
      }
    }
    forall i | 0 <= i < |trace|
      ensures Proper(e, trace[..i], trace[i])
    {}
    if err.None? {
      AcceptedTextIsThere(trace);
    }
  }

  lemma AcceptedTextIsThere(trace: seq<Exchange>)
    requires MessageAccepted(trace)
    ensures exists i :: 0 <= i < |trace| && trace[i].EndOfText? && trace[i] == EndOfText(trace[i].text, true, true)
  {
    var i :| 0 <= i < |trace| && IsAcceptance(trace[i]);
    assert trace[i] == EndOfText(trace[i].text, true, true);
  }

  lemma LogBegins(e: Errand, script: seq<Answer>, trace: seq<Exchange>, err: Option<SmtpError>)
    requires Finished(e, script, trace, err)
    ensures trace == [] <==> e.rcpts == []
    ensures trace != [] ==> trace[0].Dial? && trace[0].overTls == Implicit(e.cfg)
  {
    hide Conducted, Implicit;
    var talk := TalkOf(trace);
    if talk != [] {
      FirstLineIsDial(e, script, talk);
      ConversationStands(e, script, talk);
    }
  }

  /** A sender needs a host; a missing port becomes 587. */
  method New(cfg: Config) returns (sender: Option<Sender>)
    ensures sender.None? <==> cfg.host == ""
    ensures sender.Some? ==> fresh(sender.value) && sender.value.cfg == cfg.(port := if cfg.port == 0 then 587 else cfg.port)
  {
    if cfg.host == "" {
      return None;
    }
    var port := cfg.port;
    if port == 0 {
      port := 587;
    }
    var s := new Sender(cfg.(port := port));
    return Some(s);
  }

  class Sender {
    const cfg: Config

    constructor (cfg: Config)
      ensures this.cfg == cfg
    {
      this.cfg := cfg;
    }

    /** Connects and raises TLS: implicitly, or by STARTTLS where it is offered. Without TLS it
        goes on only when there are no credentials to protect. */
    method Open(c: Client, ghost e: Errand) returns (err: Option<SmtpError>)
      requires e.cfg == cfg && e.rcpts != [] && c.Valid() && c.trace == [] && !c.open && !c.saidHello
      modifies c
      ensures c.Valid()
      ensures if err.None? then Poised(e, c, CredentialsStep(e)) && (c.saidHello && !c.helloOk ==> cfg.username == "")
              else !c.open && Finished(e, c.script, c.trace, err)
    {
      hide Conducted, After, AcceptedRecipients, AnswerAt, Taken, Sendable;
      NothingSaid();
      DialIsConducted(e, c.script);
      if cfg.port == 465 || cfg.implicitTls {
        var ok := c.Connect(true);
        return if ok then None else Some(DialFailed);
      }
      var ok := c.Connect(false);
      if !ok {
        return Some(DialFailed);
      }
      HailIsConducted(e, c.script, c.trace);
      var offered := c.OffersStartTls();
      if offered {
        ghost var before := c.trace;
        var raised := c.StartTLS();
        UpgradeIsConducted(e, c.script, before);
        if !raised {
          FinishedBy(e, c.script, c.trace, Some(StartTlsFailed));
          c.CloseConnection();
          return Some(StartTlsFailed);
        }
      } else if cfg.username != "" {
        FinishedBy(e, c.script, c.trace, Some(StartTlsNotOffered));
        c.CloseConnection();
        return Some(StartTlsNotOffered);
      }
      return None;
    }

    /** AUTH, when credentials are configured. */
    method Login(c: Client, ghost e: Errand) returns (ok: bool)
      requires e.cfg == cfg && Poised(e, c, CredentialsStep(e)) && (c.saidHello && !c.helloOk ==> cfg.username == "")
      modifies c
      ensures c.Valid() && c.open
      ensures if ok then Poised(e, c, MailStep(e)) && (!c.saidHello ==> cfg.username == "")
              else Conducted(e, c.script, c.trace) && NextMove(e, c.trace) == HangUp(Some(AuthFailed))
    {
      hide Conducted, After, AcceptedRecipients, AnswerAt, Taken, Sendable;
      if cfg.username == "" {
        return true;
      }
      if !c.saidHello {
        HailIsConducted(e, c.script, c.trace);
      }
      ghost var mid := Hailed(c.script, c.trace, c.saidHello);
      if NextMove(e, mid) == Say(Auth(true)) {
        OneMoreLine(e, c.script, mid, Auth(true));
      }
      ok := c.Authenticate();
    }

    /** MAIL and one RCPT after another, stopping at the first refusal. */
    method Address(c: Client, ghost e: Errand, from: string, rcpts: seq<string>) returns (err: Option<SmtpError>)
      requires e == Errand(cfg, from, rcpts, e.text) && Poised(e, c, MailStep(e)) && (!c.saidHello ==> cfg.username == "")
      modifies c
      ensures c.Valid() && c.open && Conducted(e, c.script, c.trace)
      ensures NextMove(e, c.trace) == if err.None? then Say(Data(true)) else HangUp(err)
    {
      hide Conducted, After, AcceptedRecipients, AnswerAt, Taken, Sendable, NextMove;
      MailIsConducted(e, c);
      var mailed := c.Mail(from);
      if !mailed {
        return Some(MailRefused);
      }
      for i := 0 to |rcpts|
        invariant c.Valid() && c.open && Conducted(e, c.script, c.trace)
        invariant NextMove(e, c.trace) == RcptStep(e, i) && |AcceptedRecipients(c.trace)| == i
      {
        RcptIsConducted(e, c.script, c.trace, i);
        var accepted := c.Rcpt(rcpts[i]);
        if !accepted {
          return Some(RcptRefused(rcpts[i]));
        }
      }
      return None;
    }

    /** DATA, the text and QUIT. */
    method Transact(c: Client, ghost e: Errand, text: seq<bv8>) returns (err: Option<SmtpError>)
      requires text == e.text && c.Valid() && c.open && Conducted(e, c.script, c.trace) && NextMove(e, c.trace) == Say(Data(true))
      modifies c
      ensures c.Valid()
      ensures if c.open then Conducted(e, c.script, c.trace) && NextMove(e, c.trace) == HangUp(err)
              else Finished(e, c.script, c.trace, err)
    {
      hide Conducted, After, AcceptedRecipients, AnswerAt, Taken, Sendable;
      OneMoreLine(e, c.script, c.trace, Data(true));
      var begun := c.BeginData();
      if !begun {
        return Some(DataRefused);
      }
      OneMoreLine(e, c.script, c.trace, EndOfText(text, true, true));
      var written, taken := c.WriteText(text);
      if !written {
        return Some(WriteFailed);
      }
      if !taken {
        return Some(TextRefused);
      }
      OneMoreLine(e, c.script, c.trace, Quit(true));
      ghost var talk := c.trace + [Heard(c.script, c.trace, Quit(true))];
      var left := c.SayQuit();
      err := if left then None else Some(QuitFailed);
      FinishedBy(e, c.script, talk, err);
    }

    /** All envelope recipients: To, then Cc, then Bcc. */
    method Collect(msg: Message) returns (rcpts: seq<string>)
      ensures rcpts == Emails(Everyone(msg))
    {
      rcpts := [];
      for i := 0 to |msg.to|
        invariant rcpts == Emails(msg.to)[..i]
      {
        rcpts := rcpts + [msg.to[i].email];
      }
      for i := 0 to |msg.cc|
        invariant rcpts == Emails(msg.to) + Emails(msg.cc)[..i]
      {
        rcpts := rcpts + [msg.cc[i].email];
      }
      for i := 0 to |msg.bcc|
        invariant rcpts == Emails(msg.to) + Emails(msg.cc) + Emails(msg.bcc)[..i]
      {
        rcpts := rcpts + [msg.bcc[i].email];
      }
    }

    /** `answers` is whatever the server and the network do. The connection, if one was opened, is
        closed on every path. */
    method Send(msg: Message, answers: seq<Answer>, now: int)
      returns (receipt: Receipt, err: Option<SmtpError>, trace: seq<Exchange>)
      ensures Kept(ErrandOf(cfg, msg), answers, now, receipt, err, trace)
      ensures trace == [] <==> msg.to == [] && msg.cc == [] && msg.bcc == []
      ensures trace != [] ==> trace[0].Dial? && (trace[0].overTls <==> cfg.port == 465 || cfg.implicitTls)
      ensures forall i :: 0 <= i < |trace| && trace[i].MailFrom? ==>
                && trace[i].address == (if cfg.from != "" then cfg.from else msg.from.email)
                && '\r' !in trace[i].address && '\n' !in trace[i].address
                && (cfg.username != "" ==> Auth(true) in trace[..i])
      ensures forall i :: 0 <= i < |trace| && trace[i].RcptTo? ==> '\r' !in trace[i].address && '\n' !in trace[i].address
      ensures forall i :: 0 <= i < |trace| && trace[i].EndOfText? ==> trace[i].text == msg.mimeBody
      ensures err.None? ==> EndOfText(msg.mimeBody, true, true) in trace && Quit(true) in trace
      ensures forall i :: 0 <= i < |trace| && trace[i].Auth? ==> cfg.username != ""
      ensures forall i :: 0 <= i < |trace| && (trace[i].MailFrom? || trace[i].Auth?) ==>
                || Dial(true, true) in trace[..i] || StartTls(true) in trace[..i]
                || (trace[i].MailFrom? && cfg.username == "" && cfg.port != 465 && !cfg.implicitTls
                    && Ehlo(true, true) !in trace[..i])
      ensures if err.None? then
                var all := msg.to + msg.cc + msg.bcc;
                && receipt.messageId == "" && receipt.backend == "smtp" && receipt.sentAt == now
                && |receipt.recipients| == |all|
                && forall i :: 0 <= i < |all| ==> receipt.recipients[i] == RecipientStatus(all[i].email, Sent)
              else receipt.recipients == []
    {
      receipt, err, trace := Conduct(msg, answers, now);
      hide *;
      KeptSpelledOut(cfg, msg, answers, now, receipt, err, trace);
    }

    method Conduct(msg: Message, answers: seq<Answer>, now: int)
      returns (receipt: Receipt, err: Option<SmtpError>, trace: seq<Exchange>)
      ensures Kept(ErrandOf(cfg, msg), answers, now, receipt, err, trace)
    {
      hide Conducted, NextMove, Kept, Finished, Poised;
      var rcpts := Collect(msg);
      ghost var e := ErrandOf(cfg, msg);
      receipt, trace := NO_RECEIPT, [];
      if |rcpts| == 0 {
        NobodyToSendTo(e, answers);
        FinishedIsKept(e, answers, now, NO_RECEIPT, Some(NoRecipients), []);
        return NO_RECEIPT, Some(NoRecipients), [];
      }
      var from := cfg.from;
      if from == "" {
        from := msg.from.email;
      }
      var c := new Client(answers);
      err := Open(c, e);
      if err.None? {
        var ok := Login(c, e);
        if ok {
          err := Address(c, e, from, rcpts);
          if err.None? {
            err := Transact(c, e, msg.mimeBody);
          }
        } else {
          err := Some(AuthFailed);
        }
        if c.open {
          FinishedBy(e, answers, c.trace, err);
        }
        c.CloseConnection();
      }
      trace := c.trace;
      if err.None? {
        receipt := Receipt("", "smtp", now, Tagged(rcpts, Sent));
      }
      FinishedIsKept(e, answers, now, receipt, err, trace);
    }

    /** Every message has a session of its own and is attempted whatever became of the others. */
    method SendBatch(msgs: seq<Message>, answers: seq<seq<Answer>>, now: int)
      returns (receipts: array<Receipt>, firstErr: Option<SmtpError>,
               ghost errs: seq<Option<SmtpError>>, ghost traces: seq<seq<Exchange>>)
      requires |answers| == |msgs|
      ensures fresh(receipts) && receipts.Length == |msgs| == |errs| == |traces|
      ensures forall i :: 0 <= i < |msgs| ==> Kept(ErrandOf(cfg, msgs[i]), answers[i], now, receipts[i], errs[i], traces[i])
      ensures IsFirstError(errs, firstErr)
    {
      hide Kept, IsFirstError, ErrandOf;
      receipts := new Receipt[|msgs|](_ => NO_RECEIPT);
      firstErr, errs, traces := None, [], [];
      NoErrorYet<SmtpError>();
      for i := 0 to |msgs|
        invariant |errs| == |traces| == i
        invariant forall j :: 0 <= j < i ==> Kept(ErrandOf(cfg, msgs[j]), answers[j], now, receipts[j], errs[j], traces[j])
        invariant IsFirstError(errs, firstErr)
      {
        var receipt, err, trace := Send(msgs[i], answers[i], now);
        FirstErrorExtends(errs, firstErr, err);
        receipts[i] := receipt;
        errs, traces := errs + [err], traces + [trace];
        if err.Some? && firstErr.None? {
          firstErr := err;
        }
      }
    }
  }

  lemma NobodyToSendTo(e: Errand, script: seq<Answer>)
    requires e.rcpts == []
    ensures Finished(e, script, [], Some(NoRecipients))
  {}
}
