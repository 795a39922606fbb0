/** backend/ses/sns_verify.go, `snsStringToSign`: the canonical string over which an SNS message is
    signed, and a parser that recovers from it every field that went in.

    The message text may hold newlines, so the string cannot be parsed from the front; all other
    fields are single lines, so it can be parsed from the back. */
module SnsCanonical {
  import opened Wrappers
  import opened Text

  datatype Envelope = Envelope(
    kind: string,
    messageId: string,
    topicArn: string,
    subject: string,
    message: string,
    timestamp: string,
    subscribeUrl: string,
    token: string)

  /** What is signed, in the two layouts. */
  datatype Signed =
    | Confirmation(message: string, messageId: string, subscribeUrl: string, timestamp: string,
                   token: string, topicArn: string, kind: string)
    | Notice(message: string, messageId: string, subject: Option<string>, timestamp: string,
             topicArn: string, kind: string)

  predicate IsConfirmation(kind: string) {
    kind == "SubscriptionConfirmation" || kind == "UnsubscribeConfirmation"
  }

  function SignedFields(env: Envelope): Signed {
    if IsConfirmation(env.kind) then
      Confirmation(env.message, env.messageId, env.subscribeUrl, env.timestamp, env.token, env.topicArn, env.kind)
    else
      Notice(env.message, env.messageId, if env.subject == "" then None else Some(env.subject),
             env.timestamp, env.topicArn, env.kind)
  }

  function Field(key: string, val: string): string {
    key + "\n" + val + "\n"
  }

  function Print(f: Signed): string {
    match f
    case Confirmation(message, id, url, timestamp, token, arn, kind) =>
      Field("Message", message) + Field("MessageId", id) + Field("SubscribeURL", url)
      + Field("Timestamp", timestamp) + Field("Token", token) + Field("TopicArn", arn) + Field("Type", kind)
    case Notice(message, id, subject, timestamp, arn, kind) =>
      Field("Message", message) + Field("MessageId", id)
      + (if subject.Some? then Field("Subject", subject.value) else "")
      + Field("Timestamp", timestamp) + Field("TopicArn", arn) + Field("Type", kind)
  }

  /** The lines, each ended by a newline. */
  function Joined(lines: seq<string>): string {
    if lines == [] then "" else Joined(lines[..|lines| - 1]) + lines[|lines| - 1] + "\n"
  }

  lemma JoinedMore(lines: seq<string>, key: string, val: string)
    ensures Joined(lines + [key, val]) == Joined(lines) + Field(key, val)
  {
    var more := lines + [key];
    assert more[..|lines|] == lines;
    assert lines + [key, val] == more + [val];
    assert (more + [val])[..|more|] == more;
    Regroup(Joined(lines), key, val);
  }

  lemma Regroup(s: string, key: string, val: string)
    ensures s + (key + "\n" + val + "\n") == s + key + "\n" + val + "\n"
  {}

  lemma JoinedFive(k1: string, v1: string, k2: string, v2: string, k3: string, v3: string, k4: string, v4: string,
                   k5: string, v5: string)
    ensures Joined([k1, v1, k2, v2, k3, v3, k4, v4, k5, v5])
            == Field(k1, v1) + Field(k2, v2) + Field(k3, v3) + Field(k4, v4) + Field(k5, v5)
  {
    var l1 := [k1, v1];
    var l2 := l1 + [k2, v2];
    var l3 := l2 + [k3, v3];
    var l4 := l3 + [k4, v4];
    NothingJoined();
    hide Joined, Field;
    JoinedMore([], k1, v1);
    assert [] + [k1, v1] == l1 && "" + Field(k1, v1) == Field(k1, v1);
    JoinedMore(l1, k2, v2);
    JoinedMore(l2, k3, v3);
    JoinedMore(l3, k4, v4);
    JoinedMore(l4, k5, v5);
    assert l4 + [k5, v5] == [k1, v1, k2, v2, k3, v3, k4, v4, k5, v5];
  }

  lemma NothingJoined()
    ensures Joined([]) == ""
  {}

  lemma JoinedSix(k1: string, v1: string, k2: string, v2: string, k3: string, v3: string, k4: string, v4: string,
                  k5: string, v5: string, k6: string, v6: string)
    ensures Joined([k1, v1, k2, v2, k3, v3, k4, v4, k5, v5, k6, v6])
            == Field(k1, v1) + Field(k2, v2) + Field(k3, v3) + Field(k4, v4) + Field(k5, v5) + Field(k6, v6)
  {
    JoinedFive(k1, v1, k2, v2, k3, v3, k4, v4, k5, v5);
    hide Joined, Field;
    var five := [k1, v1, k2, v2, k3, v3, k4, v4, k5, v5];
    JoinedMore(five, k6, v6);
    assert five + [k6, v6] == [k1, v1, k2, v2, k3, v3, k4, v4, k5, v5, k6, v6];
  }

  lemma JoinedSeven(k1: string, v1: string, k2: string, v2: string, k3: string, v3: string, k4: string, v4: string,
                    k5: string, v5: string, k6: string, v6: string, k7: string, v7: string)
    ensures Joined([k1, v1, k2, v2, k3, v3, k4, v4, k5, v5, k6, v6, k7, v7])
            == Field(k1, v1) + Field(k2, v2) + Field(k3, v3) + Field(k4, v4) + Field(k5, v5) + Field(k6, v6) + Field(k7, v7)
  {
    JoinedSix(k1, v1, k2, v2, k3, v3, k4, v4, k5, v5, k6, v6);
    hide Joined, Field;
    var six := [k1, v1, k2, v2, k3, v3, k4, v4, k5, v5, k6, v6];
    JoinedMore(six, k7, v7);
    assert six + [k7, v7] == [k1, v1, k2, v2, k3, v3, k4, v4, k5, v5, k6, v6, k7, v7];
  }

  /** The lines of each layout: a confirmation of either kind has seven fields, anything else five,
      and a subject if there is one. */
  lemma LinesSpelledOut(env: Envelope)
    ensures env.kind == "SubscriptionConfirmation" || env.kind == "UnsubscribeConfirmation" ==>
              Print(SignedFields(env))
              == Joined(["Message", env.message, "MessageId", env.messageId, "SubscribeURL", env.subscribeUrl,
                         "Timestamp", env.timestamp, "Token", env.token, "TopicArn", env.topicArn, "Type", env.kind])
    ensures env.kind != "SubscriptionConfirmation" && env.kind != "UnsubscribeConfirmation" ==>
              Print(SignedFields(env))
              == if env.subject != "" then
                   Joined(["Message", env.message, "MessageId", env.messageId, "Subject", env.subject,
                           "Timestamp", env.timestamp, "TopicArn", env.topicArn, "Type", env.kind])
                 else
                   Joined(["Message", env.message, "MessageId", env.messageId,
                           "Timestamp", env.timestamp, "TopicArn", env.topicArn, "Type", env.kind])
  {
    hide Field, Joined;
    if env.kind == "SubscriptionConfirmation" || env.kind == "UnsubscribeConfirmation" {
      JoinedSeven("Message", env.message, "MessageId", env.messageId, "SubscribeURL", env.subscribeUrl,
                  "Timestamp", env.timestamp, "Token", env.token, "TopicArn", env.topicArn, "Type", env.kind);
    } else if env.subject != "" {
      JoinedSix("Message", env.message, "MessageId", env.messageId, "Subject", env.subject,
                "Timestamp", env.timestamp, "TopicArn", env.topicArn, "Type", env.kind);
    } else {
      JoinedFive("Message", env.message, "MessageId", env.messageId,
                 "Timestamp", env.timestamp, "TopicArn", env.topicArn, "Type", env.kind);
      var two := Field("Message", env.message) + Field("MessageId", env.messageId);
      assert two + "" == two;
    }
  }

  /** The builder's closure: one key and one value, each ended by a newline. */
  method Add(builder: string, key: string, val: string) returns (longer: string)
    ensures longer == builder + Field(key, val)
  {
    longer := builder + key;
    longer := longer + "\n";
    longer := longer + val;
    longer := longer + "\n";
  }

  method StringToSign(env: Envelope) returns (b: string)
    ensures b == Print(SignedFields(env))
    ensures env.kind == "SubscriptionConfirmation" || env.kind == "UnsubscribeConfirmation" ==>
              b == Joined(["Message", env.message, "MessageId", env.messageId, "SubscribeURL", env.subscribeUrl,
                           "Timestamp", env.timestamp, "Token", env.token, "TopicArn", env.topicArn, "Type", env.kind])
    ensures env.kind != "SubscriptionConfirmation" && env.kind != "UnsubscribeConfirmation" ==>
              b == if env.subject != "" then
                     Joined(["Message", env.message, "MessageId", env.messageId, "Subject", env.subject,
                             "Timestamp", env.timestamp, "TopicArn", env.topicArn, "Type", env.kind])
                   else
                     Joined(["Message", env.message, "MessageId", env.messageId,
                             "Timestamp", env.timestamp, "TopicArn", env.topicArn, "Type", env.kind])
  {
    b := Build(env);
    hide Print, SignedFields, Joined;
    LinesSpelledOut(env);
  }

  method Build(env: Envelope) returns (b: string)
    ensures b == Print(SignedFields(env))
  {
    hide Field;
    b := "";
    if env.kind == "SubscriptionConfirmation" || env.kind == "UnsubscribeConfirmation" {
      b := Add(b, "Message", env.message);
      b := Add(b, "MessageId", env.messageId);
      b := Add(b, "SubscribeURL", env.subscribeUrl);
      b := Add(b, "Timestamp", env.timestamp);
      b := Add(b, "Token", env.token);
      b := Add(b, "TopicArn", env.topicArn);
      b := Add(b, "Type", env.kind);
    } else {
      b := Add(b, "Message", env.message);
      b := Add(b, "MessageId", env.messageId);
      if env.subject != "" {
        b := Add(b, "Subject", env.subject);
      }
      b := Add(b, "Timestamp", env.timestamp);
      b := Add(b, "TopicArn", env.topicArn);
      b := Add(b, "Type", env.kind);
    }
  }

  // ----- Parsing from the back ---------------------------------------------

  /** Splits off the last line of a text whose every line is ended. */
  function PopLine(s: string): Option<(string, string)> {
    if s == "" || s[|s| - 1] != '\n' then None
    else
      var body := s[..|s| - 1];
      var at := LastIndex(body, '\n');
      Some((body[..at + 1], body[at + 1..]))
  }

  /** Splits off a last field with the given key. */
  function PopField(s: string, key: string): Option<(string, string)> {
    var (s1, val) :- PopLine(s);
    var (s2, k) :- PopLine(s1);
    if k == key then Some((s2, val)) else None
  }

  /** The first field, whose value may hold newlines. */
  function Head(s: string): Option<string> {
    if |s| >= 9 && s[..8] == "Message\n" && s[|s| - 1] == '\n' then Some(s[8..|s| - 1]) else None
  }

  function Parse(s: string): Option<Signed> {
    var (s1, kind) :- PopField(s, "Type");
    var (s2, arn) :- PopField(s1, "TopicArn");
    if IsConfirmation(kind) then
      var (s3, token) :- PopField(s2, "Token");
      var (s4, timestamp) :- PopField(s3, "Timestamp");
      var (s5, url) :- PopField(s4, "SubscribeURL");
      var (s6, id) :- PopField(s5, "MessageId");
      var message :- Head(s6);
      Some(Confirmation(message, id, url, timestamp, token, arn, kind))
    else
      var (s3, timestamp) :- PopField(s2, "Timestamp");
      var subject := PopField(s3, "Subject");
      var s4 := if subject.Some? then subject.value.0 else s3;
      var (s5, id) :- PopField(s4, "MessageId");
      var message :- Head(s5);
      Some(Notice(message, id, if subject.Some? then Some(subject.value.1) else None, timestamp, arn, kind))
  }

  /** A single line. */
  predicate Line(s: string) {
    '\n' !in s
  }

  /** Every field but the message is a single line, and the layout is the one its kind calls for. */
  predicate Canonical(f: Signed) {
    && Line(f.messageId) && Line(f.timestamp) && Line(f.topicArn) && Line(f.kind)
    && (f.Confirmation? <==> IsConfirmation(f.kind))
    && (f.Confirmation? ==> Line(f.subscribeUrl) && Line(f.token))
    && (f.Notice? && f.subject.Some? ==> Line(f.subject.value))
  }

  /** Empty, or ended by a newline. */
  predicate Ended(s: string) {
    s == "" || s[|s| - 1] == '\n'
  }

  lemma PopLineOf(rest: string, line: string)
    requires Ended(rest) && Line(line)
    ensures PopLine(rest + line + "\n") == Some((rest, line))
  {
    var body := rest + line;
    var s := body + "\n";
    assert rest + line + "\n" == s && s[..|s| - 1] == body;
    LastLineStartsAfter(rest, line);
    assert body[..|rest|] == rest && body[|rest|..] == line;
  }

  lemma LastLineStartsAfter(rest: string, line: string)
    requires Ended(rest) && Line(line)
    ensures LastIndex(rest + line, '\n') == |rest| - 1
  {
    hide LastIndex;
    var body := rest + line;
    assert forall i :: |rest| <= i < |body| ==> body[i] == line[i - |rest|];
    assert rest != "" ==> body[|rest| - 1] == '\n';
  }

  lemma PopFieldOf(rest: string, key: string, val: string, wanted: string)
    requires Ended(rest) && Line(key) && Line(val)
    ensures PopField(rest + Field(key, val), wanted) == if key == wanted then Some((rest, val)) else None
    ensures Ended(rest + Field(key, val))
  {
    var inner := rest + key + "\n";
    assert rest + Field(key, val) == inner + val + "\n";
    PopLineOf(inner, val);
    PopLineOf(rest, key);
  }

  lemma HeadOf(message: string)
    ensures Head(Field("Message", message)) == Some(message)
    ensures Ended(Field("Message", message))
  {
    var s := Field("Message", message);
    assert s == "Message\n" + message + "\n";
    assert s[8..|s| - 1] == message;
  }

  lemma ParsePrintConfirmation(f: Signed)
    requires Canonical(f) && f.Confirmation?
    ensures Parse(Print(f)) == Some(f)
  {
    hide PopField, Head, Field;
    HeadOf(f.message);
    var s1 := Field("Message", f.message);
    PopFieldOf(s1, "MessageId", f.messageId, "MessageId");
    var s2 := s1 + Field("MessageId", f.messageId);
    PopFieldOf(s2, "SubscribeURL", f.subscribeUrl, "SubscribeURL");
    var s3 := s2 + Field("SubscribeURL", f.subscribeUrl);
    PopFieldOf(s3, "Timestamp", f.timestamp, "Timestamp");
    var s4 := s3 + Field("Timestamp", f.timestamp);
    PopFieldOf(s4, "Token", f.token, "Token");
    var s5 := s4 + Field("Token", f.token);
    PopFieldOf(s5, "TopicArn", f.topicArn, "TopicArn");
    PopFieldOf(s5 + Field("TopicArn", f.topicArn), "Type", f.kind, "Type");
  }

  lemma ParsePrintNotice(f: Signed)
    requires Canonical(f) && f.Notice?
    ensures Parse(Print(f)) == Some(f)
  {
    hide PopField, Head, Field;
    HeadOf(f.message);
    var s1 := Field("Message", f.message);
    PopFieldOf(s1, "MessageId", f.messageId, "MessageId");
    PopFieldOf(s1, "MessageId", f.messageId, "Subject");
    var s2 := s1 + Field("MessageId", f.messageId);
    var s3 := s2 + if f.subject.Some? then Field("Subject", f.subject.value) else "";
    if f.subject.Some? {
      PopFieldOf(s2, "Subject", f.subject.value, "Subject");
    } else {
      assert s3 == s2;
    }
    PopFieldOf(s3, "Timestamp", f.timestamp, "Timestamp");
    var s4 := s3 + Field("Timestamp", f.timestamp);
    PopFieldOf(s4, "TopicArn", f.topicArn, "TopicArn");
    PopFieldOf(s4 + Field("TopicArn", f.topicArn), "Type", f.kind, "Type");
  }

  /** Parsing undoes printing, whatever newlines the message holds. */
  lemma ParsePrint(f: Signed)
    requires Canonical(f)
    ensures Parse(Print(f)) == Some(f)
  {
    hide Parse, Print;
    if f.Confirmation? {
      ParsePrintConfirmation(f);
    } else {
      ParsePrintNotice(f);
    }
  }

  lemma PopFieldSound(s: string, key: string)
    ensures PopField(s, key).Some? ==>
              var (rest, val) := PopField(s, key).value; s == rest + Field(key, val) && Line(val)
  {
    PopLineSound(s);
    if PopLine(s).Some? {
      PopLineSound(PopLine(s).value.0);
    }
  }

  lemma PopLineSound(s: string)
    ensures PopLine(s).Some? ==>
              var (rest, line) := PopLine(s).value; s == rest + line + "\n" && Line(line)
  {}

  lemma HeadSound(s: string)
    ensures Head(s).Some? ==> s == Field("Message", Head(s).value)
  {}

  /** The parser accepts nothing but canonical strings: printing undoes parsing. */
  lemma PrintParse(s: string)
    ensures Parse(s).Some? ==> Canonical(Parse(s).value) && Print(Parse(s).value) == s
  {
    hide PopField, Head, Field;
    forall t, key {
      PopFieldSound(t, key);
    }
    forall t {
      HeadSound(t);
    }
    if Parse(s).Some? {
      var f := Parse(s).value;
      var (s1, kind) := PopField(s, "Type").value;
      var (s2, arn) := PopField(s1, "TopicArn").value;
      if IsConfirmation(kind) {
        var (s3, token) := PopField(s2, "Token").value;
        var (s4, timestamp) := PopField(s3, "Timestamp").value;
        var (s5, url) := PopField(s4, "SubscribeURL").value;
        var (s6, id) := PopField(s5, "MessageId").value;
        assert f == Confirmation(f.message, id, url, timestamp, token, arn, kind);
        assert s6 == Field("Message", f.message);
        assert s4 == s6 + Field("MessageId", id) + Field("SubscribeURL", url);
        assert s == s4 + Field("Timestamp", timestamp) + Field("Token", token) + Field("TopicArn", arn) + Field("Type", kind);
      } else {
        var (s3, timestamp) := PopField(s2, "Timestamp").value;
        assert f == Notice(f.message, f.messageId, f.subject, timestamp, arn, kind);
        var subject := PopField(s3, "Subject");
        var s4 := if subject.Some? then subject.value.0 else s3;
        var (s5, id) := PopField(s4, "MessageId").value;
        assert s5 == Field("Message", f.message) && s4 == s5 + Field("MessageId", id);
        assert s3 == s4 + if f.subject.Some? then Field("Subject", f.subject.value) else "";
        assert s == s3 + Field("Timestamp", timestamp) + Field("TopicArn", arn) + Field("Type", kind);
      }
    }
  }

  // ----- Envelopes ---------------------------------------------------------

  /** From the string to sign, all signed fields, the presence of the subject and the layout can
      be recovered; so two envelopes with the same string agree on all of them. Fields that are
      not signed may hold anything. */
  lemma StringToSignIsUniquelyDecodable(e1: Envelope, e2: Envelope)
    requires Canonical(SignedFields(e1)) && Canonical(SignedFields(e2))
    ensures Parse(Print(SignedFields(e1))) == Some(SignedFields(e1))
    ensures Print(SignedFields(e1)) == Print(SignedFields(e2)) <==> SignedFields(e1) == SignedFields(e2)
  {
    hide Parse, Print, Canonical, SignedFields;
    ParsePrint(SignedFields(e1));
    ParsePrint(SignedFields(e2));
  }

  /** A field with a newline makes an envelope confusable with a canonical one exactly if the
      parser accepts its string. */
  lemma ConfusableIffItParses(env: Envelope)
    requires !Canonical(SignedFields(env))
    ensures (exists f :: Canonical(f) && Print(f) == Print(SignedFields(env))) <==> Parse(Print(SignedFields(env))).Some?
  {
    hide Parse, Print, Canonical, SignedFields;
    var s := Print(SignedFields(env));
    PrintParse(s);
    forall f | Canonical(f) && Print(f) == s
      ensures Parse(s).Some?
    {
      ParsePrint(f);
    }
    assert Parse(s).Some? ==> Canonical(Parse(s).value) && Print(Parse(s).value) == s;
  }

  /** So the message id must be a single line: every envelope with a subject prints the same string
      as one that has no subject and whose message id holds it. */
  lemma SubjectHidesInMessageId(env: Envelope)
    requires Canonical(SignedFields(env)) && !IsConfirmation(env.kind) && env.subject != ""
    ensures var twin := env.(messageId := env.messageId + "\nSubject\n" + env.subject, subject := "");
            && Print(SignedFields(twin)) == Print(SignedFields(env))
            && SignedFields(twin) != SignedFields(env) && !Canonical(SignedFields(twin))
  {
    var id := env.messageId + "\nSubject\n" + env.subject;
    assert Field("MessageId", id) == Field("MessageId", env.messageId) + Field("Subject", env.subject);
    assert id[|env.messageId|] == '\n';
    var before := Field("Message", env.message);
    var a, b := Field("MessageId", env.messageId), Field("Subject", env.subject);
    Splice(before, a, b);
    hide Field, Canonical;
    assert !Line(id);
  }

  lemma Splice(before: string, a: string, b: string)
    ensures before + (a + b) + "" == before + a + b
  {}
}
