/** Messages, receipts and the partition of recipients (deliver.go and the data flow of
    backend/ses/ses.go), as values shared by the sequential and the concurrent sender. */
module Delivery {
  import opened Wrappers

  datatype Address = Address(name: string, email: string)

  datatype Message = Message(
    from: Address,
    to: seq<Address>,
    cc: seq<Address>,
    bcc: seq<Address>,
    mimeBody: seq<bv8>,
    configurationSet: string)

  datatype RecipientState = Sent | Suppressed

  datatype RecipientStatus = RecipientStatus(email: string, state: RecipientState)

  datatype Receipt = Receipt(messageId: string, backend: string, sentAt: int, recipients: seq<RecipientStatus>)

  const NO_RECEIPT := Receipt("", "", 0, [])

  /** The SMTP envelope handed to SES. */
  datatype Destination = Destination(to: seq<string>, cc: seq<string>, bcc: seq<string>)

  function Everyone(msg: Message): seq<Address> {
    msg.to + msg.cc + msg.bcc
  }

  function Emails(addrs: seq<Address>): seq<string> {
    seq(|addrs|, i requires 0 <= i < |addrs| => addrs[i].email)
  }

  /** The addresses not marked in `hits`, in order, among the first `n`. */
  function AllowedOf(addrs: seq<Address>, hits: seq<bool>, n: nat): seq<Address>
    requires n <= |addrs| && n <= |hits|
  {
    if n == 0 then [] else AllowedOf(addrs, hits, n - 1) + if hits[n - 1] then [] else [addrs[n - 1]]
  }

  /** The emails marked in `hits`, in order, among the first `n`. */
  function HeldOf(addrs: seq<Address>, hits: seq<bool>, n: nat): seq<string>
    requires n <= |addrs| && n <= |hits|
  {
    if n == 0 then [] else HeldOf(addrs, hits, n - 1) + if hits[n - 1] then [addrs[n - 1].email] else []
  }

  function Allowed(addrs: seq<Address>, hits: seq<bool>): seq<Address>
    requires |hits| == |addrs|
  {
    AllowedOf(addrs, hits, |addrs|)
  }

  function Held(addrs: seq<Address>, hits: seq<bool>): seq<string>
    requires |hits| == |addrs|
  {
    HeldOf(addrs, hits, |addrs|)
  }

  function Tagged(emails: seq<string>, state: RecipientState): seq<RecipientStatus> {
    seq(|emails|, i requires 0 <= i < |emails| => RecipientStatus(emails[i], state))
  }

  function Untagged(recipients: seq<RecipientStatus>): seq<string> {
    seq(|recipients|, i requires 0 <= i < |recipients| => recipients[i].email)
  }

  /** The parts of `hits`, one verdict per recipient, that belong to To, Cc and Bcc. */
  function ToHits(msg: Message, hits: seq<bool>): (part: seq<bool>)
    requires |hits| == |Everyone(msg)|
    ensures |part| == |msg.to|
  {
    hits[..|msg.to|]
  }

  function CcHits(msg: Message, hits: seq<bool>): (part: seq<bool>)
    requires |hits| == |Everyone(msg)|
    ensures |part| == |msg.cc|
  {
    hits[|msg.to|..|msg.to| + |msg.cc|]
  }

  function BccHits(msg: Message, hits: seq<bool>): (part: seq<bool>)
    requires |hits| == |Everyone(msg)|
    ensures |part| == |msg.bcc|
  {
    hits[|msg.to| + |msg.cc|..]
  }

  function DestinationOf(msg: Message, hits: seq<bool>): Destination
    requires |hits| == |Everyone(msg)|
  {
    Destination(
      Emails(Allowed(msg.to, ToHits(msg, hits))),
      Emails(Allowed(msg.cc, CcHits(msg, hits))),
      Emails(Allowed(msg.bcc, BccHits(msg, hits))))
  }

  function Envelope(d: Destination): seq<string> {
    d.to + d.cc + d.bcc
  }

  function HeldEmails(msg: Message, hits: seq<bool>): seq<string>
    requires |hits| == |Everyone(msg)|
  {
    Held(msg.to, ToHits(msg, hits)) + Held(msg.cc, CcHits(msg, hits)) + Held(msg.bcc, BccHits(msg, hits))
  }

  function NobodyLeft(msg: Message, hits: seq<bool>): bool
    requires |hits| == |Everyone(msg)|
  {
    |Allowed(msg.to, ToHits(msg, hits))| + |Allowed(msg.cc, CcHits(msg, hits))|
    + |Allowed(msg.bcc, BccHits(msg, hits))| == 0
  }

  function SuppressedReceipt(msg: Message, hits: seq<bool>, sentAt: int): Receipt
    requires |hits| == |Everyone(msg)|
  {
    Receipt("", "ses", sentAt, Tagged(HeldEmails(msg, hits), Suppressed))
  }

  function SentReceipt(msg: Message, hits: seq<bool>, sentAt: int, messageId: Option<string>): Receipt
    requires |hits| == |Everyone(msg)|
  {
    Receipt(if messageId.Some? then messageId.value else "", "ses", sentAt,
            Tagged(HeldEmails(msg, hits), Suppressed) + Tagged(Envelope(DestinationOf(msg, hits)), Sent))
  }

  // ----- Order -------------------------------------------------------------

  function CountClear(hits: seq<bool>, n: nat): nat
    requires n <= |hits|
  {
    if n == 0 then 0 else CountClear(hits, n - 1) + if hits[n - 1] then 0 else 1
  }

  /** Every unmarked address is kept, at the position given by how many unmarked ones precede
      it, and nothing else is: relative order is that of the original. */
  lemma {:induction false} AllowedKeepsOrder(addrs: seq<Address>, hits: seq<bool>, n: nat, i: nat)
    requires i < n <= |addrs| && n <= |hits|
    ensures |AllowedOf(addrs, hits, n)| == CountClear(hits, n)
    ensures !hits[i] ==>
              CountClear(hits, i) < CountClear(hits, n) && AllowedOf(addrs, hits, n)[CountClear(hits, i)] == addrs[i]
  {
    AllowedSize(addrs, hits, n);
    AllowedSize(addrs, hits, n - 1);
    if i < n - 1 {
      AllowedKeepsOrder(addrs, hits, n - 1, i);
    }
  }

  lemma {:induction false} AllowedSize(addrs: seq<Address>, hits: seq<bool>, n: nat)
    requires n <= |addrs| && n <= |hits|
    ensures |AllowedOf(addrs, hits, n)| == CountClear(hits, n)
  {
    if n > 0 {
      AllowedSize(addrs, hits, n - 1);
    }
  }

  lemma {:induction false} AllowedIsUnmarked(addrs: seq<Address>, hits: seq<bool>, n: nat, a: Address) returns (i: nat)
    requires n <= |addrs| && n <= |hits| && a in AllowedOf(addrs, hits, n)
    ensures i < n && !hits[i] && addrs[i] == a
  {
    if a in AllowedOf(addrs, hits, n - 1) {
      i := AllowedIsUnmarked(addrs, hits, n - 1, a);
    } else {
      i := n - 1;
    }
  }

  // ----- Conservation ------------------------------------------------------

  lemma EmailsExtend(addrs: seq<Address>, a: Address)
    ensures Emails(addrs + [a]) == Emails(addrs) + [a.email]
  {}

  lemma AddToEither(a: multiset<string>, b: multiset<string>, c: multiset<string>, e: string)
    requires a + b == c
    ensures (a + multiset{e}) + b == c + multiset{e} == a + (b + multiset{e})
  {}

  lemma Snoc(s: seq<string>, e: string)
    ensures multiset(s + [e]) == multiset(s) + multiset{e}
  {}

  lemma PlaceOne(held: seq<string>, kept: seq<Address>, all: seq<Address>, a: Address, hit: bool)
    requires multiset(held) + multiset(Emails(kept)) == multiset(Emails(all))
    ensures multiset(held + if hit then [a.email] else []) + multiset(Emails(kept + if hit then [] else [a]))
            == multiset(Emails(all + [a]))
  {
    EmailsExtend(all, a);
    EmailsExtend(kept, a);
    assert held + [] == held && kept + [] == kept;
    hide Emails;
    Snoc(Emails(all), a.email);
    Snoc(held, a.email);
    Snoc(Emails(kept), a.email);
    AddToEither(multiset(held), multiset(Emails(kept)), multiset(Emails(all)), a.email);
  }

  lemma {:induction false} PartitionConserves(addrs: seq<Address>, hits: seq<bool>, n: nat)
    requires n <= |addrs| && n <= |hits|
    ensures multiset(HeldOf(addrs, hits, n)) + multiset(Emails(AllowedOf(addrs, hits, n))) == multiset(Emails(addrs[..n]))
  {
    hide Emails;
    if n == 0 {
      EmailsOfNobody();
    } else {
      PartitionConserves(addrs, hits, n - 1);
      var held, kept, all, a, hit := HeldOf(addrs, hits, n - 1), AllowedOf(addrs, hits, n - 1), addrs[..n - 1], addrs[n - 1], hits[n - 1];
      assert HeldOf(addrs, hits, n) == held + if hit then [a.email] else [];
      assert AllowedOf(addrs, hits, n) == kept + if hit then [] else [a];
      assert addrs[..n] == all + [a];
      hide HeldOf, AllowedOf;
      PlaceOne(held, kept, all, a, hit);
    }
  }

  lemma EmailsOfNobody()
    ensures Emails([]) == []
  {}

  lemma PartConserves(addrs: seq<Address>, hits: seq<bool>)
    requires |hits| == |addrs|
    ensures multiset(Held(addrs, hits)) + multiset(Emails(Allowed(addrs, hits))) == multiset(Emails(addrs))
  {
    PartitionConserves(addrs, hits, |addrs|);
    assert addrs[..|addrs|] == addrs;
  }

  lemma EmailsOfEveryone(msg: Message)
    ensures multiset(Emails(Everyone(msg)))
            == multiset(Emails(msg.to)) + multiset(Emails(msg.cc)) + multiset(Emails(msg.bcc))
  {
    assert Emails(Everyone(msg)) == Emails(msg.to) + Emails(msg.cc) + Emails(msg.bcc);
  }

  /** No recipient is lost, duplicated or moved: held and enveloped emails together are exactly
      the message's, set by set and overall. */
  lemma RecipientsConserved(msg: Message, hits: seq<bool>)
    requires |hits| == |Everyone(msg)|
    ensures multiset(HeldEmails(msg, hits)) + multiset(Envelope(DestinationOf(msg, hits)))
            == multiset(Emails(Everyone(msg)))
    ensures var d := DestinationOf(msg, hits);
            && multiset(Held(msg.to, ToHits(msg, hits))) + multiset(d.to) == multiset(Emails(msg.to))
            && multiset(Held(msg.cc, CcHits(msg, hits))) + multiset(d.cc) == multiset(Emails(msg.cc))
            && multiset(Held(msg.bcc, BccHits(msg, hits))) + multiset(d.bcc) == multiset(Emails(msg.bcc))
  {
    hide Held, Allowed, Emails, ToHits, CcHits, BccHits;
    PartConserves(msg.to, ToHits(msg, hits));
    PartConserves(msg.cc, CcHits(msg, hits));
    PartConserves(msg.bcc, BccHits(msg, hits));
    EmailsOfEveryone(msg);
  }

  /** A receipt names each recipient of the message once per occurrence, whether the message was
      sent or every recipient was held back. */
  lemma ReceiptsConserve(msg: Message, hits: seq<bool>, sentAt: int, messageId: Option<string>)
    requires |hits| == |Everyone(msg)|
    ensures multiset(Untagged(SentReceipt(msg, hits, sentAt, messageId).recipients)) == multiset(Emails(Everyone(msg)))
    ensures NobodyLeft(msg, hits) ==>
              multiset(Untagged(SuppressedReceipt(msg, hits, sentAt).recipients)) == multiset(Emails(Everyone(msg)))
  {
    RecipientsConserved(msg, hits);
    var held, out := HeldEmails(msg, hits), Envelope(DestinationOf(msg, hits));
    assert Untagged(Tagged(held, Suppressed)) == held;
    assert Untagged(SentReceipt(msg, hits, sentAt, messageId).recipients) == held + out;
    if NobodyLeft(msg, hits) {
      assert out == [];
    }
  }

  // ----- Who is in the envelope --------------------------------------------

  /** Where the recipients of each set, and the verdicts on them, stand among all. */
  lemma ToPosition(msg: Message, hits: seq<bool>, p: nat)
    requires |hits| == |Everyone(msg)| && p < |msg.to|
    ensures p < |hits| && Everyone(msg)[p] == msg.to[p] && ToHits(msg, hits)[p] == hits[p]
  {}

  lemma CcPosition(msg: Message, hits: seq<bool>, p: nat)
    requires |hits| == |Everyone(msg)| && p < |msg.cc|
    ensures |msg.to| + p < |hits|
    ensures Everyone(msg)[|msg.to| + p] == msg.cc[p] && CcHits(msg, hits)[p] == hits[|msg.to| + p]
  {}

  lemma BccPosition(msg: Message, hits: seq<bool>, p: nat)
    requires |hits| == |Everyone(msg)| && p < |msg.bcc|
    ensures |msg.to| + |msg.cc| + p < |hits|
    ensures Everyone(msg)[|msg.to| + |msg.cc| + p] == msg.bcc[p]
    ensures BccHits(msg, hits)[p] == hits[|msg.to| + |msg.cc| + p]
  {}

  lemma PositionsOfHits(msg: Message, hits: seq<bool>)
    requires |hits| == |Everyone(msg)|
    ensures |hits| == |msg.to| + |msg.cc| + |msg.bcc|
    ensures forall i :: 0 <= i < |msg.to| ==> ToHits(msg, hits)[i] == hits[i]
    ensures forall i :: |msg.to| <= i < |msg.to| + |msg.cc| ==> hits[i] == CcHits(msg, hits)[i - |msg.to|]
    ensures forall i :: 0 <= i < |msg.cc| ==> CcHits(msg, hits)[i] == hits[|msg.to| + i]
    ensures forall i :: |msg.to| + |msg.cc| <= i < |hits| ==> hits[i] == BccHits(msg, hits)[i - |msg.to| - |msg.cc|]
    ensures forall i :: 0 <= i < |msg.bcc| ==> BccHits(msg, hits)[i] == hits[|msg.to| + |msg.cc| + i]
  {}

  lemma EnvelopeParts(d: Destination, e: string)
    ensures e in Envelope(d) <==> e in d.to || e in d.cc || e in d.bcc
  {}

  /** Every enveloped email belongs to an unmarked recipient. */
  lemma EnvelopeIsUnmarked(msg: Message, hits: seq<bool>, e: string) returns (i: nat)
    requires |hits| == |Everyone(msg)| && e in Envelope(DestinationOf(msg, hits))
    ensures i < |hits| && !hits[i] && Everyone(msg)[i].email == e
  {
    EnvelopeParts(DestinationOf(msg, hits), e);
    hide ToHits, CcHits, BccHits, Allowed, Emails, Everyone, Envelope;
    if e in Emails(Allowed(msg.to, ToHits(msg, hits))) {
      i := PartComesFrom(msg.to, ToHits(msg, hits), e);
      ToPosition(msg, hits, i);
    } else if e in Emails(Allowed(msg.cc, CcHits(msg, hits))) {
      var p := PartComesFrom(msg.cc, CcHits(msg, hits), e);
      i := |msg.to| + p;
      CcPosition(msg, hits, p);
    } else {
      var p := PartComesFrom(msg.bcc, BccHits(msg, hits), e);
      i := |msg.to| + |msg.cc| + p;
      BccPosition(msg, hits, p);
    }
  }

  /** Every unmarked recipient is enveloped, in its own set. */
  lemma UnmarkedIsEnveloped(msg: Message, hits: seq<bool>, i: nat)
    requires |hits| == |Everyone(msg)| && i < |hits| && !hits[i]
    ensures var d, e := DestinationOf(msg, hits), Everyone(msg)[i].email;
            if i < |msg.to| then e in d.to else if i < |msg.to| + |msg.cc| then e in d.cc else e in d.bcc
  {
    assert |Everyone(msg)| == |msg.to| + |msg.cc| + |msg.bcc|;
    hide ToHits, CcHits, BccHits, Allowed, Emails, Everyone;
    var n, m := |msg.to|, |msg.to| + |msg.cc|;
    if i < n {
      ToPosition(msg, hits, i);
      PartKeeps(msg.to, ToHits(msg, hits), i);
    } else if i < m {
      CcPosition(msg, hits, i - n);
      PartKeeps(msg.cc, CcHits(msg, hits), i - n);
    } else {
      BccPosition(msg, hits, i - m);
      PartKeeps(msg.bcc, BccHits(msg, hits), i - m);
    }
  }

  lemma PartComesFrom(addrs: seq<Address>, hits: seq<bool>, e: string) returns (i: nat)
    requires |hits| == |addrs| && e in Emails(Allowed(addrs, hits))
    ensures i < |addrs| && !hits[i] && addrs[i].email == e
  {
    var kept := Allowed(addrs, hits);
    var j :| 0 <= j < |kept| && kept[j].email == e;
    i := AllowedIsUnmarked(addrs, hits, |addrs|, kept[j]);
  }

  lemma PartKeeps(addrs: seq<Address>, hits: seq<bool>, i: nat)
    requires |hits| == |addrs| && i < |addrs| && !hits[i]
    ensures addrs[i].email in Emails(Allowed(addrs, hits))
  {
    AllowedKeepsOrder(addrs, hits, |addrs|, i);
    assert Emails(Allowed(addrs, hits))[CountClear(hits, i)] == addrs[i].email;
  }

  /** The emails reported in the given state, in order, among the first `n` statuses. */
  function InState(recipients: seq<RecipientStatus>, state: RecipientState, n: nat): seq<string>
    requires n <= |recipients|
  {
    if n == 0 then []
    else InState(recipients, state, n - 1) + if recipients[n - 1].state == state then [recipients[n - 1].email] else []
  }

  lemma {:induction false} InStateOfTagged(emails: seq<string>, state: RecipientState, wanted: RecipientState, n: nat)
    requires n <= |emails|
    ensures InState(Tagged(emails, state), wanted, n) == if state == wanted then emails[..n] else []
  {
    if n > 0 {
      InStateOfTagged(emails, state, wanted, n - 1);
      assert emails[..n] == emails[..n - 1] + [emails[n - 1]];
    }
  }

  lemma {:induction false} InStateOfPrefix(a: seq<RecipientStatus>, b: seq<RecipientStatus>, wanted: RecipientState, n: nat)
    requires n <= |a|
    ensures InState(a + b, wanted, n) == InState(a, wanted, n)
  {
    if n > 0 {
      InStateOfPrefix(a, b, wanted, n - 1);
    }
  }

  lemma {:induction false} InStateOfConcat(a: seq<RecipientStatus>, b: seq<RecipientStatus>, wanted: RecipientState, n: nat)
    requires n <= |b|
    ensures InState(a + b, wanted, |a| + n) == InState(a, wanted, |a|) + InState(b, wanted, n)
  {
    if n > 0 {
      InStateOfConcat(a, b, wanted, n - 1);
      assert (a + b)[|a| + n - 1] == b[n - 1];
    } else {
      InStateOfPrefix(a, b, wanted, |a|);
    }
  }

  lemma {:induction false} NobodyAllowed(addrs: seq<Address>, hits: seq<bool>, n: nat)
    requires n <= |addrs| && n <= |hits|
    ensures |AllowedOf(addrs, hits, n)| == 0 <==> forall i :: 0 <= i < n ==> hits[i]
  {
    if n > 0 {
      NobodyAllowed(addrs, hits, n - 1);
    }
  }

  /** A message is a no-op exactly when every one of its To, Cc and Bcc recipients is held back;
      in particular when it has none. */
  lemma NobodyLeftIffAllHeld(msg: Message, hits: seq<bool>)
    requires |hits| == |Everyone(msg)|
    ensures NobodyLeft(msg, hits) <==> forall i :: 0 <= i < |hits| ==> hits[i]
  {
    hide Everyone, ToHits, CcHits, BccHits, AllowedOf;
    NobodyAllowed(msg.to, ToHits(msg, hits), |msg.to|);
    NobodyAllowed(msg.cc, CcHits(msg, hits), |msg.cc|);
    NobodyAllowed(msg.bcc, BccHits(msg, hits), |msg.bcc|);
    PositionsOfHits(msg, hits);
  }

  ghost predicate ToAllHeld(msg: Message, hits: seq<bool>)
    requires |hits| == |Everyone(msg)|
  {
    forall i :: 0 <= i < |msg.to| ==> hits[i]
  }

  /** Judging by the To recipients alone gives another answer exactly when all of those are held
      back and some Cc or Bcc recipient is not: such a message is sent. */
  lemma ToAloneDoesNotDecide(msg: Message, hits: seq<bool>)
    requires |hits| == |Everyone(msg)|
    ensures (NobodyLeft(msg, hits) <==> ToAllHeld(msg, hits))
            <==> !(ToAllHeld(msg, hits) && exists i :: |msg.to| <= i < |hits| && !hits[i])
  {
    hide NobodyLeft;
    NobodyLeftIffAllHeld(msg, hits);
  }

  /** One held To recipient and one other Cc recipient. */
  lemma HeldToWithOpenCc(from: Address, to: Address, cc: Address)
    ensures var msg := Message(from, [to], [cc], [], [], "");
            |Everyone(msg)| == 2 && ToAllHeld(msg, [true, false]) && !NobodyLeft(msg, [true, false])
  {
    var msg := Message(from, [to], [cc], [], [], "");
    assert |Everyone(msg)| == 2;
    NobodyLeftIffAllHeld(msg, [true, false]);
    hide NobodyLeft;
    assert ![true, false][1];
  }

  lemma InStateOfAll(emails: seq<string>, state: RecipientState, wanted: RecipientState)
    ensures |Tagged(emails, state)| == |emails|
    ensures InState(Tagged(emails, state), wanted, |emails|) == if state == wanted then emails else []
  {
    hide InState;
    InStateOfTagged(emails, state, wanted, |emails|);
    assert emails[..|emails|] == emails;
  }

  lemma InStateOfWhole(held: seq<string>, out: seq<string>, wanted: RecipientState)
    ensures var all := Tagged(held, Suppressed) + Tagged(out, Sent);
            InState(all, wanted, |all|) == if wanted == Suppressed then held else out
    ensures var all := Tagged(held, Suppressed);
            InState(all, wanted, |all|) == if wanted == Suppressed then held else []
  {
    hide InState, Tagged;
    InStateOfAll(held, Suppressed, wanted);
    InStateOfAll(out, Sent, wanted);
    InStateOfConcat(Tagged(held, Suppressed), Tagged(out, Sent), wanted, |out|);
  }

  lemma TaggedInOrder(rs: seq<RecipientStatus>, held: seq<string>, out: seq<string>)
    requires rs == Tagged(held, Suppressed) + Tagged(out, Sent)
    ensures && |rs| == |held| + |out|
            && (forall i :: 0 <= i < |held| ==> rs[i] == RecipientStatus(held[i], Suppressed))
            && (forall i :: 0 <= i < |out| ==> rs[|held| + i] == RecipientStatus(out[i], Sent))
  {}

  /** The receipt of a sent message names first the held recipients and then the enveloped ones. */
  lemma ReceiptOrder(msg: Message, hits: seq<bool>, sentAt: int, messageId: Option<string>)
    requires |hits| == |Everyone(msg)|
    ensures var rs, held, out := SentReceipt(msg, hits, sentAt, messageId).recipients, HeldEmails(msg, hits), Envelope(DestinationOf(msg, hits));
            && |rs| == |held| + |out|
            && (forall i :: 0 <= i < |held| ==> rs[i] == RecipientStatus(held[i], Suppressed))
            && (forall i :: 0 <= i < |out| ==> rs[|held| + i] == RecipientStatus(out[i], Sent))
  {
    hide HeldEmails, DestinationOf, Envelope, Tagged, Everyone;
    var rs := SentReceipt(msg, hits, sentAt, messageId).recipients;
    hide SentReceipt;
    TaggedInOrder(rs, HeldEmails(msg, hits), Envelope(DestinationOf(msg, hits)));
  }

  /** A receipt accounts for everybody: those marked sent are the envelope in order, those marked
      suppressed are the ones held back in order. */
  lemma ReceiptAccounts(msg: Message, hits: seq<bool>, sentAt: int, messageId: Option<string>)
    requires |hits| == |Everyone(msg)|
    ensures var rs := SentReceipt(msg, hits, sentAt, messageId).recipients;
            && InState(rs, Sent, |rs|) == Envelope(DestinationOf(msg, hits))
            && InState(rs, Suppressed, |rs|) == HeldEmails(msg, hits)
    ensures var rs := SuppressedReceipt(msg, hits, sentAt).recipients;
            InState(rs, Sent, |rs|) == [] && InState(rs, Suppressed, |rs|) == HeldEmails(msg, hits)
  {
    hide HeldEmails, DestinationOf, Envelope, InState, Tagged;
    InStateOfWhole(HeldEmails(msg, hits), Envelope(DestinationOf(msg, hits)), Sent);
    InStateOfWhole(HeldEmails(msg, hits), Envelope(DestinationOf(msg, hits)), Suppressed);
  }

  // ----- Batches -----------------------------------------------------------

  /** `err` is the first failure among the errors of a batch, or None when there is none. */
  ghost predicate IsFirstError<E(!new)>(errs: seq<Option<E>>, err: Option<E>) {
    if err.None? then forall i :: 0 <= i < |errs| ==> errs[i].None?
    else exists i :: 0 <= i < |errs| && errs[i] == err && forall j :: 0 <= j < i ==> errs[j].None?
  }

  lemma FirstErrorSpelledOut<E(!new)>(errs: seq<Option<E>>, err: Option<E>)
    requires IsFirstError(errs, err)
    ensures err.None? <==> forall i :: 0 <= i < |errs| ==> errs[i].None?
    ensures err.Some? ==> exists i :: 0 <= i < |errs| && errs[i] == err && forall j :: 0 <= j < i ==> errs[j].None?
  {}

  lemma FirstErrorExtends<E(!new)>(errs: seq<Option<E>>, err: Option<E>, next: Option<E>)
    requires IsFirstError(errs, err)
    ensures IsFirstError(errs + [next], if err.None? then next else err)
  {
    var all := errs + [next];
    if err.Some? {
      var i :| 0 <= i < |errs| && errs[i] == err && forall j :: 0 <= j < i ==> errs[j].None?;
      assert all[i] == err && forall j :: 0 <= j < i ==> all[j] == errs[j];
    } else if next.Some? {
      assert all[|errs|] == next;
    }
  }

  lemma NoErrorYet<E(!new)>()
    ensures IsFirstError<E>([], None)
  {}
}
