/** backend/ses/bounce.go: what a decoded SES notification does to the suppression list. */
module Webhook {
  import opened Text
  import opened Wrappers
  import opened Suppression

  datatype BouncePayload = BouncePayload(bounceType: string, bouncedRecipients: seq<string>)

  datatype Notification = Notification(
    notificationType: string,
    bounce: Option<BouncePayload>,
    complaint: Option<seq<string>>)

  // ----- Which additions a notification asks for ---------------------------

  /** The addresses a notification holds against: those of a permanent bounce or a complaint. */
  function Blamed(n: Notification): seq<string> {
    if n.notificationType == "Bounce" then
      if n.bounce.Some? && IsPermanent(n.bounce.value.bounceType) then n.bounce.value.bouncedRecipients else []
    else if n.notificationType == "Complaint" && n.complaint.Some? then n.complaint.value
    else []
  }

  function ReasonFor(n: Notification): string {
    if n.notificationType == "Bounce" then REASON_BOUNCE else REASON_COMPLAINT
  }

  /** The calls of `Add` made for the first `n` recipients. */
  function AddsFor(recipients: seq<string>, reason: string, n: nat): (adds: seq<Op>)
    requires n <= |recipients|
    ensures |adds| <= n && forall op :: op in adds ==> op.Add?
  {
    if n == 0 then []
    else AddsFor(recipients, reason, n - 1)
         + if recipients[n - 1] == "" then [] else [Op.Add(recipients[n - 1], reason)]
  }

  function Adds(n: Notification): seq<Op> {
    AddsFor(Blamed(n), ReasonFor(n), |Blamed(n)|)
  }

  /** The calls of `Add` made for the first `n` notifications. */
  function AllAdds(ns: seq<Notification>, n: nat): seq<Op>
    requires n <= |ns|
  {
    if n == 0 then [] else AllAdds(ns, n - 1) + Adds(ns[n - 1])
  }

  lemma {:induction false} AddsForGrows(recipients: seq<string>, reason: string, n: nat, m: nat)
    requires n <= m <= |recipients|
    ensures AddsFor(recipients, reason, n) <= AddsFor(recipients, reason, m)
  {
    if n < m {
      AddsForGrows(recipients, reason, n, m - 1);
    }
  }

  lemma {:induction false} AddsForMembers(recipients: seq<string>, reason: string, n: nat, op: Op)
    requires n <= |recipients|
    ensures op in AddsFor(recipients, reason, n) <==>
            op.Add? && op.reason == reason && op.email != "" && op.email in recipients[..n]
  {
    if n > 0 {
      AddsForMembers(recipients, reason, n - 1, op);
      assert recipients[..n] == recipients[..n - 1] + [recipients[n - 1]];
    }
  }

  lemma {:induction false} AllAddsMembers(ns: seq<Notification>, n: nat, op: Op)
    requires n <= |ns|
    ensures op in AllAdds(ns, n) <==> exists i :: 0 <= i < n && op in Adds(ns[i])
  {
    hide Adds;
    if n > 0 {
      AllAddsMembers(ns, n - 1, op);
    }
  }

  // ----- The handler -------------------------------------------------------

  class BounceWebhookHandler {
    const suppression: SQLSuppressionList

    constructor (suppression: SQLSuppressionList)
      ensures this.suppression == suppression
    {
      this.suppression := suppression;
    }

    /** `clock[k]` and `up[k]` are the time and the database's availability at the k-th `Add`.
        A failed addition is skipped and the loop goes on to the next recipient. */
    method AddAll(recipients: seq<string>, reason: string, clock: seq<int>, up: seq<bool>)
      requires suppression.Valid()
      requires |clock| == |up| == |AddsFor(recipients, reason, |recipients|)|
      modifies suppression
      ensures suppression.Valid()
      ensures var adds := AddsFor(recipients, reason, |recipients|);
              View(suppression.rows) == MemoryAfter(old(View(suppression.rows)), adds, clock, up, |adds|)
    {
      hide Normalize, View, PrimaryKey, MemoryStep;
      ghost var before := View(suppression.rows);
      ghost var adds := AddsFor(recipients, reason, |recipients|);
      var k := 0;
      for i := 0 to |recipients|
        invariant suppression.Valid()
        invariant k == |AddsFor(recipients, reason, i)| <= |adds|
        invariant View(suppression.rows) == MemoryAfter(before, adds, clock, up, k)
      {
        AddsForGrows(recipients, reason, i + 1, |recipients|);
        if recipients[i] != "" {
          assert adds[k] == Op.Add(recipients[i], reason);
          var err := suppression.Add(recipients[i], reason, clock[k], up[k]);
          k := k + 1;
        }
      }
    }

    method HandleBounce(n: Notification, clock: seq<int>, up: seq<bool>)
      requires suppression.Valid() && n.notificationType == "Bounce" && |clock| == |up| == |Adds(n)|
      modifies suppression
      ensures suppression.Valid()
      ensures View(suppression.rows) == MemoryAfter(old(View(suppression.rows)), Adds(n), clock, up, |Adds(n)|)
    {
      if n.bounce.None? {
        return;
      }
      if !IsPermanent(n.bounce.value.bounceType) {
        return;
      }
      AddAll(n.bounce.value.bouncedRecipients, REASON_BOUNCE, clock, up);
    }

    method HandleComplaint(n: Notification, clock: seq<int>, up: seq<bool>)
      requires suppression.Valid() && n.notificationType == "Complaint" && |clock| == |up| == |Adds(n)|
      modifies suppression
      ensures suppression.Valid()
      ensures View(suppression.rows) == MemoryAfter(old(View(suppression.rows)), Adds(n), clock, up, |Adds(n)|)
    {
      if n.complaint.None? {
        return;
      }
      AddAll(n.complaint.value, REASON_COMPLAINT, clock, up);
    }

    method HandleNotification(n: Notification, clock: seq<int>, up: seq<bool>)
      requires suppression.Valid() && |clock| == |up| == |Adds(n)|
      modifies suppression
      ensures suppression.Valid()
      ensures View(suppression.rows) == MemoryAfter(old(View(suppression.rows)), Adds(n), clock, up, |Adds(n)|)
    {
      if n.notificationType == "Bounce" {
        HandleBounce(n, clock, up);
      } else if n.notificationType == "Complaint" {
        HandleComplaint(n, clock, up);
      }
    }
  }

  // ----- Order, duplication and failures -----------------------------------

  /** Additions alone: the keys are the old ones plus those of every executed, non-blank
      addition, in whatever order and however often each occurs. */
  lemma {:induction false} KeysAfterAdds(m: Entries, ops: seq<Op>, clock: seq<int>, up: seq<bool>, n: nat, key: string)
    requires n <= |ops| == |clock| == |up|
    requires forall op :: op in ops ==> op.Add?
    ensures key in MemoryAfter(m, ops, clock, up, n) <==>
            key in m || (key != "" && exists i :: 0 <= i < n && up[i] && Normalize(ops[i].email) == key)
  {
    if n > 0 {
      KeysAfterAdds(m, ops, clock, up, n - 1, key);
      assert ops[n - 1] in ops;
    }
  }

  lemma AddsAreAdditions(n: Notification)
    ensures forall op :: op in Adds(n) ==> op.Add?
  {}

  ghost predicate Names(n: Notification, key: string) {
    key != "" && exists r :: r in Blamed(n) && Normalize(r) == key
  }

  lemma NamesIffAdds(n: Notification, key: string)
    requires key != ""
    ensures Names(n, key) <==> exists op :: op in Adds(n) && op.Add? && Normalize(op.email) == key
  {
    forall op
      ensures op in Adds(n) <==> op.Add? && op.reason == ReasonFor(n) && op.email != "" && op.email in Blamed(n)
    {
      AddsForMembers(Blamed(n), ReasonFor(n), |Blamed(n)|, op);
      assert Blamed(n)[..|Blamed(n)|] == Blamed(n);
    }
    if Names(n, key) {
      var r :| r in Blamed(n) && Normalize(r) == key;
      assert Op.Add(r, ReasonFor(n)) in Adds(n);
    }
  }

  function AllUp(n: nat): seq<bool> {
    seq(n, _ => true)
  }

  /** The state after a sequence of notifications when every addition is executed. */
  function AfterAll(m: Entries, ns: seq<Notification>, clock: seq<int>): Entries
    requires |clock| == |AllAdds(ns, |ns|)|
  {
    MemoryAfter(m, AllAdds(ns, |ns|), clock, AllUp(|clock|), |clock|)
  }

  ghost predicate HasAddOf(ops: seq<Op>, key: string) {
    exists op :: op in ops && op.Add? && Normalize(op.email) == key
  }

  lemma {:induction false} AllAddsHaveAddOf(ns: seq<Notification>, n: nat, key: string)
    requires n <= |ns| && key != ""
    ensures HasAddOf(AllAdds(ns, n), key) <==> exists i :: 0 <= i < n && Names(ns[i], key)
    ensures forall op :: op in AllAdds(ns, n) ==> op.Add?
  {
    hide Names, Adds, Normalize;
    if n > 0 {
      AllAddsHaveAddOf(ns, n - 1, key);
      NamesIffAdds(ns[n - 1], key);
      assert forall op :: op in AllAdds(ns, n) <==> op in AllAdds(ns, n - 1) || op in Adds(ns[n - 1]);
      assert forall op :: op in Adds(ns[n - 1]) ==> op.Add? by {
        AddsAreAdditions(ns[n - 1]);
      }
    }
  }

  /** The suppressed keys are the initial ones plus those named by some notification. */
  lemma SuppressedKeys(m: Entries, ns: seq<Notification>, clock: seq<int>, key: string)
    requires |clock| == |AllAdds(ns, |ns|)|
    ensures key in AfterAll(m, ns, clock) <==> key in m || exists n :: n in ns && Names(n, key)
  {
    hide AllAdds, Normalize;
    var adds := AllAdds(ns, |ns|);
    if key != "" {
      AllAddsHaveAddOf(ns, |ns|, key);
      KeysAfterAdds(m, adds, clock, AllUp(|adds|), |adds|, key);
    } else {
      AllAddsHaveAddOf(ns, |ns|, "-");
      KeysAfterAdds(m, adds, clock, AllUp(|adds|), |adds|, key);
    }
  }

  /** Reordering, repeating or merging notifications leaves the suppressed keys unchanged. */
  lemma OrderAndDuplicatesDoNotMatter(m: Entries, ns: seq<Notification>, ns': seq<Notification>,
                                      clock: seq<int>, clock': seq<int>)
    requires |clock| == |AllAdds(ns, |ns|)| && |clock'| == |AllAdds(ns', |ns'|)|
    requires forall n :: n in ns <==> n in ns'
    ensures AfterAll(m, ns, clock).Keys == AfterAll(m, ns', clock').Keys
  {
    forall key
      ensures key in AfterAll(m, ns, clock) <==> key in AfterAll(m, ns', clock')
    {
      SuppressedKeys(m, ns, clock, key);
      SuppressedKeys(m, ns', clock', key);
    }
  }

  /** Which addresses count against their recipients: those of a permanent bounce, in any letter
      case, and of every complaint, when the payload is there. */
  lemma NamesSpelledOut(n: Notification, key: string)
    ensures Names(n, key) <==>
            && key != ""
            && ((n.notificationType == "Bounce" && n.bounce.Some?
                 && |n.bounce.value.bounceType| == 9
                 && (forall i :: 0 <= i < 9 ==>
                       n.bounce.value.bounceType[i] == "permanent"[i] || n.bounce.value.bounceType[i] == "PERMANENT"[i])
                 && exists r :: r in n.bounce.value.bouncedRecipients && Normalize(r) == key)
                || (n.notificationType == "Complaint" && n.complaint.Some?
                    && exists r :: r in n.complaint.value && Normalize(r) == key))
  {
    hide Normalize, IsPermanent;
    if n.bounce.Some? {
      PermanentSpelledOut(n.bounce.value.bounceType);
    }
    assert "Bounce"[0] != "Complaint"[0];
  }

  /** The additions a notification makes: its non-empty recipients, in order, with the reason
      "bounce" or "complaint". */
  lemma AddsSpelledOut(n: Notification, op: Op)
    ensures op in Adds(n) ==> op.Add? && op.email != "" && op.reason == if n.notificationType == "Bounce" then "bounce" else "complaint"
    ensures n.notificationType != "Bounce" && n.notificationType != "Complaint" ==> Adds(n) == []
  {
    AddsForMembers(Blamed(n), ReasonFor(n), |Blamed(n)|, op);
  }

  // ----- Reasons -----------------------------------------------------------

  lemma {:induction false} LastWordOfPrefix(a: seq<Op>, b: seq<Op>, n: nat, key: string)
    requires n <= |a|
    ensures LastWord(a + b, AllUp(|a + b|), n, key) == LastWord(a, AllUp(|a|), n, key)
  {
    if n > 0 {
      LastWordOfPrefix(a, b, n - 1, key);
    }
  }

  lemma {:induction false} LastWordOfConcat(a: seq<Op>, b: seq<Op>, n: nat, key: string)
    requires n <= |b|
    ensures LastWord(a + b, AllUp(|a + b|), |a| + n, key)
            == var last := LastWord(b, AllUp(|b|), n, key);
               if last.Untouched? then LastWord(a, AllUp(|a|), |a|, key) else last
  {
    if n > 0 {
      LastWordOfConcat(a, b, n - 1, key);
    } else {
      LastWordOfPrefix(a, b, |a|, key);
    }
  }

  lemma LastWordOfOneAdd(email: string, reason: string, key: string)
    ensures LastWord([Op.Add(email, reason)], AllUp(1), 1, key) == if Normalize(email) == key then Suppressed(reason) else Untouched
  {
    hide Normalize;
    assert LastWord([Op.Add(email, reason)], AllUp(1), 0, key) == Untouched;
  }

  /** Some spelling of the key is among the first `n` recipients. */
  ghost predicate Occurs(recipients: seq<string>, n: nat, key: string)
    requires n <= |recipients|
  {
    exists i :: 0 <= i < n && Normalize(recipients[i]) == key
  }

  lemma OccursStep(recipients: seq<string>, n: nat, key: string)
    requires 0 < n <= |recipients|
    ensures Occurs(recipients, n, key) <==> Occurs(recipients, n - 1, key) || Normalize(recipients[n - 1]) == key
  {
    hide Normalize;
  }

  lemma LastWordAfterOneMore(prior: seq<Op>, email: string, reason: string, key: string)
    ensures var adds := prior + [Op.Add(email, reason)];
            LastWord(adds, AllUp(|adds|), |adds|, key)
            == if Normalize(email) == key then Suppressed(reason) else LastWord(prior, AllUp(|prior|), |prior|, key)
  {
    hide Normalize, AllUp, LastWord;
    LastWordOfConcat(prior, [Op.Add(email, reason)], 1, key);
    LastWordOfOneAdd(email, reason, key);
  }

  lemma AddsForStep(recipients: seq<string>, reason: string, n: nat)
    requires 0 < n <= |recipients|
    ensures AddsFor(recipients, reason, n)
            == if recipients[n - 1] == "" then AddsFor(recipients, reason, n - 1)
               else AddsFor(recipients, reason, n - 1) + [Op.Add(recipients[n - 1], reason)]
  {}

  lemma LastWordOfNothing(recipients: seq<string>, reason: string, key: string)
    ensures var adds := AddsFor(recipients, reason, 0); LastWord(adds, AllUp(|adds|), |adds|, key) == Untouched
    ensures !Occurs(recipients, 0, key)
  {
    hide Normalize;
  }

  lemma {:induction false} LastWordOfAdds(recipients: seq<string>, reason: string, n: nat, key: string)
    requires n <= |recipients| && key != ""
    ensures var adds := AddsFor(recipients, reason, n);
            LastWord(adds, AllUp(|adds|), |adds|, key)
            == if Occurs(recipients, n, key) then Suppressed(reason) else Untouched
  {
    hide Normalize, AllUp, LastWord, Occurs, AddsFor;
    if n == 0 {
      LastWordOfNothing(recipients, reason, key);
    } else {
      LastWordOfAdds(recipients, reason, n - 1, key);
      BlankHasNoKey();
      OccursStep(recipients, n, key);
      AddsForStep(recipients, reason, n);
      if recipients[n - 1] != "" {
        LastWordAfterOneMore(AddsFor(recipients, reason, n - 1), recipients[n - 1], reason, key);
      }
    }
  }

  lemma BlankHasNoKey()
    ensures Normalize("") == ""
  {}

  lemma LastWordOfNotification(n: Notification, key: string)
    requires key != ""
    ensures LastWord(Adds(n), AllUp(|Adds(n)|), |Adds(n)|, key)
            == if Names(n, key) then Suppressed(ReasonFor(n)) else Untouched
  {
    hide Normalize;
    LastWordOfAdds(Blamed(n), ReasonFor(n), |Blamed(n)|, key);
    if i :| 0 <= i < |Blamed(n)| && Normalize(Blamed(n)[i]) == key {
      assert Blamed(n)[i] in Blamed(n);
    }
  }

  lemma {:induction false} LastWordOfAllAdds(ns: seq<Notification>, n: nat, j: nat, key: string)
    requires j < n <= |ns| && key != ""
    requires Names(ns[j], key) && forall i :: j < i < n ==> !Names(ns[i], key)
    ensures LastWord(AllAdds(ns, n), AllUp(|AllAdds(ns, n)|), |AllAdds(ns, n)|, key) == Suppressed(ReasonFor(ns[j]))
  {
    hide Normalize, Adds, Names, LastWord, ReasonFor;
    var last := ns[n - 1];
    LastWordOfNotification(last, key);
    LastWordOfConcat(AllAdds(ns, n - 1), Adds(last), |Adds(last)|, key);
    if j < n - 1 {
      LastWordOfAllAdds(ns, n - 1, j, key);
    }
  }

  /** The recorded reason of a key is that of the last notification naming it. */
  lemma ReasonIsThatOfLastNotification(m: Entries, ns: seq<Notification>, clock: seq<int>, j: nat, key: string)
    requires |clock| == |AllAdds(ns, |ns|)| && j < |ns|
    requires Names(ns[j], key) && forall i :: j < i < |ns| ==> !Names(ns[i], key)
    ensures var after := AfterAll(m, ns, clock);
            key in after && after[key].reason == if ns[j].notificationType == "Bounce" then "bounce" else "complaint"
  {
    hide Normalize, AllAdds;
    LastWordOfAllAdds(ns, |ns|, j, key);
    ListIsLastWord(m, AllAdds(ns, |ns|), clock, AllUp(|clock|), |clock|, key);
  }

  /** Failed additions stop nothing: whichever additions fail, the list afterwards holds exactly
      the keys it held before and those of every non-blank recipient whose own addition was
      executed. */
  lemma FailuresStopNothing(m: Entries, n: Notification, clock: seq<int>, up: seq<bool>, key: string)
    requires |clock| == |up| == |Adds(n)|
    ensures key in MemoryAfter(m, Adds(n), clock, up, |Adds(n)|) <==>
            || key in m
            || (key != "" && exists i :: 0 <= i < |up| && up[i] && Normalize(Adds(n)[i].email) == key)
  {
    hide Normalize;
    AddsAreAdditions(n);
    KeysAfterAdds(m, Adds(n), clock, up, |Adds(n)|, key);
  }

  // ----- One notification after another ------------------------------------

  lemma {:induction false} AfterPrefix(m: Entries, a: seq<Op>, b: seq<Op>, clock: seq<int>, up: seq<bool>, n: nat)
    requires n <= |a| && |clock| == |up| == |a| + |b|
    ensures MemoryAfter(m, a + b, clock, up, n) == MemoryAfter(m, a, clock[..|a|], up[..|a|], n)
  {
    hide MemoryStep;
    if n > 0 {
      AfterPrefix(m, a, b, clock, up, n - 1);
    }
  }

  lemma {:induction false} AfterConcat(m: Entries, a: seq<Op>, b: seq<Op>, clock: seq<int>, up: seq<bool>, n: nat)
    requires n <= |b| && |clock| == |up| == |a| + |b|
    ensures MemoryAfter(m, a + b, clock, up, |a| + n)
            == MemoryAfter(MemoryAfter(m, a, clock[..|a|], up[..|a|], |a|), b, clock[|a|..], up[|a|..], n)
  {
    hide MemoryStep;
    if n == 0 {
      AfterPrefix(m, a, b, clock, up, |a|);
    } else {
      AfterConcat(m, a, b, clock, up, n - 1);
    }
  }

  /** Handling one more notification, in the state left by the earlier ones, gives the state after
      all of them. */
  lemma AfterAllIsOneAfterAnother(m: Entries, ns: seq<Notification>, n: Notification, clock: seq<int>)
    requires |clock| == |AllAdds(ns, |ns|)| + |Adds(n)|
    ensures var k := |AllAdds(ns, |ns|)|;
            && |clock| == |AllAdds(ns + [n], |ns| + 1)|
            && AfterAll(m, ns + [n], clock)
               == MemoryAfter(AfterAll(m, ns, clock[..k]), Adds(n), clock[k..], AllUp(|Adds(n)|), |Adds(n)|)
  {
    hide Adds, MemoryAfter;
    AllAddsOfPrefix(ns, n, |ns|);
    var a, b := AllAdds(ns, |ns|), Adds(n);
    assert AllAdds(ns + [n], |ns| + 1) == a + b;
    AfterConcat(m, a, b, clock, AllUp(|clock|), |b|);
    assert AllUp(|clock|)[..|a|] == AllUp(|a|) && AllUp(|clock|)[|a|..] == AllUp(|b|);
  }

  lemma {:induction false} AllAddsOfPrefix(ns: seq<Notification>, n: Notification, i: nat)
    requires i <= |ns|
    ensures AllAdds(ns + [n], i) == AllAdds(ns, i)
  {
    hide Adds;
    if i > 0 {
      AllAddsOfPrefix(ns, n, i - 1);
    }
  }
}
