/** ASCII text helpers shared by the suppression list, the webhook and the send gate. */
module Text {

  predicate IsSpace(c: char) {
    c == ' ' || '\t' <= c <= '\r'
  }

  function LowerChar(c: char): char {
    if 'A' <= c <= 'Z' then c - 'A' + 'a' else c
  }

  function ToLower(s: string): string {
    seq(|s|, i requires 0 <= i < |s| => LowerChar(s[i]))
  }

  function TrimLeft(s: string): string {
    if s != [] && IsSpace(s[0]) then TrimLeft(s[1..]) else s
  }

  function TrimRight(s: string): string {
    if s != [] && IsSpace(s[|s| - 1]) then TrimRight(s[..|s| - 1]) else s
  }

  function TrimSpace(s: string): string {
    TrimRight(TrimLeft(s))
  }

  /** The key under which an address is stored and looked up. */
  function Normalize(email: string): string {
    ToLower(TrimSpace(email))
  }

  /** No space at either edge. */
  predicate Trimmed(s: string) {
    s == [] || (!IsSpace(s[0]) && !IsSpace(s[|s| - 1]))
  }

  predicate Blank(s: string) {
    forall i :: 0 <= i < |s| ==> IsSpace(s[i])
  }

  lemma {:induction false} TrimLeftDropsPadding(pad: string, s: string)
    requires Blank(pad)
    ensures TrimLeft(pad + s) == TrimLeft(s)
  {
    if pad == [] {
      assert pad + s == s;
    } else {
      assert (pad + s)[1..] == pad[1..] + s;
      TrimLeftDropsPadding(pad[1..], s);
    }
  }

  lemma {:induction false} TrimRightDropsPadding(s: string, pad: string)
    requires Blank(pad)
    ensures TrimRight(s + pad) == TrimRight(s)
  {
    if pad == [] {
      assert s + pad == s;
    } else {
      assert (s + pad)[..|s + pad| - 1] == s + pad[..|pad| - 1];
      TrimRightDropsPadding(s, pad[..|pad| - 1]);
    }
  }

  /** Trimming is exactly the removal of a blank prefix and a blank suffix. */
  lemma {:induction false} TrimLeftShape(s: string) returns (pad: string)
    ensures Blank(pad) && s == pad + TrimLeft(s)
    ensures TrimLeft(s) == [] || !IsSpace(TrimLeft(s)[0])
  {
    hide IsSpace;
    if s != [] && IsSpace(s[0]) {
      pad := TrimLeftShape(s[1..]);
      assert s == [s[0]] + s[1..];
      pad := [s[0]] + pad;
    } else {
      pad := [];
    }
  }

  lemma {:induction false} TrimRightShape(s: string) returns (pad: string)
    ensures Blank(pad) && s == TrimRight(s) + pad
    ensures TrimRight(s) == [] || !IsSpace(TrimRight(s)[|TrimRight(s)| - 1])
  {
    hide IsSpace;
    if s != [] && IsSpace(s[|s| - 1]) {
      pad := TrimRightShape(s[..|s| - 1]);
      assert s == s[..|s| - 1] + [s[|s| - 1]];
      pad := pad + [s[|s| - 1]];
    } else {
      pad := [];
    }
  }

  /** The key is the one lower-cased, edge-trimmed core of the address: any way of writing
      the address as padding around a trimmed core gives the same key. */
  lemma NormalizeOfPadded(before: string, core: string, after: string)
    requires Blank(before) && Blank(after) && Trimmed(core)
    ensures Normalize(before + core + after) == ToLower(core)
  {
    assert before + core + after == before + (core + after);
    TrimLeftDropsPadding(before, core + after);
    if core == [] {
      assert core + after == after + [];
      TrimLeftDropsPadding(after, []);
    } else {
      TrimRightDropsPadding(core, after);
    }
  }

  lemma NormalizeShape(email: string) returns (before: string, core: string, after: string)
    ensures Blank(before) && Blank(after) && Trimmed(core)
    ensures email == before + core + after && Normalize(email) == ToLower(core)
  {
    before := TrimLeftShape(email);
    after := TrimRightShape(TrimLeft(email));
    core := TrimSpace(email);
    assert core != [] ==> core[0] == TrimLeft(email)[0];
  }

  lemma LowerOfLower(s: string)
    ensures ToLower(ToLower(s)) == ToLower(s)
    ensures Trimmed(ToLower(s)) <==> Trimmed(s)
    ensures Blank(ToLower(s)) <==> Blank(s)
  {
    var low := ToLower(s);
    assert forall i :: 0 <= i < |s| ==> (IsSpace(low[i]) <==> IsSpace(s[i]));
  }

  /** Every key is its own key. */
  lemma NormalizeIsIdempotent(email: string)
    ensures Normalize(Normalize(email)) == Normalize(email)
  {
    var _, core, _ := NormalizeShape(email);
    LowerOfLower(core);
    hide Normalize, ToLower, Trimmed;
    var key := ToLower(core);
    NormalizeOfPadded([], key, []);
    assert [] + key + [] == key;
  }

  /** A text with the lower case of `bl + core + br` splits into parts with the lower case of each. */
  lemma SplitAlike(a: string, bl: string, core: string, br: string) returns (la: string, mid: string, ra: string)
    requires ToLower(a) == ToLower(bl + core + br)
    ensures a == la + mid + ra && ToLower(la) == ToLower(bl) && ToLower(mid) == ToLower(core) && ToLower(ra) == ToLower(br)
  {
    var b, i, j := bl + core + br, |bl|, |bl| + |core|;
    assert |a| == |ToLower(a)| == |ToLower(b)| == |b|;
    hide ToLower;
    la, mid, ra := a[..i], a[i..j], a[j..];
    LowerOfSlice(a, b, 0, i);
    LowerOfSlice(a, b, i, j);
    LowerOfSlice(a, b, j, |b|);
    assert b[0..i] == bl && b[i..j] == core && b[j..|b|] == br;
    assert a[0..i] == la && a[j..|b|] == ra;
  }

  lemma Reassociate(before: string, la: string, mid: string, ra: string, after: string)
    ensures before + (la + mid + ra) + after == (before + la) + mid + (ra + after)
  {}

  /** Two spellings that differ only in case and in surrounding space share their key. */
  lemma VariantsShareKey(before: string, a: string, after: string, b: string)
    requires Blank(before) && Blank(after) && ToLower(a) == ToLower(b)
    ensures Normalize(before + a + after) == Normalize(b)
  {
    hide Normalize, ToLower, Blank, Trimmed;
    var bl, core, br := NormalizeShape(b);
    var la, mid, ra := SplitAlike(a, bl, core, br);
    SameShape(la, bl);
    SameShape(mid, core);
    SameShape(ra, br);
    BlankConcat(before, la);
    BlankConcat(ra, after);
    Reassociate(before, la, mid, ra, after);
    NormalizeOfPadded(before + la, mid, ra + after);
  }

  lemma BlankConcat(a: string, b: string)
    requires Blank(a) && Blank(b)
    ensures Blank(a + b)
  {}

  lemma SameShape(a: string, b: string)
    requires ToLower(a) == ToLower(b)
    ensures Blank(a) <==> Blank(b)
    ensures Trimmed(a) <==> Trimmed(b)
  {
    LowerOfLower(a);
    LowerOfLower(b);
  }

  lemma LowerOfSlice(a: string, b: string, i: nat, j: nat)
    requires ToLower(a) == ToLower(b) && i <= j <= |a| == |b|
    ensures ToLower(a[i..j]) == ToLower(b[i..j])
  {
    assert ToLower(a)[i..j] == ToLower(a[i..j]) && ToLower(b)[i..j] == ToLower(b[i..j]);
  }

  /** Position of the last `c` in `s`, or -1. */
  function LastIndex(s: string, c: char): (at: int)
    ensures -1 <= at < |s|
    ensures at >= 0 ==> s[at] == c
    ensures forall i :: at < i < |s| ==> s[i] != c
  {
    if s == [] then -1
    else if s[|s| - 1] == c then |s| - 1
    else LastIndex(s[..|s| - 1], c)
  }

  /** The lower-cased domain of an address, or "" when it has none. */
  function SenderDomain(email: string): string {
    var at := LastIndex(email, '@');
    if at < 0 || at == |email| - 1 then "" else ToLower(email[at + 1..])
  }

  /** The domain is what follows the last `@`, whatever comes before it, in lower case. */
  lemma SenderDomainOf(local: string, domain: string)
    requires '@' !in domain
    ensures SenderDomain(local + "@" + domain) == ToLower(domain)
    ensures SenderDomain(domain) == ""
  {
    var email := local + "@" + domain;
    var at := LastIndex(email, '@');
    assert email[|local|] == '@';
    assert forall i :: |local| < i < |email| ==> email[i] == domain[i - |local| - 1];
    assert at == |local|;
    assert email[at + 1..] == domain;
  }

  /** `strings.EqualFold` against the word "Permanent", none of whose letters has a
      non-ASCII case variant. */
  predicate IsPermanent(bounceType: string) {
    ToLower(bounceType) == "permanent"
  }

  // ----- Letter by letter --------------------------------------------------

  lemma SpaceSpelledOut(c: char)
    ensures IsSpace(c) <==> c in {' ', '\t', '\n', '\r', '\U{000B}', '\U{000C}'}
  {}

  lemma LowerSpelledOut(c: char)
    ensures LowerChar(c) as int == if 'A' <= c <= 'Z' then c as int + 32 else c as int
  {}

  lemma LowerCharIff(c: char, d: char)
    ensures LowerChar(c) == LowerChar(d) <==>
            || c == d
            || ('A' <= c <= 'Z' && d as int == c as int + 32)
            || ('A' <= d <= 'Z' && c as int == d as int + 32)
  {}

  /** Two texts have the same lower case if and only if they are equally long and have, at every
      position, the same character or the small and the capital form of one letter. */
  lemma ToLowerIff(a: string, b: string)
    ensures ToLower(a) == ToLower(b) <==>
            && |a| == |b|
            && forall i :: 0 <= i < |a| ==>
                 || a[i] == b[i]
                 || ('A' <= a[i] <= 'Z' && b[i] as int == a[i] as int + 32)
                 || ('A' <= b[i] <= 'Z' && a[i] as int == b[i] as int + 32)
  {
    hide LowerChar;
    assert |ToLower(a)| == |a| && |ToLower(b)| == |b|;
    if |a| == |b| {
      forall i | 0 <= i < |a|
        ensures ToLower(a)[i] == ToLower(b)[i] <==>
                || a[i] == b[i]
                || ('A' <= a[i] <= 'Z' && b[i] as int == a[i] as int + 32)
                || ('A' <= b[i] <= 'Z' && a[i] as int == b[i] as int + 32)
      {
        LowerCharIff(a[i], b[i]);
      }
    }
  }

  /** The key is the stretch of the address from its first to its last character that is no space,
      letter by letter, with capitals made small. */
  lemma KeySpelledOut(email: string) returns (i: nat, j: nat)
    ensures i <= j <= |email| && |Normalize(email)| == j - i
    ensures forall p :: 0 <= p < i || j <= p < |email| ==> email[p] in {' ', '\t', '\n', '\r', '\U{000B}', '\U{000C}'}
    ensures i < j ==> email[i] !in {' ', '\t', '\n', '\r', '\U{000B}', '\U{000C}'}
    ensures i < j ==> email[j - 1] !in {' ', '\t', '\n', '\r', '\U{000B}', '\U{000C}'}
    ensures forall p :: 0 <= p < j - i ==>
              Normalize(email)[p] as int == if 'A' <= email[i + p] <= 'Z' then email[i + p] as int + 32 else email[i + p] as int
  {
    var before, core, after := NormalizeShape(email);
    i, j := |before|, |before| + |core|;
    hide Normalize, IsSpace, LowerChar;
    forall p | 0 <= p < |email|
      ensures IsSpace(email[p]) <==> email[p] in {' ', '\t', '\n', '\r', '\U{000B}', '\U{000C}'}
      ensures LowerChar(email[p]) as int == if 'A' <= email[p] <= 'Z' then email[p] as int + 32 else email[p] as int
    {
      SpaceSpelledOut(email[p]);
      LowerSpelledOut(email[p]);
    }
    assert forall p :: 0 <= p < |core| ==> email[i + p] == core[p];
    assert forall p :: 0 <= p < |before| ==> email[p] == before[p];
    assert forall p :: j <= p < |email| ==> email[p] == after[p - j];
  }

  /** A key holds no capital and neither begins nor ends with a space. */
  lemma KeysAreCanonical(email: string)
    ensures forall c :: c in Normalize(email) ==> !('A' <= c <= 'Z')
    ensures Normalize(email) != "" ==>
              var key := Normalize(email);
              && key[0] !in {' ', '\t', '\n', '\r', '\U{000B}', '\U{000C}'}
              && key[|key| - 1] !in {' ', '\t', '\n', '\r', '\U{000B}', '\U{000C}'}
  {
    hide Normalize;
    var i, j := KeySpelledOut(email);
    forall p | 0 <= p < |Normalize(email)|
      ensures !('A' <= Normalize(email)[p] <= 'Z')
      ensures Normalize(email)[p] in {' ', '\t', '\n', '\r', '\U{000B}', '\U{000C}'} ==>
                email[i + p] in {' ', '\t', '\n', '\r', '\U{000B}', '\U{000C}'}
    {
      assert Normalize(email)[p] as int == if 'A' <= email[i + p] <= 'Z' then email[i + p] as int + 32 else email[i + p] as int;
    }
  }

  /** A space in front or behind changes no key. */
  lemma SpacesDoNotMatter(email: string, c: char)
    requires c in {' ', '\t', '\n', '\r', '\U{000B}', '\U{000C}'}
    ensures Normalize([c] + email) == Normalize(email) == Normalize(email + [c])
  {
    SpaceSpelledOut(c);
    assert Blank([c]) && Blank([]);
    assert [c] + email + [] == [c] + email && [] + email + [c] == email + [c];
    VariantsShareKey([c], email, [], email);
    VariantsShareKey([], email, [c], email);
  }

  /** Addresses that agree letter by letter but for case share their key. */
  lemma CaseDoesNotMatter(a: string, b: string)
    requires |a| == |b|
    requires forall i :: 0 <= i < |a| ==>
               || a[i] == b[i]
               || ('A' <= a[i] <= 'Z' && b[i] as int == a[i] as int + 32)
               || ('A' <= b[i] <= 'Z' && a[i] as int == b[i] as int + 32)
    ensures Normalize(a) == Normalize(b)
  {
    ToLowerIff(a, b);
    assert Blank([]);
    assert [] + a + [] == a;
    hide Normalize;
    VariantsShareKey([], a, [], b);
  }

  /** And nothing else does: two addresses share their key only if, from their first to their last
      character that is no space, they agree letter by letter but for case. */
  lemma NothingElseSharesKeys(a: string, b: string) returns (i: nat, j: nat, k: nat, l: nat)
    requires Normalize(a) == Normalize(b)
    ensures i <= j <= |a| && k <= l <= |b| && j - i == l - k
    ensures forall p :: 0 <= p < i || j <= p < |a| ==> a[p] in {' ', '\t', '\n', '\r', '\U{000B}', '\U{000C}'}
    ensures forall p :: 0 <= p < k || l <= p < |b| ==> b[p] in {' ', '\t', '\n', '\r', '\U{000B}', '\U{000C}'}
    ensures var x, y := a[i..j], b[k..l];
            forall p :: 0 <= p < |x| ==>
              || x[p] == y[p]
              || ('A' <= x[p] <= 'Z' && y[p] as int == x[p] as int + 32)
              || ('A' <= y[p] <= 'Z' && x[p] as int == y[p] as int + 32)
  {
    hide Normalize;
    i, j := KeySpelledOut(a);
    k, l := KeySpelledOut(b);
    var x, y := a[i..j], b[k..l];
    forall p | 0 <= p < |x|
      ensures || x[p] == y[p]
              || ('A' <= x[p] <= 'Z' && y[p] as int == x[p] as int + 32)
              || ('A' <= y[p] <= 'Z' && x[p] as int == y[p] as int + 32)
    {
      assert Normalize(a)[p] == Normalize(b)[p];
    }
  }

  /** The sender's domain, letter by letter: what follows the last `@`, with capitals made small;
      empty without an `@`. */
  lemma SenderDomainSpelledOut(email: string)
    ensures '@' !in email ==> SenderDomain(email) == ""
    ensures forall at :: 0 <= at < |email| && email[at] == '@' && '@' !in email[at + 1..] ==>
              && |SenderDomain(email)| == |email| - at - 1
              && forall p :: 0 <= p < |email| - at - 1 ==>
                   var c := email[at + 1 + p];
                   SenderDomain(email)[p] as int == if 'A' <= c <= 'Z' then c as int + 32 else c as int
  {
    forall at | 0 <= at < |email| && email[at] == '@' && '@' !in email[at + 1..]
      ensures LastIndex(email, '@') == at
    {
      assert forall i :: at < i < |email| ==> email[i] == email[at + 1..][i - at - 1];
    }
    hide LowerChar;
    forall p | 0 <= p < |email|
      ensures LowerChar(email[p]) as int == if 'A' <= email[p] <= 'Z' then email[p] as int + 32 else email[p] as int
    {
      LowerSpelledOut(email[p]);
    }
  }

  /** "permanent" in any mix of case, and nothing else. */
  lemma PermanentSpelledOut(s: string)
    ensures IsPermanent(s) <==> |s| == 9 && forall i :: 0 <= i < 9 ==> s[i] == "permanent"[i] || s[i] == "PERMANENT"[i]
    ensures IsPermanent("Permanent") && IsPermanent("PERMANENT") && !IsPermanent("Transient") && !IsPermanent("Undetermined")
  {
    PermanentIff(s);
    PermanentIff("Permanent");
    PermanentIff("PERMANENT");
    PermanentIff("Transient");
    PermanentIff("Undetermined");
    hide IsPermanent;
    assert "Transient"[0] == 'T';
  }

  lemma PermanentIff(s: string)
    ensures IsPermanent(s) <==> |s| == 9 && forall i :: 0 <= i < 9 ==> s[i] == "permanent"[i] || s[i] == "PERMANENT"[i]
  {
    var small := "permanent";
    assert ToLower(small) == small;
    ToLowerIff(s, small);
    hide ToLower;
    assert forall i :: 0 <= i < 9 ==> "PERMANENT"[i] as int + 32 == small[i] as int;
  }
}
