// Finding, masking and replacing phone numbers in any text.
module PhoneMask {

  // The engine's \d: the decimal digits of every script, of which this module
  // needs to know only what is and is not among them.
  type Digits = set<char>

  ghost predicate DigitClass(d: Digits) {
    && (forall c :: LeadDigit(c) ==> c in d)
    && (forall c :: Separator(c) ==> c !in d)
    && '+' !in d && 't' !in d && DOT !in d
  }

  const DOT: char := '\U{2022}'
  const MIN_GROUPS := 6
  const MAX_GROUPS := 14

  predicate Separator(c: char) {
    c == ' ' || c == '.' || c == '-'
  }

  predicate LeadDigit(c: char) {
    '1' <= c <= '9'
  }

  // ---------------------------------------------------------------- what a phone number is

  // s is exactly k digits, each with at most one separator before it.
  predicate Groups(s: string, k: nat, d: Digits)
    decreases k
  {
    if k == 0 then s == ""
    else
      || (|s| >= 1 && s[0] in d && Groups(s[1..], k - 1, d))
      || (|s| >= 2 && Separator(s[0]) && s[1] in d && Groups(s[2..], k - 1, d))
  }

  predicate Lead(s: string) {
    |s| >= 2 && s[0] == '+' && LeadDigit(s[1])
  }

  predicate IsPhone(s: string, d: Digits) {
    Lead(s) && exists k :: MIN_GROUPS <= k <= MAX_GROUPS && Groups(s[2..], k, d)
  }

  ghost predicate HasPhone(s: string, d: Digits) {
    exists i, j :: 0 <= i <= j <= |s| && IsPhone(s[i..j], d)
  }

  // ---------------------------------------------------------------- matching from the left

  // Length of the group s begins with, 0 if none.
  function GroupLength(s: string, d: Digits): nat {
    if |s| >= 1 && s[0] in d then 1
    else if |s| >= 2 && Separator(s[0]) && s[1] in d then 2
    else 0
  }

  // How many groups s begins with, up to a limit, and how long they are.
  function Count(s: string, limit: nat, d: Digits): (n: nat)
    ensures n <= limit
    decreases limit
  {
    if limit == 0 || GroupLength(s, d) == 0 then 0 else 1 + Count(s[GroupLength(s, d)..], limit - 1, d)
  }

  function Length(s: string, limit: nat, d: Digits): (n: nat)
    ensures n <= |s|
    decreases limit
  {
    if limit == 0 || GroupLength(s, d) == 0 then 0
    else GroupLength(s, d) + Length(s[GroupLength(s, d)..], limit - 1, d)
  }

  // Length of the number s begins with, 0 if none: the greedy match.
  function Match(s: string, d: Digits): (n: nat)
    ensures n <= |s|
  {
    if Lead(s) && Count(s[2..], MAX_GROUPS, d) >= MIN_GROUPS then 2 + Length(s[2..], MAX_GROUPS, d) else 0
  }

  lemma {:induction false} CountedGroups(s: string, limit: nat, d: Digits)
    ensures Groups(s[..Length(s, limit, d)], Count(s, limit, d), d)
    decreases limit
  {
    if limit > 0 && GroupLength(s, d) != 0 {
      var g := GroupLength(s, d);
      CountedGroups(s[g..], limit - 1, d);
      assert s[..Length(s, limit, d)][g..] == s[g..][..Length(s[g..], limit - 1, d)];
    }
  }

  lemma GroupFront(s: string, u: string, k: nat, d: Digits)
    requires DigitClass(d) && Groups(s, k, d) && k > 0
    ensures var g := GroupLength(s, d);
      g > 0 && GroupLength(s + u, d) == g && (s + u)[g..] == s[g..] + u && Groups(s[g..], k - 1, d)
  {
  }

  lemma CountOne(s: string, limit: nat, d: Digits, g: nat)
    requires limit > 0 && g == GroupLength(s, d) > 0
    ensures Count(s, limit, d) == 1 + Count(s[g..], limit - 1, d)
    ensures Length(s, limit, d) == g + Length(s[g..], limit - 1, d)
  {
  }

  // Any groups at the front are counted.
  lemma {:induction false} GroupsAreCounted(s: string, u: string, k: nat, limit: nat, d: Digits)
    requires DigitClass(d) && Groups(s, k, d) && k <= limit
    ensures Count(s + u, limit, d) >= k && Length(s + u, limit, d) >= |s|
    decreases k
  {
    if k > 0 {
      var g := GroupLength(s, d);
      GroupFront(s, u, k, d);
      GroupsAreCounted(s[g..], u, k - 1, limit - 1, d);
      CountOne(s + u, limit, d, g);
    }
  }

  lemma DropTake(s: string, n: nat)
    requires 2 <= n <= |s|
    ensures s[..n][2..] == s[2..][..n - 2]
  {
  }

  lemma PhoneFrom(m: string, tail: string, k: nat, d: Digits)
    requires Lead(m) && tail == m[2..] && MIN_GROUPS <= k <= MAX_GROUPS && Groups(tail, k, d)
    ensures IsPhone(m, d)
  {
  }

  lemma MatchIsPhone(s: string, d: Digits)
    requires Match(s, d) > 0
    ensures IsPhone(s[..Match(s, d)], d)
  {
    var n := Match(s, d);
    CountedGroups(s[2..], MAX_GROUPS, d);
    DropTake(s, n);
    PhoneFrom(s[..n], s[2..][..n - 2], Count(s[2..], MAX_GROUPS, d), d);
  }

  // The greedy match is the longest number there.
  lemma MatchIsLongest(s: string, d: Digits, n: nat)
    requires DigitClass(d) && n <= |s| && IsPhone(s[..n], d)
    ensures 0 < n <= Match(s, d)
  {
    var m := s[..n];
    var k :| MIN_GROUPS <= k <= MAX_GROUPS && Groups(m[2..], k, d);
    assert s[2..] == m[2..] + s[n..];
    GroupsAreCounted(m[2..], s[n..], k, MAX_GROUPS, d);
  }

  ghost predicate NoMatch(s: string, d: Digits) {
    forall p :: 0 <= p <= |s| ==> Match(s[p..], d) == 0
  }

  lemma PhoneIsMatched(s: string, d: Digits, i: nat, j: nat)
    requires DigitClass(d) && i <= j <= |s| && IsPhone(s[i..j], d)
    ensures Match(s[i..], d) > 0
  {
    assert s[i..][..j - i] == s[i..j];
    MatchIsLongest(s[i..], d, j - i);
  }

  lemma PhoneInside(s: string, d: Digits, p: nat, n: nat)
    requires p + n <= |s| && IsPhone(s[p..][..n], d)
    ensures HasPhone(s, d)
  {
    assert s[p..][..n] == s[p..p + n];
  }

  lemma MatchedIsPhone(s: string, d: Digits, p: nat)
    requires p <= |s| && Match(s[p..], d) > 0
    ensures HasPhone(s, d)
  {
    MatchIsPhone(s[p..], d);
    PhoneInside(s, d, p, Match(s[p..], d));
  }

  // A text holds a number exactly when the scan would find one.
  lemma ScanFinds(s: string, d: Digits)
    requires DigitClass(d)
    ensures HasPhone(s, d) <==> !NoMatch(s, d)
  {
    if HasPhone(s, d) {
      var i, j :| 0 <= i <= j <= |s| && IsPhone(s[i..j], d);
      PhoneIsMatched(s, d, i, j);
    }
    if !NoMatch(s, d) {
      var p :| 0 <= p <= |s| && Match(s[p..], d) != 0;
      MatchedIsPhone(s, d, p);
    }
  }

  // ---------------------------------------------------------------- substitution

  // Scan from the left, replace each greedy match, go on behind it.
  function Substitute(s: string, f: string -> string, d: Digits): string
    decreases |s|
  {
    if s == "" then ""
    else
      var n := Match(s, d);
      if n > 0 then f(s[..n]) + Substitute(s[n..], f, d) else [s[0]] + Substitute(s[1..], f, d)
  }

  // A replacement that starts neither a digit nor a separator, and in which no
  // number starts, whatever follows it.
  ghost predicate Inert(r: string, d: Digits) {
    && r != "" && r[0] !in d && !Separator(r[0])
    && forall u: string, p :: 0 <= p < |r| ==> Match((r + u)[p..], d) == 0
  }

  ghost predicate AlwaysInert(f: string -> string, d: Digits) {
    forall m :: IsPhone(m, d) ==> Inert(f(m), d)
  }

  // What the result begins with: the same character, or a replacement for a plus sign.
  lemma SubstitutedHead(s: string, f: string -> string, d: Digits)
    requires DigitClass(d) && AlwaysInert(f, d) && s != ""
    ensures var r := Substitute(s, f, d); r != "" && (s[0] == r[0] || (s[0] == '+' && r[0] !in d && !Separator(r[0])))
    ensures s[0] != '+' ==> Substitute(s, f, d) == [s[0]] + Substitute(s[1..], f, d)
  {
    if Match(s, d) > 0 {
      MatchIsPhone(s, d);
      assert Inert(f(s[..Match(s, d)]), d);
    }
  }

  lemma GroupSubstituted(s: string, f: string -> string, d: Digits)
    requires DigitClass(d) && AlwaysInert(f, d)
    ensures GroupLength(Substitute(s, f, d), d) == GroupLength(s, d)
    ensures var g := GroupLength(s, d); g > 0 ==> Substitute(s, f, d)[g..] == Substitute(s[g..], f, d)
  {
    if s != "" {
      SubstitutedHead(s, f, d);
      if |s| >= 2 {
        SubstitutedHead(s[1..], f, d);
        assert s[1..][1..] == s[2..];
      }
    }
  }

  lemma SameCount(a: string, b: string, limit: nat, d: Digits, g: nat)
    requires limit > 0 && GroupLength(a, d) == GroupLength(b, d) == g
    requires g > 0 ==> Count(a[g..], limit - 1, d) == Count(b[g..], limit - 1, d)
    ensures Count(a, limit, d) == Count(b, limit, d)
  {
  }

  // Replacing numbers further on changes nothing about the digits up front.
  lemma {:induction false} CountSubstituted(s: string, limit: nat, f: string -> string, d: Digits)
    requires DigitClass(d) && AlwaysInert(f, d)
    ensures Count(Substitute(s, f, d), limit, d) == Count(s, limit, d)
    decreases limit
  {
    if limit > 0 {
      GroupSubstituted(s, f, d);
      var g := GroupLength(s, d);
      if g > 0 {
        CountSubstituted(s[g..], limit - 1, f, d);
      }
      SameCount(Substitute(s, f, d), s, limit, d, g);
    }
  }

  lemma LiteralStep(s: string, f: string -> string, d: Digits)
    requires s != "" && Match(s, d) == 0
    ensures Substitute(s, f, d) == [s[0]] + Substitute(s[1..], f, d)
  {
  }

  // Behind a literal plus sign, a leading digit is the one that was there.
  lemma DigitSubstituted(t: string, f: string -> string, d: Digits)
    requires DigitClass(d) && AlwaysInert(f, d) && Substitute(t, f, d) != "" && LeadDigit(Substitute(t, f, d)[0])
    ensures t != "" && t[0] == Substitute(t, f, d)[0] && Substitute(t, f, d) == [t[0]] + Substitute(t[1..], f, d)
  {
    SubstitutedHead(t, f, d);
  }

  lemma LeadSplit(c: char, t: string)
    ensures Lead([c] + t) <==> c == '+' && t != "" && LeadDigit(t[0])
    ensures t != "" ==> ([c] + t)[2..] == t[1..]
  {
  }

  lemma LeadSubstituted(s: string, f: string -> string, d: Digits)
    requires DigitClass(d) && AlwaysInert(f, d) && s != "" && Match(s, d) == 0 && Lead(Substitute(s, f, d))
    ensures Lead(s) && Substitute(s, f, d)[2..] == Substitute(s[2..], f, d)
  {
    var t := Substitute(s[1..], f, d);
    LiteralStep(s, f, d);
    LeadSplit(s[0], t);
    DigitSubstituted(s[1..], f, d);
    LeadSplit(s[0], s[1..]);
    assert s == [s[0]] + s[1..];
    assert s[1..][1..] == s[2..];
  }

  lemma SameMatch(a: string, b: string, d: Digits)
    requires Match(b, d) == 0 && (Lead(a) ==> Lead(b) && Count(a[2..], MAX_GROUPS, d) == Count(b[2..], MAX_GROUPS, d))
    ensures Match(a, d) == 0
  {
  }

  // A plus sign that failed to match still fails.
  lemma FailedStaysFailed(s: string, f: string -> string, d: Digits)
    requires DigitClass(d) && AlwaysInert(f, d) && s != "" && Match(s, d) == 0
    ensures Match(Substitute(s, f, d), d) == 0
  {
    if Lead(Substitute(s, f, d)) {
      LeadSubstituted(s, f, d);
      CountSubstituted(s[2..], MAX_GROUPS, f, d);
    }
    SameMatch(Substitute(s, f, d), s, d);
  }

  lemma BehindJoin(m: string, rest: string, p: nat)
    requires |m| <= p <= |m + rest|
    ensures (m + rest)[p..] == rest[p - |m|..]
  {
  }

  lemma InertAt(m: string, rest: string, d: Digits, p: nat)
    requires Inert(m, d) && NoMatch(rest, d) && p <= |m + rest|
    ensures Match((m + rest)[p..], d) == 0
  {
    if p >= |m| {
      BehindJoin(m, rest, p);
    }
  }

  lemma InertJoin(m: string, rest: string, d: Digits)
    requires Inert(m, d) && NoMatch(rest, d)
    ensures NoMatch(m + rest, d)
  {
    forall p | 0 <= p <= |m + rest|
      ensures Match((m + rest)[p..], d) == 0
    {
      InertAt(m, rest, d, p);
    }
  }

  lemma LiteralJoin(c: char, rest: string, d: Digits)
    requires Match([c] + rest, d) == 0 && NoMatch(rest, d)
    ensures NoMatch([c] + rest, d)
  {
    forall p | 0 <= p <= |[c] + rest|
      ensures Match(([c] + rest)[p..], d) == 0
    {
      if p == 0 {
        assert ([c] + rest)[0..] == [c] + rest;
      } else {
        BehindJoin([c], rest, p);
      }
    }
  }

  // No number survives, whatever the text.
  lemma {:induction false} NothingSurvives(s: string, f: string -> string, d: Digits)
    requires DigitClass(d) && AlwaysInert(f, d)
    ensures NoMatch(Substitute(s, f, d), d)
    decreases |s|
  {
    if s != "" {
      var n := Match(s, d);
      if n > 0 {
        MatchIsPhone(s, d);
        NothingSurvives(s[n..], f, d);
        InertJoin(f(s[..n]), Substitute(s[n..], f, d), d);
      } else {
        NothingSurvives(s[1..], f, d);
        FailedStaysFailed(s, f, d);
        LiteralJoin(s[0], Substitute(s[1..], f, d), d);
      }
    }
  }

  // Text without a number is left alone.
  lemma {:induction false} NothingToReplace(s: string, f: string -> string, d: Digits)
    requires NoMatch(s, d)
    ensures Substitute(s, f, d) == s
    decreases |s|
  {
    if s != "" {
      assert s[0..] == s;
      forall p | 0 <= p <= |s[1..]|
        ensures Match(s[1..][p..], d) == 0
      {
        assert s[1..][p..] == s[p + 1..];
      }
      NothingToReplace(s[1..], f, d);
    }
  }

  // ---------------------------------------------------------------- masking

  function DigitsOf(s: string, d: Digits): string {
    if s == "" then "" else (if s[0] in d then [s[0]] else "") + DigitsOf(s[1..], d)
  }

  function CountryCodeLength(digits: string): nat
    requires digits != ""
  {
    if digits[0] == '1' || digits[0] == '7' then 1 else 2
  }

  const MASK_DOTS := [DOT, DOT, DOT, DOT, DOT, ' ', DOT, DOT]

  // Country code, dots, last three digits. Only numbers are ever masked; the
  // first branch merely makes the function total.
  function MaskPhone(m: string, d: Digits): string {
    var digits := DigitsOf(m, d);
    if |digits| < 3 then "+" + digits + " " + MASK_DOTS
    else "+" + digits[..CountryCodeLength(digits)] + " " + MASK_DOTS + digits[|digits| - 3..]
  }

  lemma {:induction false} DigitsOfGroups(s: string, k: nat, d: Digits)
    requires DigitClass(d) && Groups(s, k, d)
    ensures |DigitsOf(s, d)| == k
    decreases k
  {
    if k > 0 {
      if s[0] in d {
        DigitsOfGroups(s[1..], k - 1, d);
      } else {
        DigitsOfGroups(s[2..], k - 1, d);
        assert s[1..][1..] == s[2..];
      }
    }
  }

  lemma {:induction false} DigitsOfAll(s: string, d: Digits)
    ensures forall i :: 0 <= i < |DigitsOf(s, d)| ==> DigitsOf(s, d)[i] in d
  {
    if s != "" {
      DigitsOfAll(s[1..], d);
    }
  }

  // The digits of a number: at least seven, the first of them 1 to 9.
  lemma PhoneDigits(m: string, d: Digits)
    requires DigitClass(d) && IsPhone(m, d)
    ensures var digits := DigitsOf(m, d);
      && MIN_GROUPS < |digits| <= MAX_GROUPS + 1 && digits[0] == m[1] && LeadDigit(digits[0])
      && forall i :: 0 <= i < |digits| ==> digits[i] in d
  {
    var k :| MIN_GROUPS <= k <= MAX_GROUPS && Groups(m[2..], k, d);
    DigitsOfGroups(m[2..], k, d);
    DigitsOfAll(m, d);
    assert m[1..][1..] == m[2..];
    assert DigitsOf(m[1..], d) == [m[1]] + DigitsOf(m[2..], d);
    assert DigitsOf(m, d) == DigitsOf(m[1..], d);
  }

  lemma MaskShape(m: string, d: Digits)
    requires DigitClass(d) && IsPhone(m, d)
    ensures var digits := DigitsOf(m, d);
      |digits| > MIN_GROUPS && MaskPhone(m, d) == "+" + digits[..CountryCodeLength(digits)] + " " + MASK_DOTS
          + digits[|digits| - 3..]
  {
    PhoneDigits(m, d);
  }

  // At most a country code and the last three digits are left of a number:
  // every other digit is gone.
  lemma MaskHides(m: string, d: Digits)
    requires DigitClass(d) && IsPhone(m, d)
    ensures |DigitsOf(MaskPhone(m, d), d)| <= 5 < |DigitsOf(m, d)|
  {
    MaskShape(m, d);
    PhoneDigits(m, d);
    var digits := DigitsOf(m, d);
    var cc, tail := digits[..CountryCodeLength(digits)], digits[|digits| - 3..];
    var dotted := " " + MASK_DOTS;
    NoDigits(dotted, d);
    assert MaskPhone(m, d) == (("+" + cc) + dotted) + tail;
    DigitsOfJoin(("+" + cc) + dotted, tail, d);
    DigitsOfJoin("+" + cc, dotted, d);
    DigitsOfLength(tail, d);
    DigitsOfLength(cc, d);
    assert ("+" + cc)[1..] == cc;
  }

  lemma {:induction false} DigitsOfJoin(a: string, b: string, d: Digits)
    ensures DigitsOf(a + b, d) == DigitsOf(a, d) + DigitsOf(b, d)
  {
    if a == "" {
      assert a + b == b;
    } else {
      var ab := a + b;
      assert ab[1..] == a[1..] + b && ab[0] == a[0];
      DigitsOfJoin(a[1..], b, d);
      DigitsOfStep(ab, d);
      DigitsOfStep(a, d);
      JoinAssociates(if a[0] in d then [a[0]] else "", DigitsOf(a[1..], d), DigitsOf(b, d));
    }
  }

  lemma DigitsOfStep(s: string, d: Digits)
    requires s != ""
    ensures DigitsOf(s, d) == (if s[0] in d then [s[0]] else "") + DigitsOf(s[1..], d)
  {
  }

  lemma JoinAssociates(a: string, b: string, c: string)
    ensures (a + b) + c == a + (b + c)
  {
  }

  lemma {:induction false} DigitsOfLength(s: string, d: Digits)
    ensures |DigitsOf(s, d)| <= |s|
  {
    if s != "" {
      DigitsOfLength(s[1..], d);
    }
  }

  lemma {:induction false} NoDigits(s: string, d: Digits)
    requires DigitClass(d) && forall i :: 0 <= i < |s| ==> s[i] == ' ' || s[i] == DOT
    ensures DigitsOf(s, d) == ""
  {
    if s != "" {
      NoDigits(s[1..], d);
    }
  }

  // The dots stop any number that would start at the mask's plus sign.
  lemma MaskInert(m: string, d: Digits)
    requires DigitClass(d) && IsPhone(m, d)
    ensures Inert(MaskPhone(m, d), d)
  {
    MaskShape(m, d);
    PhoneDigits(m, d);
    var digits := DigitsOf(m, d);
    var cc, tail := digits[..CountryCodeLength(digits)], digits[|digits| - 3..];
    var r := MaskPhone(m, d);
    assert r == "+" + cc + " " + MASK_DOTS + tail;
    forall u: string, p | 0 <= p < |r|
      ensures Match((r + u)[p..], d) == 0
    {
      if p == 0 {
        MaskStart(cc, MASK_DOTS[1..] + tail + u, d);
        assert (r + u)[0..] == "+" + cc + [' ', DOT] + (MASK_DOTS[1..] + tail + u);
      } else {
        assert (r + u)[p..][0] == r[p] != '+';
      }
    }
  }

  // A plus sign, at most two digits, and a dotted blank never make a number.
  lemma MaskStart(cc: string, rest: string, d: Digits)
    requires DigitClass(d) && 1 <= |cc| <= 2 && forall i :: 0 <= i < |cc| ==> cc[i] in d
    ensures Match("+" + cc + [' ', DOT] + rest, d) == 0
  {
    var s := "+" + cc + [' ', DOT] + rest;
    var blocked := [' ', DOT] + rest;
    assert GroupLength(blocked, d) == 0;
    if |cc| == 1 {
      assert s[2..] == blocked;
    } else {
      assert s[2..] == [cc[1]] + blocked;
      assert s[2..][1..] == blocked;
      CountOne(s[2..], MAX_GROUPS, d, 1);
    }
  }

  // Masks every number in a text.
  function MaskPhones(s: string, d: Digits): string {
    Substitute(s, m => MaskPhone(m, d), d)
  }

  lemma MaskAlwaysInert(d: Digits)
    requires DigitClass(d)
    ensures AlwaysInert(m => MaskPhone(m, d), d)
  {
    forall m | IsPhone(m, d)
      ensures Inert(MaskPhone(m, d), d)
    {
      MaskInert(m, d);
    }
  }

  // After masking there is no number left, and masking again changes nothing.
  lemma MaskedHasNoPhone(s: string, d: Digits)
    requires DigitClass(d)
    ensures !HasPhone(MaskPhones(s, d), d)
    ensures MaskPhones(MaskPhones(s, d), d) == MaskPhones(s, d)
  {
    MaskAlwaysInert(d);
    NothingSurvives(s, m => MaskPhone(m, d), d);
    ScanFinds(MaskPhones(s, d), d);
    NothingToReplace(MaskPhones(s, d), m => MaskPhone(m, d), d);
  }

  // Masking touches nothing else: a text without a number comes back as it was.
  lemma MaskedIfAny(s: string, d: Digits)
    requires DigitClass(d)
    ensures !HasPhone(s, d) <==> MaskPhones(s, d) == s
  {
    if !HasPhone(s, d) {
      ScanFinds(s, d);
      NothingToReplace(s, m => MaskPhone(m, d), d);
    } else {
      MaskedHasNoPhone(s, d);
    }
  }

  // ---------------------------------------------------------------- replacing

  const RECIPIENT_PLACEHOLDER := "the listed recipient"

  function ReplacePhones(s: string, replacement: string, d: Digits): string {
    Substitute(s, m => replacement, d)
  }

  // Any replacement without a plus sign that starts neither a digit nor a
  // separator is safe.
  lemma PlainReplacementInert(r: string, d: Digits)
    requires r != "" && r[0] !in d && !Separator(r[0]) && '+' !in r
    ensures Inert(r, d)
  {
    forall u: string, p | 0 <= p < |r|
      ensures Match((r + u)[p..], d) == 0
    {
      assert (r + u)[p..][0] == r[p];
      assert r[p] in r;
    }
  }

  lemma ReplacedHasNoPhone(s: string, replacement: string, d: Digits)
    requires DigitClass(d) && replacement != "" && replacement[0] !in d && !Separator(replacement[0])
        && '+' !in replacement
    ensures !HasPhone(ReplacePhones(s, replacement, d), d)
  {
    PlainReplacementInert(replacement, d);
    NothingSurvives(s, m => replacement, d);
    ScanFinds(ReplacePhones(s, replacement, d), d);
  }

  // The task text handed to the call service never contains a number: the
  // assertion behind it cannot fail.
  lemma TaskTextHasNoPhone(parts: string, d: Digits)
    requires DigitClass(d)
    ensures !HasPhone(ReplacePhones(parts, RECIPIENT_PLACEHOLDER, d), d)
  {
    ReplacedHasNoPhone(parts, RECIPIENT_PLACEHOLDER, d);
  }

  // A recipient's number, as it is stored, is one of those.
  lemma StoredNumberIsPhone(s: string, d: Digits)
    requires DigitClass(d) && Lead(s) && 8 <= |s| <= 16 && forall i :: 1 <= i < |s| ==> s[i] in d
    ensures IsPhone(s, d)
  {
    PlainGroups(s[2..], d);
  }

  lemma {:induction false} PlainGroups(s: string, d: Digits)
    requires forall i :: 0 <= i < |s| ==> s[i] in d
    ensures Groups(s, |s|, d)
  {
    if s != "" {
      PlainGroups(s[1..], d);
    }
  }
}
