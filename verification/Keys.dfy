// Normalized keys, and when a key occurs in a text.
module Keys {

  // Trimming and lower-casing, as one step; all this module needs is that text
  // already in normal form stays as it is.
  type Fold = string -> string

  ghost predicate FoldOk(fold: Fold) {
    forall s: string :: Plain(s) ==> fold(s) == s
  }

  predicate Alnum(c: char) {
    'a' <= c <= 'z' || '0' <= c <= '9'
  }

  predicate Plain(s: string) {
    forall i :: 0 <= i < |s| ==> Alnum(s[i]) || s[i] == '_'
  }

  function DropOthers(s: string): (r: string)
    ensures |r| <= |s| && (r == "" || Alnum(r[0]))
  {
    if s == "" || Alnum(s[0]) then s else DropOthers(s[1..])
  }

  // Each run of other characters becomes one underscore.
  function Collapse(s: string): string
    decreases |s|
  {
    if s == "" then ""
    else if Alnum(s[0]) then [s[0]] + Collapse(s[1..])
    else "_" + Collapse(DropOthers(s[1..]))
  }

  function StripLeft(s: string): string {
    if s != "" && s[0] == '_' then StripLeft(s[1..]) else s
  }

  function StripRight(s: string): string {
    if s != "" && s[|s| - 1] == '_' then StripRight(s[..|s| - 1]) else s
  }

  function NormalizeKey(s: string, fold: Fold): string {
    StripRight(StripLeft(Collapse(fold(s))))
  }

  // ---------------------------------------------------------------- normal form

  ghost predicate Single(s: string) {
    Plain(s) && forall i :: 0 <= i < |s| - 1 ==> s[i] != '_' || s[i + 1] != '_'
  }

  // Lower-case letters and digits in words, one underscore between two words.
  ghost predicate Normal(s: string) {
    Single(s) && (s != "" ==> s[0] != '_' && s[|s| - 1] != '_')
  }

  lemma {:induction false} CollapseSingle(s: string)
    ensures Single(Collapse(s))
    ensures s != "" ==> Collapse(s) != "" && (Collapse(s)[0] == '_' <==> !Alnum(s[0]))
    decreases |s|
  {
    if s != "" {
      if Alnum(s[0]) {
        CollapseSingle(s[1..]);
      } else {
        CollapseSingle(DropOthers(s[1..]));
      }
    }
  }

  lemma {:induction false} StripLeftSingle(s: string)
    requires Single(s)
    ensures Single(StripLeft(s)) && (StripLeft(s) != "" ==> StripLeft(s)[0] != '_')
  {
    if s != "" && s[0] == '_' {
      StripLeftSingle(s[1..]);
    }
  }

  lemma {:induction false} StripRightNormal(s: string)
    requires Single(s) && (s != "" ==> s[0] != '_')
    ensures Normal(StripRight(s))
  {
    if s != "" && s[|s| - 1] == '_' {
      StripRightNormal(s[..|s| - 1]);
    }
  }

  lemma {:induction false} CollapseNormal(s: string)
    requires Single(s)
    ensures Collapse(s) == s
    decreases |s|
  {
    if s != "" {
      if Alnum(s[0]) {
        CollapseNormal(s[1..]);
      } else {
        assert DropOthers(s[1..]) == s[1..];
        CollapseNormal(s[1..]);
      }
    }
  }

  // Every key has a normal form, and normalizing it again changes nothing.
  lemma NormalizeIsNormal(s: string, fold: Fold)
    requires FoldOk(fold)
    ensures Normal(NormalizeKey(s, fold))
    ensures NormalizeKey(NormalizeKey(s, fold), fold) == NormalizeKey(s, fold)
  {
    CollapseSingle(fold(s));
    StripLeftSingle(Collapse(fold(s)));
    StripRightNormal(StripLeft(Collapse(fold(s))));
    var n := NormalizeKey(s, fold);
    CollapseNormal(n);
  }

  // ---------------------------------------------------------------- matching

  function WordLength(s: string): (n: nat)
    ensures n <= |s|
  {
    if s == "" || s[0] == '_' then 0 else 1 + WordLength(s[1..])
  }

  // The words between underscores.
  function Tokens(s: string): seq<string>
    decreases |s|
  {
    if s == "" then []
    else if s[0] == '_' then Tokens(s[1..])
    else [s[..WordLength(s)]] + Tokens(s[WordLength(s)..])
  }

  predicate OccursAt(needle: seq<string>, haystack: seq<string>, i: nat) {
    i + |needle| <= |haystack| && haystack[i..i + |needle|] == needle
  }

  predicate Occurs(needle: seq<string>, haystack: seq<string>) {
    exists i :: 0 <= i < |haystack| && OccursAt(needle, haystack, i)
  }

  // The key's words occur in a row among the text's.
  predicate KeyMatches(key: string, text: string, fold: Fold) {
    var needle := Tokens(NormalizeKey(key, fold));
    needle != [] && Occurs(needle, Tokens(NormalizeKey(text, fold)))
  }

  // Only the normal forms count.
  lemma MatchesByNormalForm(a: string, b: string, text: string, fold: Fold)
    requires NormalizeKey(a, fold) == NormalizeKey(b, fold)
    ensures KeyMatches(a, text, fold) == KeyMatches(b, text, fold)
  {
  }

  // A key that has a normal form occurs in itself.
  lemma KeyMatchesItself(key: string, fold: Fold)
    requires FoldOk(fold)
    ensures KeyMatches(key, key, fold) <==> NormalizeKey(key, fold) != ""
  {
    NormalizeIsNormal(key, fold);
    var n := NormalizeKey(key, fold);
    var tokens := Tokens(n);
    if n != "" {
      assert tokens != [];
      assert OccursAt(tokens, tokens, 0);
    }
  }
}
