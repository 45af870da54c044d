/** The model designator of a normalized name ("i20", "2008", "id4"): what a fuzzy match may not cross. */
module ModelDesignator {
  import opened Comprehension

  predicate IsLetter(c: char) {
    'a' <= c <= 'z' || 'A' <= c <= 'Z'
  }

  predicate IsDigit(c: char) {
    '0' <= c <= '9'
  }

  const DIGITS := "0123456789"
  const SMALL := "abcdefghijklmnopqrstuvwxyz"
  const CAPITAL := "ABCDEFGHIJKLMNOPQRSTUVWXYZ"
  const LETTERS := SMALL + CAPITAL

  lemma SmallLetters(c: char)
    ensures 'a' <= c <= 'z' <==> c in SMALL
  {
    if 'a' <= c <= 'z' {
      assert SMALL[c as int - 'a' as int] == c;
    }
  }

  lemma CapitalLetters(c: char)
    ensures 'A' <= c <= 'Z' <==> c in CAPITAL
  {
    if 'A' <= c <= 'Z' {
      assert CAPITAL[c as int - 'A' as int] == c;
    }
  }

  lemma Digits(c: char)
    ensures IsDigit(c) <==> c in DIGITS
  {
    if IsDigit(c) {
      assert DIGITS[c as int - '0' as int] == c;
    }
  }

  /** Digits and letters are the ASCII ones. */
  lemma CharacterMeaning(c: char)
    ensures IsDigit(c) <==> c in DIGITS
    ensures IsLetter(c) <==> c in LETTERS
  {
    Digits(c);
    SmallLetters(c);
    CapitalLetters(c);
    assert c in LETTERS <==> c in SMALL || c in CAPITAL;
  }

  predicate IsAlpha(s: string) {
    s != "" && forall i :: 0 <= i < |s| ==> IsLetter(s[i])
  }

  predicate IsNumber(s: string) {
    s != "" && forall i :: 0 <= i < |s| ==> IsDigit(s[i])
  }

  predicate HasDigit(s: string) {
    exists i :: 0 <= i < |s| && IsDigit(s[i])
  }

  const PREFIX_MAX := 3

  /** A short series prefix that fuses with the number after it. */
  predicate FusesPrefix(tok: string, next: string) {
    IsAlpha(tok) && |tok| <= PREFIX_MAX && IsNumber(next)
  }

  /** A number that fuses with the single letter after it. */
  predicate FusesSuffix(tok: string, next: string) {
    IsNumber(tok) && IsAlpha(next) && |next| == 1
  }

  ghost predicate Only(s: string, table: string) {
    s != "" && forall c :: c in s ==> c in table
  }

  lemma OnlyMeaning(s: string)
    ensures IsAlpha(s) <==> Only(s, LETTERS)
    ensures IsNumber(s) <==> Only(s, DIGITS)
    ensures HasDigit(s) <==> exists c :: c in s && c in DIGITS
  {
    forall c ensures (IsDigit(c) <==> c in DIGITS) && (IsLetter(c) <==> c in LETTERS) { CharacterMeaning(c); }
    forall i | 0 <= i < |s| ensures s[i] in s {
    }
  }

  /** A prefix is one to three letters before a number, a suffix the one letter after it. */
  lemma FusesMeaning(tok: string, next: string)
    ensures FusesPrefix(tok, next) <==> |tok| <= 3 && Only(tok, LETTERS) && Only(next, DIGITS)
    ensures FusesSuffix(tok, next) <==> Only(tok, DIGITS) && |next| == 1 && Only(next, LETTERS)
  {
    OnlyMeaning(tok);
    OnlyMeaning(next);
  }

  /** _extract_model_designator on the tokens left once the make is removed. */
  function Extract(tokens: seq<string>): Option<string> {
    if tokens == [] then None
    else
      var tok := tokens[0];
      var next := if |tokens| > 1 then tokens[1] else "";
      if IsAlpha(tok) then (if FusesPrefix(tok, next) then Some(tok + next) else Extract(tokens[1..]))
      else if !HasDigit(tok) then Extract(tokens[1..])
      else if FusesSuffix(tok, next) then Some(tok + next)
      else Some(tok)
  }

  /** The designator at a given token. */
  function At(tokens: seq<string>, i: nat): string
    requires i < |tokens|
  {
    if i > 0 && FusesPrefix(tokens[i - 1], tokens[i]) then tokens[i - 1] + tokens[i]
    else if i + 1 < |tokens| && FusesSuffix(tokens[i], tokens[i + 1]) then tokens[i] + tokens[i + 1]
    else tokens[i]
  }

  lemma AlphaHasNoDigit(s: string)
    requires IsAlpha(s)
    ensures !HasDigit(s) && !IsNumber(s)
  {
    assert IsLetter(s[0]);
  }

  lemma NumberHasDigit(s: string)
    requires IsNumber(s)
    ensures HasDigit(s)
  {
    assert IsDigit(s[0]);
  }

  /** A name without digits has no designator. */
  lemma {:induction false} NoDigitNoDesignator(tokens: seq<string>)
    requires forall t :: t in tokens ==> !HasDigit(t)
    ensures Extract(tokens) == None
  {
    if tokens != [] {
      var next := if |tokens| > 1 then tokens[1] else "";
      if IsNumber(next) {
        NumberHasDigit(next);
      } else {
        NoDigitNoDesignator(tokens[1..]);
      }
    }
  }

  /** Otherwise the first token with a digit decides: it takes a short series prefix before it, or else a
      single letter after it, and nothing else in the name matters. */
  lemma {:induction false} FirstDigitDecides(tokens: seq<string>, i: nat)
    requires i < |tokens| && HasDigit(tokens[i])
    requires forall j :: 0 <= j < i ==> !HasDigit(tokens[j])
    ensures Extract(tokens) == Some(At(tokens, i))
  {
    var next := if |tokens| > 1 then tokens[1] else "";
    if i == 0 {
      if IsAlpha(tokens[0]) {
        AlphaHasNoDigit(tokens[0]);
      }
    } else {
      if i == 1 && FusesPrefix(tokens[0], tokens[1]) {
        return;
      }
      if i > 1 && IsNumber(next) {
        NumberHasDigit(next);
      } else {
        FirstDigitDecides(tokens[1..], i - 1);
      }
    }
  }

  /** _model_designator_mismatch: both names carry a designator, and they differ. */
  predicate Mismatch(a: seq<string>, b: seq<string>) {
    Extract(a).Some? && Extract(b).Some? && Extract(a) != Extract(b)
  }

  /** The same tokens never conflict, and a name without digits conflicts with nothing. */
  lemma MismatchNeedsDigits(a: seq<string>, b: seq<string>)
    requires Mismatch(a, b)
    ensures Mismatch(b, a) && a != b
    ensures (exists t :: t in a && HasDigit(t)) && exists t :: t in b && HasDigit(t)
  {
    if forall t :: t in a ==> !HasDigit(t) {
      NoDigitNoDesignator(a);
    }
    if forall t :: t in b ==> !HasDigit(t) {
      NoDigitNoDesignator(b);
    }
  }
}
