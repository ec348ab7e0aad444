/** The version of a cart as an entity tag: printed by `handleResult`, read back by `versionHeader`. */
module VersionTag {
  import opened Common
  import opened Strings
  import Regex

  const MAXIMUM := 999_999_999

  function DigitOf(n: nat): char
    requires n < 10
  {
    '0' + n as char
  }

  /** A number in decimal. */
  function Decimal(n: nat): string {
    if n < 10 then [DigitOf(n)] else Decimal(n / 10) + [DigitOf(n % 10)]
  }

  function DigitValue(c: char): nat
    requires IsDigit(c)
  {
    c as int - '0' as int
  }

  /** The number that decimal digits stand for. */
  function Value(s: string): nat
    requires forall i | 0 <= i < |s| :: IsDigit(s[i])
  {
    if s == "" then 0 else 10 * Value(s[..|s| - 1]) + DigitValue(s[|s| - 1])
  }

  function Print(version: nat): string { "\"" + Decimal(version) + "\"" }

  /** The expression of `versionHeader`: a quoted number of up to nine digits that does not start with zero. */
  predicate Matches(s: string) {
    && 3 <= |s| <= 11
    && s[0] == '"' && s[|s| - 1] == '"'
    && s[1] != '0'
    && forall i | 1 <= i < |s| - 1 :: IsDigit(s[i])
  }

  /** `versionHeader`, which throws where nothing is returned. */
  function Parse(header: Option<string>): Option<nat> {
    if header.None? || !Matches(header.value) then None
    else
      var s := header.value;
      var n := Value(s[1..|s| - 1]);
      if 1 <= n <= MAXIMUM then Some(n) else None
  }

  function Pow10(n: nat): nat { if n == 0 then 1 else 10 * Pow10(n - 1) }

  lemma {:induction false} Pow10Grows(m: nat, n: nat)
    requires m <= n
    ensures 1 <= Pow10(m) <= Pow10(n)
    decreases n
  {
    if m < n { Pow10Grows(m, n - 1); } else if n > 0 { Pow10Grows(m - 1, n - 1); }
  }

  /** The digits of a number, how many they are, and what they stand for. */
  lemma {:induction false} DecimalValue(n: nat)
    ensures var s := Decimal(n);
            && s != "" && (forall i | 0 <= i < |s| :: IsDigit(s[i])) && Value(s) == n
            && (n >= 1 ==> s[0] != '0' && Pow10(|s| - 1) <= n)
  {
    var s := Decimal(n);
    if n < 10 {
      assert s[..|s| - 1] == "";
    } else {
      DecimalValue(n / 10);
      assert s[..|s| - 1] == Decimal(n / 10);
    }
  }

  /** Digits without a leading zero are how their value is printed, and bound it. */
  lemma {:induction false} ValueDecimal(s: string)
    requires s != "" && (forall i | 0 <= i < |s| :: IsDigit(s[i])) && s[0] != '0'
    ensures Decimal(Value(s)) == s && 1 <= Value(s) < Pow10(|s|)
  {
    var rest := s[..|s| - 1];
    if rest == "" {
      assert s == [s[0]];
    } else {
      ValueDecimal(rest);
      assert s == rest + [s[|s| - 1]];
    }
  }

  /** Every version comes back from its tag. */
  lemma ParsePrint(version: nat)
    requires 1 <= version <= MAXIMUM
    ensures Parse(Some(Print(version))) == Some(version)
  {
    var digits, s := Decimal(version), Print(version);
    DecimalValue(version);
    assert Pow10(9) == 1_000_000_000;
    if |digits| > 9 { Pow10Grows(9, |digits| - 1); }
    assert s[1..|s| - 1] == digits;
    forall i | 1 <= i < |s| - 1 ensures IsDigit(s[i]) { assert s[i] == digits[i - 1]; }
  }

  /** Every tag that is read is the one that would be printed. */
  lemma PrintParse(s: string)
    ensures Parse(Some(s)).Some? <==> Matches(s)
    ensures Parse(Some(s)).Some? ==> 1 <= Parse(Some(s)).value <= MAXIMUM && Print(Parse(Some(s)).value) == s
  {
    if Matches(s) {
      var digits := s[1..|s| - 1];
      ValueDecimal(digits);
      Pow10Grows(|digits|, 9);
      assert Pow10(9) == 1_000_000_000;
      assert s == "\"" + digits + "\"";
    }
  }

  /** The tags that are read are exactly those that are printed. */
  lemma AcceptedIsPrinted(s: string)
    ensures Parse(Some(s)).Some? <==> exists version: nat :: 1 <= version <= MAXIMUM && s == Print(version)
  {
    PrintParse(s);
    if exists version: nat :: 1 <= version <= MAXIMUM && s == Print(version) {
      var version: nat :| 1 <= version <= MAXIMUM && s == Print(version);
      ParsePrint(version);
    }
  }

  const FIRST: seq<(char, char)> := [('1', '9')]
  const DIGIT: seq<(char, char)> := [('0', '9')]

  /** /^"[1-9][0-9]{0,8}"$/u */
  function Tag(): Regex.Regex { Regex.Then(Regex.Literal('"'), Regex.Then(Regex.Chars(FIRST), TagEnd())) }

  function TagEnd(): Regex.Regex { Regex.Then(Regex.Repeat(Regex.Chars(DIGIT), 0, Some(8)), Regex.Literal('"')) }

  lemma DigitsIff(s: string)
    ensures Regex.Matches(Regex.Repeat(Regex.Chars(DIGIT), 0, Some(8)), s) <==>
            |s| <= 8 && forall i | 0 <= i < |s| :: IsDigit(s[i])
  {
    assert DIGIT[0] == ('0', '9');
    Regex.RepeatOfChars(DIGIT, 0, Some(8), s);
    if Regex.AllIn(s, DIGIT) {
      forall i | 0 <= i < |s| ensures IsDigit(s[i]) { assert Regex.InRanges(s[i], DIGIT); }
    }
  }

  predicate IsTagEnd(s: string) { 1 <= |s| <= 9 && s[|s| - 1] == '"' && forall i | 0 <= i < |s| - 1 :: IsDigit(s[i]) }

  lemma TagEndIff(s: string)
    ensures Regex.Matches(TagEnd(), s) <==> IsTagEnd(s)
  {
    ThenQuote(Regex.Repeat(Regex.Chars(DIGIT), 0, Some(8)), s);
    if s != "" { DigitsIff(s[..|s| - 1]); }
  }

  lemma ThenQuote(r: Regex.Regex, s: string)
    ensures Regex.Matches(Regex.Then(r, Regex.Literal('"')), s) <==>
            s != "" && s[|s| - 1] == '"' && Regex.Matches(r, s[..|s| - 1])
  {
    Regex.ThenLiteral(r, '"', s);
  }

  lemma TagIff(s: string)
    ensures Regex.Matches(Tag(), s) <==> |s| >= 2 && s[0] == '"' && '1' <= s[1] <= '9' && IsTagEnd(s[2..])
  {
    assert FIRST[0] == ('1', '9');
    LiteralChar('"', FIRST, TagEnd(), s);
    if |s| >= 2 { TagEndIff(s[2..]); }
  }

  lemma LiteralChar(c: char, ranges: seq<(char, char)>, rest: Regex.Regex, s: string)
    ensures Regex.Matches(Regex.Then(Regex.Literal(c), Regex.Then(Regex.Chars(ranges), rest)), s) <==>
            |s| >= 2 && s[0] == c && Regex.InRanges(s[1], ranges) && Regex.Matches(rest, s[2..])
  {
    Regex.LiteralThen(c, Regex.Then(Regex.Chars(ranges), rest), s);
    if |s| >= 1 {
      Regex.CharThen(ranges, rest, s[1..]);
      if |s| >= 2 { assert s[1..][1..] == s[2..]; }
    }
  }

  /** What is read is what the expression matches. */
  lemma MatchesIff(s: string)
    ensures Matches(s) <==> Regex.Matches(Tag(), s)
  {
    TagIff(s);
    PlainIff(s);
  }

  lemma PlainIff(s: string)
    ensures Matches(s) <==> |s| >= 2 && s[0] == '"' && '1' <= s[1] <= '9' && IsTagEnd(s[2..])
  {
    if |s| >= 2 {
      forall i | 2 <= i < |s| ensures s[2..][i - 2] == s[i] {}
      if IsTagEnd(s[2..]) {
        forall i | 2 <= i < |s| - 1 ensures IsDigit(s[i]) { assert IsDigit(s[2..][i - 2]); }
      }
    }
  }
}
