/** Regular expressions as far as this repository uses them, and which texts they match as a whole. */
module Regex {
  import opened Common

  /** A character class is a list of ranges; a repetition has a least and perhaps a greatest number. */
  datatype Regex =
    | Chars(ranges: seq<(char, char)>)
    | Then(first: Regex, second: Regex)
    | Either(left: Regex, right: Regex)
    | Repeat(body: Regex, least: nat, most: Option<nat>)

  predicate InRanges(c: char, ranges: seq<(char, char)>) { exists range <- ranges :: range.0 <= c <= range.1 }

  predicate AllIn(s: string, ranges: seq<(char, char)>) { forall i | 0 <= i < |s| :: InRanges(s[i], ranges) }

  ghost predicate Matches(r: Regex, s: string)
    decreases r, 0, 0
  {
    match r
    case Chars(ranges) => |s| == 1 && InRanges(s[0], ranges)
    case Then(a, b) => exists i :: 0 <= i <= |s| && Matches(a, s[..i]) && Matches(b, s[i..])
    case Either(a, b) => Matches(a, s) || Matches(b, s)
    case Repeat(body, least, most) =>
      exists n: nat :: least <= n && (most.Some? ==> n <= most.value) && Power(body, n, s)
  }

  /** The text consists of `n` matches in a row. */
  ghost predicate Power(r: Regex, n: nat, s: string)
    decreases r, 1, n
  {
    if n == 0 then s == ""
    else exists i :: 0 <= i <= |s| && Power(r, n - 1, s[..i]) && Matches(r, s[i..])
  }

  /** The text has a match in it, as `RegExp.prototype.test` finds without anchors. */
  ghost predicate Finds(r: Regex, s: string) { exists i, j :: 0 <= i <= j <= |s| && Matches(r, s[i..j]) }

  function Literal(c: char): Regex { Chars([(c, c)]) }

  /** Exactly `n` characters of a class. */
  function Block(ranges: seq<(char, char)>, n: nat): Regex { Repeat(Chars(ranges), n, Some(n)) }

  lemma LiteralIff(c: char, s: string)
    ensures Matches(Literal(c), s) <==> s == [c]
  {
    assert [(c, c)][0] == (c, c);
  }

  lemma {:induction false} PowerOfChars(ranges: seq<(char, char)>, n: nat, s: string)
    ensures Power(Chars(ranges), n, s) <==> |s| == n && AllIn(s, ranges)
    decreases n
  {
    if n > 0 {
      forall i | 0 <= i <= |s| ensures Power(Chars(ranges), n - 1, s[..i]) <==> i == n - 1 && AllIn(s[..i], ranges) {
        PowerOfChars(ranges, n - 1, s[..i]);
      }
      if |s| == n && AllIn(s, ranges) {
        assert Power(Chars(ranges), n - 1, s[..n - 1]) && Matches(Chars(ranges), s[n - 1..]);
      }
    }
  }

  /** A repeated class matches by length and characters. */
  lemma RepeatOfChars(ranges: seq<(char, char)>, least: nat, most: Option<nat>, s: string)
    ensures Matches(Repeat(Chars(ranges), least, most), s) <==>
            least <= |s| && (most.Some? ==> |s| <= most.value) && AllIn(s, ranges)
  {
    PowerOfChars(ranges, |s|, s);
    forall n: nat | Power(Chars(ranges), n, s) ensures n == |s| && AllIn(s, ranges) { PowerOfChars(ranges, n, s); }
  }

  /** A block of fixed length at the front of a text. */
  lemma BlockThen(ranges: seq<(char, char)>, n: nat, rest: Regex, s: string)
    ensures Matches(Then(Block(ranges, n), rest), s) <==>
            |s| >= n && AllIn(s[..n], ranges) && Matches(rest, s[n..])
  {
    forall i | 0 <= i <= |s| ensures Matches(Block(ranges, n), s[..i]) <==> i == n && AllIn(s[..i], ranges) {
      RepeatOfChars(ranges, n, Some(n), s[..i]);
    }
  }

  /** One character of a class at the front of a text. */
  lemma CharThen(ranges: seq<(char, char)>, rest: Regex, s: string)
    ensures Matches(Then(Chars(ranges), rest), s) <==>
            s != "" && InRanges(s[0], ranges) && Matches(rest, s[1..])
  {
    if s != "" && InRanges(s[0], ranges) && Matches(rest, s[1..]) { assert Matches(Chars(ranges), s[..1]); }
  }

  lemma LiteralThen(c: char, rest: Regex, s: string)
    ensures Matches(Then(Literal(c), rest), s) <==> s != "" && s[0] == c && Matches(rest, s[1..])
  {
    CharThen([(c, c)], rest, s);
    assert [(c, c)][0] == (c, c);
  }

  lemma ThenLiteral(r: Regex, c: char, s: string)
    ensures Matches(Then(r, Literal(c)), s) <==> s != "" && s[|s| - 1] == c && Matches(r, s[..|s| - 1])
  {
    forall i | 0 <= i <= |s| ensures Matches(Literal(c), s[i..]) <==> i == |s| - 1 && s[i] == c {
      LiteralIff(c, s[i..]);
    }
  }

  lemma PowerOne(r: Regex, s: string)
    ensures Power(r, 1, s) <==> Matches(r, s)
  {
    assert s[..0] == "" && s[0..] == s;
    assert Power(r, 0, s[..0]);
  }

  /** One match, or two in a row. */
  lemma OneOrTwo(r: Regex, s: string)
    ensures Matches(Repeat(r, 1, Some(2)), s) <==>
            Matches(r, s) || exists i :: 0 <= i <= |s| && Matches(r, s[..i]) && Matches(r, s[i..])
  {
    PowerOne(r, s);
    forall i | 0 <= i <= |s| ensures Power(r, 1, s[..i]) <==> Matches(r, s[..i]) { PowerOne(r, s[..i]); }
    forall n: nat | 1 <= n <= 2 && Power(r, n, s) ensures n == 1 || Power(r, 2, s) {}
    if i :| 0 <= i <= |s| && Matches(r, s[..i]) && Matches(r, s[i..]) { assert Power(r, 2, s); }
    if Matches(r, s) { assert Power(r, 1, s); }
  }

  /** A match of `head`, and then `n` of `word`. */
  ghost predicate Listed(head: Regex, word: Regex, n: nat, s: string) {
    exists j :: 0 <= j <= |s| && Matches(head, s[..j]) && Power(word, n, s[j..])
  }

  lemma ListedNone(head: Regex, word: Regex, s: string)
    ensures Listed(head, word, 0, s) <==> Matches(head, s)
  {
    assert s[..|s|] == s && s[|s|..] == "";
    if Listed(head, word, 0, s) {
      var j :| 0 <= j <= |s| && Matches(head, s[..j]) && Power(word, 0, s[j..]);
      assert s[..j] == s;
    }
  }

  lemma ListedMore(head: Regex, word: Regex, n: nat, s: string, i: nat)
    requires i <= |s| && Listed(head, word, n, s[..i]) && Matches(word, s[i..])
    ensures Listed(head, word, n + 1, s)
  {
    var j :| 0 <= j <= i && Matches(head, s[..i][..j]) && Power(word, n, s[..i][j..]);
    assert s[..i][..j] == s[..j] && s[..i][j..] == s[j..][..i - j] && s[i..] == s[j..][i - j..];
  }

  lemma PowerLast(r: Regex, n: nat, s: string) returns (k: nat)
    requires Power(r, n + 1, s)
    ensures k <= |s| && Power(r, n, s[..k]) && Matches(r, s[k..])
  {
    k :| 0 <= k <= |s| && Power(r, n, s[..k]) && Matches(r, s[k..]);
  }

  lemma ListedAt(head: Regex, word: Regex, n: nat, s: string) returns (j: nat)
    requires Listed(head, word, n, s)
    ensures j <= |s| && Matches(head, s[..j]) && Power(word, n, s[j..])
  {
    j :| 0 <= j <= |s| && Matches(head, s[..j]) && Power(word, n, s[j..]);
  }

  lemma ListedFewer(head: Regex, word: Regex, n: nat, s: string) returns (i: nat)
    requires Listed(head, word, n + 1, s)
    ensures i <= |s| && Listed(head, word, n, s[..i]) && Matches(word, s[i..])
  {
    var j := ListedAt(head, word, n + 1, s);
    var k := PowerLast(word, n, s[j..]);
    i := j + k;
    assert s[..i][..j] == s[..j] && s[..i][j..] == s[j..][..k] && s[i..] == s[j..][k..];
  }

  lemma RepeatFrom(r: Regex, n: nat, s: string)
    requires n >= 1 && Power(r, n, s)
    ensures Matches(Repeat(r, 1, None), s)
  {
    var many := Repeat(r, 1, None);
    assert many.least <= n && many.most.None? && Power(many.body, n, s);
  }

  lemma RepeatCount(r: Regex, s: string) returns (n: nat)
    requires Matches(Repeat(r, 1, None), s)
    ensures n >= 1 && Power(r, n, s)
  {
    n :| 1 <= n && Power(r, n, s);
  }

  lemma ThenAt(a: Regex, b: Regex, s: string) returns (j: nat)
    requires Matches(Then(a, b), s)
    ensures j <= |s| && Matches(a, s[..j]) && Matches(b, s[j..])
  {
    j :| 0 <= j <= |s| && Matches(a, s[..j]) && Matches(b, s[j..]);
  }

  lemma ThenFrom(a: Regex, b: Regex, s: string, j: nat)
    requires j <= |s| && Matches(a, s[..j]) && Matches(b, s[j..])
    ensures Matches(Then(a, b), s)
  {
  }

  /** A head and at least one word are matched by the expression for them. */
  lemma ListedMatches(head: Regex, word: Regex, n: nat, s: string)
    requires n >= 1 && Listed(head, word, n, s)
    ensures Matches(Then(head, Repeat(word, 1, None)), s)
  {
    var j := ListedAt(head, word, n, s);
    RepeatFrom(word, n, s[j..]);
    ThenFrom(head, Repeat(word, 1, None), s, j);
  }

  /** And nothing else is. */
  lemma MatchesListed(head: Regex, word: Regex, s: string) returns (n: nat)
    requires Matches(Then(head, Repeat(word, 1, None)), s)
    ensures n >= 1 && Listed(head, word, n, s)
  {
    var j := ThenAt(head, Repeat(word, 1, None), s);
    n := RepeatCount(word, s[j..]);
  }
}
