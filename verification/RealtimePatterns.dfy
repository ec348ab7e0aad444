/**
 * The regular expressions at the head of `apps/api/src/realtime.ts`, and what they say about the checks on sessions
 * and hints: each check accepts exactly the texts its expression matches.
 */
module RealtimePatterns {
  import opened Common
  import opened Regex
  import opened RealtimeTypes
  import Strings

  const HEX: seq<(char, char)> := [('0', '9'), ('a', 'f'), ('A', 'F')]
  const KEY: seq<(char, char)> := [('A', 'Z'), ('a', 'z'), ('0', '9'), ('.', '.'), ('_', '_'), (':', ':'), ('-', '-')]
  const LOWER: seq<(char, char)> := [('a', 'z')]
  const LOWER_OR_DIGIT: seq<(char, char)> := [('a', 'z'), ('0', '9')]
  const WORD: seq<(char, char)> := [('a', 'z'), ('0', '9'), ('-', '-')]
  const LETTER_OR_DIGIT: seq<(char, char)> := [('A', 'Z'), ('a', 'z'), ('0', '9')]
  const VARIANT: seq<(char, char)> := [('8', '9'), ('a', 'b'), ('A', 'B')]

  // /^[0-9a-f]{8}-[0-9a-f]{4}-7[0-9a-f]{3}-[89ab][0-9a-f]{3}-[0-9a-f]{12}$/i, from its end to its start.

  function UuidNode(): Regex { Then(Literal('-'), Block(HEX, 12)) }

  function UuidClock(): Regex { Then(Literal('-'), Then(Chars(VARIANT), Then(Block(HEX, 3), UuidNode()))) }

  function UuidVersion(): Regex { Then(Literal('-'), Then(Literal('7'), Then(Block(HEX, 3), UuidClock()))) }

  function UuidV7(): Regex { Then(Block(HEX, 8), Then(Literal('-'), Then(Block(HEX, 4), UuidVersion()))) }

  /** /^[A-Za-z0-9._:-]{1,128}$/ */
  function OpaqueKey(): Regex { Repeat(Chars(KEY), 1, Some(128)) }

  /** /^[a-z][a-z0-9]*(?:\.[a-z][a-z0-9-]*)+$/ */
  function HintType(): Regex { Then(HintHead(), Repeat(HintWord(), 1, None)) }

  function HintHead(): Regex { Then(Chars(LOWER), Repeat(Chars(LOWER_OR_DIGIT), 0, None)) }

  function HintWord(): Regex { Then(Literal('.'), Then(Chars(LOWER), Repeat(Chars(WORD), 0, None))) }

  /** /^[a-z][A-Za-z0-9]{0,63}$/ */
  function ResourceType(): Regex { Then(Chars(LOWER), Repeat(Chars(LETTER_OR_DIGIT), 0, Some(63))) }

  // ---------------------------------------------------------------- classes

  lemma HexIff(c: char)
    ensures InRanges(c, HEX) <==> IsHexDigit(c)
  {
    assert HEX[0] == ('0', '9') && HEX[1] == ('a', 'f') && HEX[2] == ('A', 'F');
  }

  lemma VariantIff(c: char)
    ensures InRanges(c, VARIANT) <==> c in "89abAB"
  {
    assert VARIANT[0] == ('8', '9') && VARIANT[1] == ('a', 'b') && VARIANT[2] == ('A', 'B');
  }

  lemma KeyIff(c: char)
    ensures InRanges(c, KEY) <==> IsKeyChar(c)
  {
    assert KEY[0] == ('A', 'Z') && KEY[1] == ('a', 'z') && KEY[2] == ('0', '9') && KEY[3] == ('.', '.');
    assert KEY[4] == ('_', '_') && KEY[5] == (':', ':') && KEY[6] == ('-', '-');
  }

  lemma LowerIff(c: char)
    ensures InRanges(c, LOWER) <==> IsLower(c)
    ensures InRanges(c, LOWER_OR_DIGIT) <==> IsLower(c) || Strings.IsDigit(c)
    ensures InRanges(c, WORD) <==> IsLower(c) || Strings.IsDigit(c) || c == '-'
    ensures InRanges(c, LETTER_OR_DIGIT) <==> IsLower(c) || IsUpper(c) || Strings.IsDigit(c)
  {
    assert LOWER[0] == ('a', 'z');
    assert LOWER_OR_DIGIT[0] == ('a', 'z') && LOWER_OR_DIGIT[1] == ('0', '9');
    assert WORD[0] == ('a', 'z') && WORD[1] == ('0', '9') && WORD[2] == ('-', '-');
    assert LETTER_OR_DIGIT[0] == ('A', 'Z') && LETTER_OR_DIGIT[1] == ('a', 'z') && LETTER_OR_DIGIT[2] == ('0', '9');
  }

  // ---------------------------------------------------------------- keys and ids

  lemma OpaqueKeyIff(s: string)
    ensures IsOpaqueKey(s) <==> Matches(OpaqueKey(), s)
  {
    RepeatOfChars(KEY, 1, Some(128), s);
    forall i | 0 <= i < |s| ensures InRanges(s[i], KEY) <==> IsKeyChar(s[i]) { KeyIff(s[i]); }
    if AllIn(s, KEY) {
      forall c | c in s ensures IsKeyChar(c) {
        var i :| 0 <= i < |s| && s[i] == c;
        assert InRanges(s[i], KEY);
      }
    }
  }

  lemma ResourceTypeIff(s: string)
    ensures IsResourceType(s) <==> Matches(ResourceType(), s)
  {
    CharThen(LOWER, Repeat(Chars(LETTER_OR_DIGIT), 0, Some(63)), s);
    if s != "" {
      LowerIff(s[0]);
      var rest := s[1..];
      RepeatOfChars(LETTER_OR_DIGIT, 0, Some(63), rest);
      forall i | 0 <= i < |rest|
        ensures InRanges(rest[i], LETTER_OR_DIGIT) <==>
                IsLower(s[i + 1]) || IsUpper(s[i + 1]) || Strings.IsDigit(s[i + 1])
      {
        LowerIff(rest[i]);
      }
      if IsResourceType(s) {
        assert AllIn(rest, LETTER_OR_DIGIT);
      }
      if Matches(ResourceType(), s) {
        forall i | 0 <= i < |s| ensures IsLower(s[i]) || IsUpper(s[i]) || Strings.IsDigit(s[i]) {
          if i > 0 { assert InRanges(rest[i - 1], LETTER_OR_DIGIT); }
        }
      }
    }
  }

  /** From position `i` on the text is the rest of a UUID. */
  predicate UuidTail(s: string, i: nat) { |s| == 36 && forall k | i <= k < 36 :: UuidCharAt(s, k) }

  predicate Hyphen(i: nat) { i == 8 || i == 13 || i == 18 || i == 23 }

  /** Whether `rest` matches what follows position `i` exactly if that is the rest of a UUID. */
  ghost predicate Reads(rest: Regex, s: string, i: nat) { i <= |s| ==> (Matches(rest, s[i..]) <==> UuidTail(s, i)) }

  lemma CharTail(s: string, i: nat, ranges: seq<(char, char)>, rest: Regex)
    requires i < 36 && Reads(rest, s, i + 1)
    requires i < |s| ==> (InRanges(s[i], ranges) <==> UuidCharAt(s, i))
    ensures Reads(Then(Chars(ranges), rest), s, i)
  {
    if i < |s| {
      CharThen(ranges, rest, s[i..]);
      assert s[i..][1..] == s[i + 1..];
    } else if i == |s| {
      CharThen(ranges, rest, s[i..]);
    }
  }

  lemma LiteralTail(s: string, i: nat, c: char, rest: Regex)
    requires Reads(rest, s, i + 1) && if Hyphen(i) then c == '-' else i == 14 && c == '7'
    ensures Reads(Then(Literal(c), rest), s, i)
  {
    assert [(c, c)][0] == (c, c);
    CharTail(s, i, [(c, c)], rest);
  }

  /** The positions that hold any hexadecimal digit. */
  predicate HexOnly(i: nat, n: nat) { i + n <= 36 && forall k | i <= k < i + n :: !Hyphen(k) && k != 14 && k != 19 }

  lemma HexIn(s: string, i: nat, n: nat)
    requires i + n <= |s| && HexOnly(i, n)
    ensures AllIn(s[i..i + n], HEX) <==> forall k | i <= k < i + n :: UuidCharAt(s, k)
  {
    var t := s[i..i + n];
    forall k | i <= k < i + n ensures InRanges(t[k - i], HEX) <==> UuidCharAt(s, k) {
      HexIff(s[k]);
      assert !Hyphen(k);
    }
    if AllIn(t, HEX) {
      forall k | i <= k < i + n ensures UuidCharAt(s, k) { assert InRanges(t[k - i], HEX); }
    }
    if forall k | i <= k < i + n :: UuidCharAt(s, k) {
      forall k | 0 <= k < n ensures InRanges(t[k], HEX) { assert UuidCharAt(s, k + i); }
    }
  }

  lemma BlockTail(s: string, i: nat, n: nat, rest: Regex)
    requires HexOnly(i, n) && Reads(rest, s, i + n)
    ensures Reads(Then(Block(HEX, n), rest), s, i)
  {
    if i <= |s| {
      BlockThen(HEX, n, rest, s[i..]);
      if i + n <= |s| {
        HexIn(s, i, n);
        assert s[i..][..n] == s[i..i + n] && s[i..][n..] == s[i + n..];
      }
    }
  }

  lemma LastBlock(s: string)
    ensures Reads(Block(HEX, 12), s, 24)
  {
    if 24 <= |s| {
      RepeatOfChars(HEX, 12, Some(12), s[24..]);
      if |s| == 36 {
        HexIn(s, 24, 12);
        assert s[24..36] == s[24..];
      }
    }
  }

  lemma ClockTail(s: string)
    ensures Reads(UuidClock(), s, 18)
  {
    LastBlock(s);
    LiteralTail(s, 23, '-', Block(HEX, 12));
    BlockTail(s, 20, 3, UuidNode());
    if 19 < |s| { VariantIff(s[19]); }
    CharTail(s, 19, VARIANT, Then(Block(HEX, 3), UuidNode()));
    LiteralTail(s, 18, '-', Then(Chars(VARIANT), Then(Block(HEX, 3), UuidNode())));
  }

  lemma VersionTail(s: string)
    ensures Reads(UuidVersion(), s, 13)
  {
    ClockTail(s);
    BlockTail(s, 15, 3, UuidClock());
    LiteralTail(s, 14, '7', Then(Block(HEX, 3), UuidClock()));
    LiteralTail(s, 13, '-', Then(Literal('7'), Then(Block(HEX, 3), UuidClock())));
  }

  lemma UuidV7Iff(s: string)
    ensures IsUuidV7(s) <==> Matches(UuidV7(), s)
  {
    VersionTail(s);
    BlockTail(s, 9, 4, UuidVersion());
    LiteralTail(s, 8, '-', Then(Block(HEX, 4), UuidVersion()));
    BlockTail(s, 0, 8, Then(Literal('-'), Then(Block(HEX, 4), UuidVersion())));
    assert s[0..] == s;
  }

  // ---------------------------------------------------------------- hint types

  /** After `n` dotted words the automaton is where it should be. */
  function HintState(n: nat): HintTypeState { if n == 0 then First else Rest }

  /** `s` is the head of a hint type and `n` dotted words. */
  ghost predicate HintWords(n: nat, s: string) { Listed(HintHead(), HintWord(), n, s) }

  lemma {:induction false} HeadRun(s: string)
    ensures HintTypeRun(s) == First <==> Matches(HintHead(), s)
    decreases |s|
  {
    HeadIff(s);
    if |s| > 1 {
      HeadRun(s[..|s| - 1]);
      HeadIff(s[..|s| - 1]);
    } else if |s| == 1 {
      assert s[..0] == "";
      assert HintTypeRun(s) == HintTypeStep(Start, s[0]);
    }
  }

  lemma HeadIff(s: string)
    ensures Matches(HintHead(), s) <==>
            s != "" && IsLower(s[0]) && forall i | 1 <= i < |s| :: IsLower(s[i]) || Strings.IsDigit(s[i])
  {
    CharThen(LOWER, Repeat(Chars(LOWER_OR_DIGIT), 0, None), s);
    if s != "" {
      LowerIff(s[0]);
      ClassTail(s, 1, LOWER_OR_DIGIT);
      forall i | 1 <= i < |s| ensures InRanges(s[i], LOWER_OR_DIGIT) <==> IsLower(s[i]) || Strings.IsDigit(s[i]) {
        LowerIff(s[i]);
      }
    }
  }

  predicate IsWordChar(c: char) { IsLower(c) || Strings.IsDigit(c) || c == '-' }

  predicate IsWord(s: string) {
    |s| >= 2 && s[0] == '.' && IsLower(s[1]) && forall i | 2 <= i < |s| :: IsWordChar(s[i])
  }

  lemma WordIff(s: string)
    ensures Matches(HintWord(), s) <==> IsWord(s)
  {
    LiteralThen('.', Then(Chars(LOWER), Repeat(Chars(WORD), 0, None)), s);
    if |s| >= 1 {
      CharThen(LOWER, Repeat(Chars(WORD), 0, None), s[1..]);
      if |s| >= 2 {
        LowerIff(s[1]);
        assert s[1..][1..] == s[2..];
        ClassTail(s, 2, WORD);
        forall i | 2 <= i < |s| ensures InRanges(s[i], WORD) <==> IsWordChar(s[i]) {
          LowerIff(s[i]);
        }
      }
    }
  }

  lemma ClassTail(s: string, n: nat, ranges: seq<(char, char)>)
    requires n <= |s|
    ensures Matches(Repeat(Chars(ranges), 0, None), s[n..]) <==> forall i | n <= i < |s| :: InRanges(s[i], ranges)
  {
    var t := s[n..];
    RepeatOfChars(ranges, 0, None, t);
    if AllIn(t, ranges) {
      forall i | n <= i < |s| ensures InRanges(s[i], ranges) { assert InRanges(t[i - n], ranges); }
    }
  }

  /** The automaton is at the end of a head or of a word. */
  predicate Pauses(q: HintTypeState) { q.First? || q.Rest? }

  /** How the automaton comes to be in a word. */
  lemma RestStep(s: string)
    ensures HintTypeRun(s) == Rest <==>
            && s != ""
            && var before, c := HintTypeRun(s[..|s| - 1]), s[|s| - 1];
               (before.Rest? && IsWordChar(c)) || (before.Dot? && IsLower(c))
  {
  }

  lemma DotStep(s: string)
    ensures HintTypeRun(s) == Dot <==> s != "" && s[|s| - 1] == '.' && Pauses(HintTypeRun(s[..|s| - 1]))
  {
  }

  /** A word cut before its last character is a word too, unless it has two characters only. */
  lemma WordStep(s: string, i: nat)
    requires i + 2 <= |s|
    ensures IsWord(s[i..]) <==>
            if i + 2 == |s| then s[i] == '.' && IsLower(s[i + 1])
            else IsWord(s[..|s| - 1][i..]) && IsWordChar(s[|s| - 1])
  {
    var t := s[..|s| - 1];
    if i + 2 < |s| {
      assert t[i..] == s[i..][..|s| - 1 - i];
      WordMore(s[i..]);
    }
  }

  lemma WordMore(w: string)
    requires |w| > 2
    ensures IsWord(w) <==> IsWord(w[..|w| - 1]) && IsWordChar(w[|w| - 1])
  {
    forall k | 0 <= k < |w| - 1 ensures w[..|w| - 1][k] == w[k] {}
    if IsWord(w[..|w| - 1]) && IsWordChar(w[|w| - 1]) {
      forall k | 2 <= k < |w| ensures IsWordChar(w[k]) { assert k < |w| - 1 ==> IsWordChar(w[..|w| - 1][k]); }
    }
  }

  /** A word read after a head or a word leaves the automaton in a word. */
  lemma {:induction false} WordRun(s: string, i: nat)
    requires i < |s| && Pauses(HintTypeRun(s[..i])) && IsWord(s[i..])
    ensures HintTypeRun(s) == Rest
    decreases |s|
  {
    var t := s[..|s| - 1];
    assert i < |t| ==> t[..i] == s[..i];
    WordStep(s, i);
    RestStep(s);
    if i + 2 < |s| {
      WordRun(t, i);
    } else {
      assert t[..|t| - 1] == s[..i];
      DotStep(t);
    }
  }

  /** Where the automaton is in a word, one has just been read after a head or a word. */
  lemma {:induction false} LastWord(s: string) returns (i: nat)
    requires HintTypeRun(s) == Rest
    ensures i < |s| && Pauses(HintTypeRun(s[..i])) && IsWord(s[i..])
    decreases |s|
  {
    var t := s[..|s| - 1];
    RestStep(s);
    if HintTypeRun(t) == Rest {
      i := LastWord(t);
      assert t[..i] == s[..i];
    } else {
      DotStep(t);
      i := |s| - 2;
      assert t[..|t| - 1] == s[..i];
    }
    WordStep(s, i);
  }

  /** Another word. */
  lemma MoreWords(n: nat, s: string, i: nat)
    requires i <= |s| && HintWords(n, s[..i]) && IsWord(s[i..])
    ensures HintWords(n + 1, s)
  {
    WordIff(s[i..]);
    ListedMore(HintHead(), HintWord(), n, s, i);
  }

  lemma FewerWords(n: nat, s: string) returns (i: nat)
    requires HintWords(n + 1, s)
    ensures i <= |s| && HintWords(n, s[..i]) && IsWord(s[i..])
  {
    i := ListedFewer(HintHead(), HintWord(), n, s);
    WordIff(s[i..]);
  }

  lemma {:induction false} WordsRun(n: nat, s: string)
    requires HintWords(n, s)
    ensures HintTypeRun(s) == HintState(n)
    decreases n
  {
    if n == 0 {
      ListedNone(HintHead(), HintWord(), s);
      HeadRun(s);
    } else {
      var i := FewerWords(n - 1, s);
      WordsRun(n - 1, s[..i]);
      WordRun(s, i);
    }
  }

  lemma {:induction false} RunWords(s: string) returns (n: nat)
    requires Pauses(HintTypeRun(s))
    ensures HintWords(n, s) && HintTypeRun(s) == HintState(n)
    decreases |s|
  {
    if HintTypeRun(s) == First {
      HeadRun(s);
      ListedNone(HintHead(), HintWord(), s);
      n := 0;
    } else {
      var i := LastWord(s);
      var m := RunWords(s[..i]);
      MoreWords(m, s, i);
      n := m + 1;
    }
  }

  /** The automaton accepts what the expression matches. */
  lemma HintTypeIff(s: string)
    ensures IsHintType(s) <==> Matches(HintType(), s)
  {
    if IsHintType(s) { HintTypeMatches(s); }
    if Matches(HintType(), s) {
      var n := MatchesListed(HintHead(), HintWord(), s);
      WordsRun(n, s);
    }
  }

  lemma HintTypeMatches(s: string)
    requires IsHintType(s)
    ensures Matches(HintType(), s)
  {
    var n := RunWords(s);
    ListedMatches(HintHead(), HintWord(), n, s);
  }

  // ---------------------------------------------------------------- sessions and hints

  /** What `isSafeSession` asks of a session, in terms of the expressions. */
  ghost predicate SoundSession(s: Session) {
    && s.active
    && Matches(OpaqueKey(), s.sessionKey) && Matches(OpaqueKey(), s.revision) && Matches(UuidV7(), s.brandId)
    && (s.storeId.Some? ==> Matches(UuidV7(), s.storeId.value))
    && |s.permissions| <= 32 && forall p <- s.permissions :: Matches(OpaqueKey(), p)
  }

  lemma SafeSessionIff(s: Session)
    ensures IsSafeSession(s) <==> SoundSession(s)
  {
    OpaqueKeyIff(s.sessionKey);
    OpaqueKeyIff(s.revision);
    UuidV7Iff(s.brandId);
    if s.storeId.Some? { UuidV7Iff(s.storeId.value); }
    forall p | p in s.permissions ensures IsOpaqueKey(p) <==> Matches(OpaqueKey(), p) { OpaqueKeyIff(p); }
  }

  /** What `isSafeHint` asks of a hint. */
  ghost predicate SoundHint(h: Hint) {
    && Matches(UuidV7(), h.messageId)
    && Matches(HintType(), h.hintType) && !("system." <= h.hintType)
    && 1 <= h.version <= 9007199254740991
    && h.occurredAtIsCanonical
    && Matches(UuidV7(), h.brandId) && (h.storeId.Some? ==> Matches(UuidV7(), h.storeId.value))
    && Matches(ResourceType(), h.resourceType) && Matches(UuidV7(), h.resourceId)
    && 1 <= h.projectionVersion <= 9007199254740991
  }

  lemma SafeHintIff(h: Hint)
    ensures IsSafeHint(h) <==> SoundHint(h)
  {
    UuidV7Iff(h.messageId);
    HintTypeIff(h.hintType);
    UuidV7Iff(h.brandId);
    if h.storeId.Some? { UuidV7Iff(h.storeId.value); }
    ResourceTypeIff(h.resourceType);
    UuidV7Iff(h.resourceId);
  }
}
