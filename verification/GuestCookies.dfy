/**
 * The guest cookie is read twice, in `apps/api/src/customer-cart.ts` and in `apps/api/src/customer-quote.ts`, by
 * two parsers that agree on all headers but those with a part that is the bare cookie name.
 */
module GuestCookies {
  import opened Common
  import opened Strings
  import opened Regex

  const NAME: string := "__Host-bop-guest"

  predicate IsCredentialChar(c: char) {
    'A' <= c <= 'Z' || 'a' <= c <= 'z' || '0' <= c <= '9' || c == '_' || c == '-'
  }

  predicate IsCredential(s: string) { |s| == 43 && forall i | 0 <= i < 43 :: IsCredentialChar(s[i]) }

  /** What `String.prototype.trim` removes. */
  predicate IsSpace(c: char) {
    || c == ' ' || '\t' <= c <= '\r' || c == 0xA0 as char || c == 0x1680 as char
    || 0x2000 as char <= c <= 0x200A as char || c == 0x2028 as char || c == 0x2029 as char || c == 0x202F as char
    || c == 0x205F as char || c == 0x3000 as char || c == 0xFEFF as char
  }

  function TrimStart(s: string): string { if s != "" && IsSpace(s[0]) then TrimStart(s[1..]) else s }

  function TrimEnd(s: string): string {
    if s != "" && IsSpace(s[|s| - 1]) then TrimEnd(s[..|s| - 1]) else s
  }

  function Trim(s: string): string { TrimEnd(TrimStart(s)) }

  function TrimAll(parts: seq<string>): seq<string> {
    if parts == [] then [] else [Trim(parts[0])] + TrimAll(parts[1..])
  }

  // ---------------------------------------------------------- the cart's parser

  predicate IsPair(part: string) { NAME + "=" <= part }

  function PairValues(parts: seq<string>): seq<string> {
    if parts == [] then []
    else if IsPair(parts[0]) then [parts[0][|NAME| + 1..]] + PairValues(parts[1..])
    else PairValues(parts[1..])
  }

  function TheCredential(values: seq<string>): Option<string> {
    if |values| == 1 && IsCredential(values[0]) then Some(values[0]) else None
  }

  /** `guestCredential` of the cart without the cap on the length of the header. */
  function UncappedCart(header: string): Option<string> {
    TheCredential(PairValues(TrimAll(Split(header, ';'))))
  }

  /** `guestCredential` of the cart; nothing is returned where it throws. */
  function Cart(header: Option<string>): Option<string> {
    if header.None? || |header.value| > 4096 then None else UncappedCart(header.value)
  }

  // --------------------------------------------------------- the quote's parser

  function NamedPairs(parts: seq<string>): seq<seq<string>> {
    if parts == [] then []
    else
      var pair := Split(parts[0], '=');
      if pair[0] == NAME then [pair] + NamedPairs(parts[1..]) else NamedPairs(parts[1..])
  }

  function ThePair(pairs: seq<seq<string>>): Option<string> {
    if |pairs| == 1 && |pairs[0]| == 2 && IsCredential(pairs[0][1]) then Some(pairs[0][1]) else None
  }

  /** `guestCredential` of the quote. */
  function QuoteOf(header: string): Option<string> { ThePair(NamedPairs(TrimAll(Split(header, ';')))) }

  function Quote(header: Option<string>): Option<string> {
    if header.None? then None else QuoteOf(header.value)
  }

  // ------------------------------------------------------------ how they compare

  predicate HasBareName(parts: seq<string>) { NAME in parts }

  lemma NameClean()
    ensures Clean(NAME) && '=' !in NAME && NAME != ""
  {
  }

  /** The first part of a text split at equals signs. */
  lemma FirstName(part: string, name: string)
    requires '=' !in name
    ensures Split(part, '=')[0] == name <==> part == name || name + "=" <= part
    ensures name + "=" <= part ==> Split(part, '=') == [name] + Split(part[|name| + 1..], '=')
    ensures part == name ==> Split(part, '=') == [name]
  {
    if name + "=" <= part {
      var value := part[|name| + 1..];
      assert part == name + "=" + value;
      SplitAt(name, value, '=');
      SplitWhole(name, '=');
    }
    if '=' in part {
      var n := First(part, '=');
      var value := part[n + 1..];
      assert part == part[..n] + "=" + value;
      SplitAt(part[..n], value, '=');
      SplitWhole(part[..n], '=');
    } else {
      SplitWhole(part, '=');
    }
  }

  /** The name the quote sees is the one the cart looks for, or stands alone. */
  lemma NameOfPart(part: string)
    ensures Split(part, '=')[0] == NAME <==> part == NAME || IsPair(part)
    ensures IsPair(part) ==> Split(part, '=') == [NAME] + Split(part[|NAME| + 1..], '=')
    ensures part == NAME ==> Split(part, '=') == [NAME]
  {
    NameClean();
    FirstName(part, NAME);
  }

  function PairsOf(values: seq<string>): seq<seq<string>> {
    if values == [] then [] else [[NAME] + Split(values[0], '=')] + PairsOf(values[1..])
  }

  lemma {:induction false} NoBareName(parts: seq<string>)
    requires !HasBareName(parts)
    ensures NamedPairs(parts) == PairsOf(PairValues(parts))
  {
    if parts != [] {
      NameOfPart(parts[0]);
      assert parts[0] != NAME;
      NoBareName(parts[1..]);
    }
  }

  lemma {:induction false} BareName(parts: seq<string>)
    requires HasBareName(parts)
    ensures [NAME] in NamedPairs(parts)
  {
    NameOfPart(parts[0]);
    if parts[0] != NAME {
      BareName(parts[1..]);
    }
  }

  lemma CredentialHasNoEquals(s: string)
    requires IsCredential(s)
    ensures '=' !in s && ';' !in s && forall c <- s :: !IsSpace(c)
  {
    forall c | c in s ensures c != '=' && c != ';' && !IsSpace(c) {
      var i :| 0 <= i < |s| && s[i] == c;
      assert IsCredentialChar(s[i]);
    }
  }

  lemma SamePairs(values: seq<string>)
    ensures ThePair(PairsOf(values)) == TheCredential(values)
  {
    if |values| >= 2 {
      assert |PairsOf(values)| >= 2 by { assert |PairsOf(values[1..])| >= 1; }
    } else if |values| == 1 {
      var pair := [NAME] + Split(values[0], '=');
      assert PairsOf(values[1..]) == [];
      assert PairsOf(values) == [pair];
      if IsCredential(values[0]) {
        CredentialHasNoEquals(values[0]);
        SplitWhole(values[0], '=');
      } else if |pair| == 2 {
        OnePart(values[0]);
      }
    }
  }

  lemma OnePart(s: string)
    requires |Split(s, '=')| == 1
    ensures Split(s, '=') == [s]
  {
    JoinSplit(s, '=');
  }

  /**
   * The parsers compared: the quote returns a credential exactly when the cart without its cap does and no
   * trimmed part of the header is the bare cookie name.
   */
  lemma ParsersCompared(header: string, c: string)
    ensures QuoteOf(header) == Some(c) <==>
            UncappedCart(header) == Some(c) && !HasBareName(TrimAll(Split(header, ';')))
  {
    var parts := TrimAll(Split(header, ';'));
    if HasBareName(parts) {
      BareNameRefused(parts);
    } else {
      NoBareName(parts);
      SamePairs(PairValues(parts));
    }
  }

  lemma BareNameRefused(parts: seq<string>)
    requires HasBareName(parts)
    ensures ThePair(NamedPairs(parts)) == None
  {
    BareName(parts);
    OnlyBareName(NamedPairs(parts));
  }

  lemma OnlyBareName(pairs: seq<seq<string>>)
    requires [NAME] in pairs
    ensures ThePair(pairs) == None
  {
    if |pairs| == 1 { assert pairs[0] == [NAME]; }
  }

  // ----------------------------------------------- what a client sends is found

  datatype Pair = Pair(name: string, value: string)

  function Print(p: Pair): string { p.name + "=" + p.value }

  predicate Clean(s: string) { forall c <- s :: c != ';' && !IsSpace(c) }

  /** A pair of a cookie string; section 4.2.1 of RFC 6265 allows less. */
  predicate IsCookie(p: Pair) { Clean(p.name) && '=' !in p.name && Clean(p.value) }

  predicate IsOther(p: Pair) { IsCookie(p) && p.name != NAME }

  /** The parts of a cookie string: pairs, with a space before all but the first. */
  function PartsOf(pairs: seq<Pair>): seq<string> {
    seq(|pairs|, i requires 0 <= i < |pairs| => if i == 0 then Print(pairs[0]) else " " + Print(pairs[i]))
  }

  function CookieString(pairs: seq<Pair>): string { Join(PartsOf(pairs), ';') }

  function Printed(pairs: seq<Pair>): seq<string> {
    if pairs == [] then [] else [Print(pairs[0])] + Printed(pairs[1..])
  }

  lemma TrimPair(p: Pair)
    requires IsCookie(p)
    ensures Trim(Print(p)) == Print(p) && Trim(" " + Print(p)) == Print(p)
    ensures ';' !in Print(p)
  {
    var s := Print(p);
    forall c | c in s ensures !IsSpace(c) && c != ';' {
      assert c in p.name || c == '=' || c in p.value;
    }
    assert !IsSpace(s[0]) && !IsSpace(s[|s| - 1]);
    assert (" " + s)[1..] == s;
    assert TrimStart(" " + s) == TrimStart(s);
  }

  lemma {:induction false} TrimmedParts(parts: seq<string>, pairs: seq<Pair>)
    requires |parts| == |pairs|
    requires forall i | 0 <= i < |pairs| :: Trim(parts[i]) == Print(pairs[i])
    ensures TrimAll(parts) == Printed(pairs)
  {
    if parts != [] { TrimmedParts(parts[1..], pairs[1..]); }
  }

  lemma PartsFound(pairs: seq<Pair>)
    requires pairs != [] && forall p <- pairs :: IsCookie(p)
    ensures TrimAll(Split(CookieString(pairs), ';')) == Printed(pairs)
  {
    var parts := PartsOf(pairs);
    forall i | 0 <= i < |pairs| ensures Trim(parts[i]) == Print(pairs[i]) && ';' !in parts[i] {
      TrimPair(pairs[i]);
    }
    SplitJoin(parts, ';');
    TrimmedParts(parts, pairs);
  }

  lemma OtherName(p: Pair)
    requires IsOther(p)
    ensures !IsPair(Print(p)) && Print(p) != NAME
  {
    NameClean();
    FirstName(Print(p), NAME);
    FirstName(Print(p), p.name);
    assert p.name + "=" <= Print(p);
  }

  lemma {:induction false} OthersGiveNothing(pairs: seq<Pair>)
    requires forall p <- pairs :: IsOther(p)
    ensures PairValues(Printed(pairs)) == [] && !HasBareName(Printed(pairs))
  {
    if pairs != [] {
      OtherName(pairs[0]);
      OthersGiveNothing(pairs[1..]);
    }
  }

  lemma {:induction false} ValuesAround(before: seq<Pair>, c: string, after: seq<Pair>)
    requires (forall p <- before :: IsOther(p)) && forall p <- after :: IsOther(p)
    ensures var parts := Printed(before + [Pair(NAME, c)] + after);
            PairValues(parts) == [c] && !HasBareName(parts)
  {
    var pairs := before + [Pair(NAME, c)] + after;
    if before == [] {
      assert pairs == [Pair(NAME, c)] + after;
      OthersGiveNothing(after);
      var s := Print(Pair(NAME, c));
      assert s[|NAME| + 1..] == c && NAME + "=" <= s;
      assert |s| > |NAME|;
    } else {
      assert pairs[1..] == before[1..] + [Pair(NAME, c)] + after;
      OtherName(before[0]);
      ValuesAround(before[1..], c, after);
    }
  }

  /** A valid guest pair among pairs with other names, wherever it stands, is found by both parsers. */
  lemma GuestFound(before: seq<Pair>, c: string, after: seq<Pair>)
    requires IsCredential(c) && (forall p <- before :: IsOther(p)) && forall p <- after :: IsOther(p)
    ensures var header := CookieString(before + [Pair(NAME, c)] + after);
            && Quote(Some(header)) == Some(c)
            && Cart(Some(header)) == (if |header| <= 4096 then Some(c) else None)
  {
    var pairs := before + [Pair(NAME, c)] + after;
    forall p | p in pairs ensures IsCookie(p) {
      GuestIsCookie(c);
      assert p in before || p == Pair(NAME, c) || p in after;
    }
    PartsFound(pairs);
    ValuesAround(before, c, after);
    OneValue(CookieString(pairs), Printed(pairs), c);
  }

  lemma GuestIsCookie(c: string)
    requires IsCredential(c)
    ensures IsCookie(Pair(NAME, c))
  {
    NameClean();
    CredentialHasNoEquals(c);
  }

  lemma OneValue(header: string, parts: seq<string>, c: string)
    requires parts == TrimAll(Split(header, ';')) && PairValues(parts) == [c] && IsCredential(c)
    ensures UncappedCart(header) == Some(c)
    ensures QuoteOf(header) == if HasBareName(parts) then None else Some(c)
  {
    ParsersCompared(header, c);
    if QuoteOf(header).Some? { ParsersCompared(header, QuoteOf(header).value); }
  }

  /** The bare name makes the difference: the cart passes over it, the quote refuses the header. */
  lemma BareNameDivides(c: string)
    requires IsCredential(c)
    ensures var header := NAME + "; " + NAME + "=" + c;
            Cart(Some(header)) == Some(c) && Quote(Some(header)) == None
  {
    var header := NAME + "; " + NAME + "=" + c;
    assert header == NAME + ";" + (" " + Print(Pair(NAME, c)));
    BareThenPair(NAME, Pair(NAME, c)) by { GuestIsCookie(c); }
    ValuesAround([], c, []);
    assert [] + [Pair(NAME, c)] + [] == [Pair(NAME, c)];
    BareFirst(Pair(NAME, c));
    OneValue(header, [NAME, Print(Pair(NAME, c))], c);
  }

  lemma BareFirst(p: Pair)
    requires PairValues(Printed([p])) == [p.value]
    ensures PairValues([NAME, Print(p)]) == [p.value] && HasBareName([NAME, Print(p)])
  {
    assert [NAME, Print(p)][1..] == [Print(p)];
    assert [p][1..] == [] && Printed([]) == [];
    assert Printed([p]) == [Print(p)];
    assert !IsPair(NAME) by { assert |NAME + "="| > |NAME|; }
  }

  lemma BareThenPair(name: string, p: Pair)
    requires IsCookie(p) && p.name == name && name != ""
    ensures TrimAll(Split(name + ";" + (" " + Print(p)), ';')) == [name, Print(p)]
  {
    var second := " " + Print(p);
    TrimPair(p);
    TwoParts(name, second);
    assert !IsSpace(name[0]) && !IsSpace(name[|name| - 1]);
    assert Trim(name) == name;
    TrimTwo(name, second);
  }

  lemma TwoParts(a: string, b: string)
    requires ';' !in a && ';' !in b
    ensures Split(a + ";" + b, ';') == [a, b]
  {
    SplitAt(a, b, ';');
    SplitWhole(a, ';');
    SplitWhole(b, ';');
    assert a + ";" + b == a + [';'] + b && [a] + [b] == [a, b];
  }

  lemma TrimTwo(a: string, b: string)
    ensures TrimAll([a, b]) == [Trim(a), Trim(b)]
  {
    assert [a, b][1..] == [b] && [b][1..] == [];
    assert TrimAll([b]) == [Trim(b)] by { assert TrimAll([]) == []; }
  }

  // ------------------------------------------------------ characters

  const CREDENTIAL: seq<(char, char)> := [('A', 'Z'), ('a', 'z'), ('0', '9'), ('_', '_'), ('-', '-')]

  /** /^[A-Za-z0-9_-]{43}$/u */
  lemma CredentialIff(s: string)
    ensures IsCredential(s) <==> Matches(Block(CREDENTIAL, 43), s)
  {
    RepeatOfChars(CREDENTIAL, 43, Some(43), s);
    forall c ensures InRanges(c, CREDENTIAL) <==> IsCredentialChar(c) { CredentialChar(c); }
  }

  lemma CredentialChar(c: char)
    ensures InRanges(c, CREDENTIAL) <==> IsCredentialChar(c)
  {
    assert CREDENTIAL[0] == ('A', 'Z') && CREDENTIAL[1] == ('a', 'z') && CREDENTIAL[2] == ('0', '9');
    assert CREDENTIAL[3] == ('_', '_') && CREDENTIAL[4] == ('-', '-');
  }

  /** The white space and the line terminators of ECMAScript (sections 12.2 and 12.3 of ECMA-262). */
  const SPACES: set<int> :=
    {0x09, 0x0A, 0x0B, 0x0C, 0x0D, 0x20, 0xA0, 0x1680, 0x2000, 0x2001, 0x2002, 0x2003, 0x2004, 0x2005, 0x2006, 0x2007,
     0x2008, 0x2009, 0x200A, 0x2028, 0x2029, 0x202F, 0x205F, 0x3000, 0xFEFF}

  lemma SpaceIff(c: char)
    ensures IsSpace(c) <==> c as int in SPACES
  {
  }

  predicate AllSpace(s: string) { forall c <- s :: IsSpace(c) }

  /** A text that neither starts nor ends with space. */
  predicate IsTrimmed(t: string) { t != "" ==> !IsSpace(t[0]) && !IsSpace(t[|t| - 1]) }

  lemma {:induction false} TrimStartIs(s: string) returns (a: string)
    ensures AllSpace(a) && s == a + TrimStart(s)
    ensures TrimStart(s) != "" ==> !IsSpace(TrimStart(s)[0])
  {
    a := "";
    if s != "" && IsSpace(s[0]) {
      a := TrimStartIs(s[1..]);
      a := [s[0]] + a;
    }
  }

  lemma {:induction false} TrimEndIs(s: string) returns (b: string)
    ensures AllSpace(b) && s == TrimEnd(s) + b
    ensures TrimEnd(s) != "" ==> !IsSpace(TrimEnd(s)[|TrimEnd(s)| - 1])
  {
    b := "";
    if s != "" && IsSpace(s[|s| - 1]) {
      b := TrimEndIs(s[..|s| - 1]);
      b := b + [s[|s| - 1]];
    }
  }

  /** What trimming gives, and what it takes away. */
  lemma TrimIs(s: string) returns (a: string, b: string)
    ensures IsTrimmed(Trim(s)) && AllSpace(a) && AllSpace(b) && s == a + Trim(s) + b
  {
    var t := TrimStart(s);
    a := TrimStartIs(s);
    b := TrimEndIs(t);
    if Trim(s) != "" { assert Trim(s)[0] == t[0]; }
  }

  /** The cookie by its name: a header that consists of it alone is read by both parsers. */
  lemma GuestAlone(c: string)
    requires Matches(Block(CREDENTIAL, 43), c)
    ensures var header := "__Host-bop-guest" + "=" + c; Cart(Some(header)) == Some(c) && Quote(Some(header)) == Some(c)
  {
    CredentialIff(c);
    GuestFound([], c, []);
    var pairs := [] + [Pair(NAME, c)] + [];
    assert pairs == [Pair(NAME, c)];
    assert PartsOf(pairs) == [Print(Pair(NAME, c))];
    assert CookieString(pairs) == "__Host-bop-guest" + "=" + c;
    assert |"__Host-bop-guest" + "=" + c| == 60;
  }
}
