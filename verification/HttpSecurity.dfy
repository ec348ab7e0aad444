/** The request limits of `apps/api/src/http-security.ts`. */
module HttpSecurity {
  import opened Common
  import opened Strings
  import opened Regex

  // ------------------------------------------------------------- the target

  predicate Absolute(t: string) { t != "" && t[0] == '/' }

  /** `%2e` in either case. */
  predicate EncodedDotAt(s: string) { |s| >= 3 && s[0] == '%' && s[1] == '2' && s[2] in "eE" }

  /** How much of the text a dot takes that it starts with, plain or encoded. */
  function DotLength(s: string): (n: nat)
    ensures n <= |s|
  {
    if s != "" && s[0] == '.' then 1 else if EncodedDotAt(s) then 3 else 0
  }

  /** One or two dots, each plain or encoded. */
  predicate IsDots(s: string) {
    var n := DotLength(s);
    n > 0 && (n == |s| || (DotLength(s[n..]) > 0 && n + DotLength(s[n..]) == |s|))
  }

  /** `/%(?:2f|5c)/iu` finds an encoded slash or backslash. */
  predicate EncodedSeparator(s: string) { exists i | 0 <= i < |s| :: SeparatorAt(s, i) }

  predicate SeparatorAt(s: string, i: nat) {
    i + 3 <= |s| && s[i] == '%' && ((s[i + 1] == '2' && s[i + 2] in "fF") || (s[i + 1] == '5' && s[i + 2] in "cC"))
  }

  /** `/(?:^|\/)(?:\.|%2e){1,2}(?:\/|$)/iu` finds dots between two slashes, or at either end. */
  predicate DotSegment(s: string) {
    exists i, j | 0 <= i <= j <= |s| ::
      (i == 0 || s[i - 1] == '/') && (j == |s| || s[j] == '/') && IsDots(s[i..j])
  }

  /** The text with its encoded dots decoded. */
  function DecodeDots(s: string): string {
    if s == "" then ""
    else if EncodedDotAt(s) then "." + DecodeDots(s[3..])
    else [s[0]] + DecodeDots(s[1..])
  }

  // ------------------------- remove_dot_segments (section 5.2.4 of RFC 3986)

  /** Where the first path segment ends, including the slash it may start with. */
  function SegmentEnd(s: string): (n: nat)
    requires s != ""
    ensures 1 <= n <= |s| && '/' !in s[1..n] && (n < |s| ==> s[n] == '/')
  {
    if |s| == 1 || s[1] == '/' then 1
    else
      var m := SegmentEnd(s[1..]);
      assert s[1..m + 1] == [s[1]] + s[1..][1..m];
      m + 1
  }

  /** The output without its last segment and the slash before it. */
  function DropSegment(output: string): (r: string)
    ensures |r| <= |output|
  {
    if output == "" then ""
    else if output[|output| - 1] == '/' then output[..|output| - 1]
    else DropSegment(output[..|output| - 1])
  }

  function RemoveDotSegments(input: string, output: string): string
    decreases |input|
  {
    if input == "" then output
    else if "../" <= input then RemoveDotSegments(input[3..], output)
    else if "./" <= input then RemoveDotSegments(input[2..], output)
    else if "/./" <= input then RemoveDotSegments(input[2..], output)
    else if input == "/." then RemoveDotSegments("/", output)
    else if "/../" <= input then RemoveDotSegments(input[3..], DropSegment(output))
    else if input == "/.." then RemoveDotSegments("/", DropSegment(output))
    else if input == "." || input == ".." then output
    else RemoveDotSegments(input[SegmentEnd(input)..], output + input[..SegmentEnd(input)])
  }

  predicate Plain(s: string) { s == "." || s == ".." }

  predicate HasPlain(segments: seq<string>) { exists s <- segments :: Plain(s) }

  /** A text starts with a given segment. */
  lemma StartsWith(s: string, d: string)
    requires Absolute(s) && '/' !in d
    ensures s[1..SegmentEnd(s)] == d <==> s == "/" + d || "/" + d + "/" <= s
  {
    var n := SegmentEnd(s);
    if s[1..n] == d {
      assert s == "/" + d + s[n..];
    }
    if s == "/" + d || "/" + d + "/" <= s {
      assert s[1..|d| + 1] == d;
      SegmentEndIs(s, |d| + 1);
    }
  }

  lemma {:induction false} SegmentEndIs(s: string, m: nat)
    requires 1 <= m <= |s| && '/' !in s[1..m] && (m < |s| ==> s[m] == '/')
    ensures SegmentEnd(s) == m
  {
    if m > 1 {
      assert s[1] in s[1..m];
      assert s[1..][1..m - 1] == s[1..m][1..];
      SegmentEndIs(s[1..], m - 1);
    }
  }

  /** The first segment of an absolute text. */
  lemma FirstSegment(s: string)
    requires Absolute(s)
    ensures var n := SegmentEnd(s);
            && Split(s, '/')[1..] == [s[1..n]] + Split(s[n..], '/')[1..]
            && (s[n..] == "" || Absolute(s[n..]))
  {
    var n := SegmentEnd(s);
    assert s[1..] == s[1..n] + s[n..];
    SplitHead(s[1..n], s[n..], '/');
  }

  lemma DotsFirst(s: string)
    requires Absolute(s)
    ensures s[1..SegmentEnd(s)] == "." <==> "/./" <= s || s == "/."
    ensures s[1..SegmentEnd(s)] == ".." <==> "/../" <= s || s == "/.."
  {
    StartsWith(s, ".");
    StartsWith(s, "..");
    assert "/" + "." + "/" == "/./" && "/" + ".." + "/" == "/../" && "/" + "." == "/." && "/" + ".." == "/..";
  }

  lemma {:induction false} RemovalShortens(input: string, output: string)
    ensures |RemoveDotSegments(input, output)| <= |input| + |output|
    decreases |input|
  {
    if input == "" || input == "." || input == ".." {
    } else if "../" <= input {
      RemovalShortens(input[3..], output);
    } else if "./" <= input || "/./" <= input {
      RemovalShortens(input[2..], output);
    } else if input == "/." {
      RemovalShortens("/", output);
    } else if "/../" <= input {
      RemovalShortens(input[3..], DropSegment(output));
    } else if input == "/.." {
      RemovalShortens("/", DropSegment(output));
    } else {
      RemovalShortens(input[SegmentEnd(input)..], output + input[..SegmentEnd(input)]);
    }
  }

  /** On absolute paths the algorithm is the identity exactly when there is no dot segment. */
  lemma {:induction false} RemovalIdentity(input: string, output: string)
    requires input == "" || Absolute(input)
    ensures RemoveDotSegments(input, output) == output + input <==> !HasPlain(Split(input, '/')[1..])
    decreases |input|
  {
    if input == "" {
      assert Split("", '/')[1..] == [];
    } else {
      FirstSegment(input);
      var n := SegmentEnd(input);
      FirstIsPlain(input[1..n], Split(input[n..], '/')[1..]);
      if Plain(input[1..n]) {
        ShorterWithDots(input, output);
      } else {
        RemovalStep(input, output);
        RemovalIdentity(input[n..], output + input[..n]);
        Rejoin(output, input, n);
      }
    }
  }

  lemma Rejoin(a: string, s: string, n: nat)
    requires n <= |s|
    ensures a + s[..n] + s[n..] == a + s
  {
  }

  lemma FirstIsPlain(s: string, later: seq<string>)
    ensures HasPlain([s] + later) <==> Plain(s) || HasPlain(later)
  {
    forall x ensures x in [s] + later <==> x == s || x in later {}
  }

  lemma RemovalStep(input: string, output: string)
    requires Absolute(input) && !Plain(input[1..SegmentEnd(input)])
    ensures RemoveDotSegments(input, output) ==
            RemoveDotSegments(input[SegmentEnd(input)..], output + input[..SegmentEnd(input)])
  {
    DotsFirst(input);
  }

  lemma ShorterWithDots(input: string, output: string)
    requires Absolute(input) && Plain(input[1..SegmentEnd(input)])
    ensures |RemoveDotSegments(input, output)| < |input| + |output|
  {
    DotsFirst(input);
    if "/./" <= input {
      RemovalShortens(input[2..], output);
    } else if input == "/." {
      RemovalShortens("/", output);
    } else if "/../" <= input {
      RemovalShortens(input[3..], DropSegment(output));
    } else {
      RemovalShortens("/", DropSegment(output));
    }
  }

  // ----------------------------------------------- the expression and the path

  lemma DotDecoded(s: string)
    ensures DotLength(s) > 0 ==> DecodeDots(s) == "." + DecodeDots(s[DotLength(s)..])
    ensures DotLength(s) == 0 && s != "" ==> DecodeDots(s) != "" && DecodeDots(s)[0] != '.'
    ensures DecodeDots(s) == "" <==> s == ""
  {
  }

  lemma AfterDot(x: string)
    ensures "." + x == "." <==> x == ""
    ensures "." + x == ".." <==> x == "."
  {
    assert ("." + x)[1..] == x;
  }

  lemma DotsDecoded(s: string)
    ensures IsDots(s) <==> Plain(DecodeDots(s))
    ensures IsDots(s) ==> '/' !in s
  {
    var n := DotLength(s);
    DotDecoded(s);
    if n > 0 {
      DotDecoded(s[n..]);
      DotDecoded(s[n..][DotLength(s[n..])..]);
      AfterDot(DecodeDots(s[n..]));
      AfterDot(DecodeDots(s[n..][DotLength(s[n..])..]));
      assert s == s[..n] + s[n..];
    }
  }

  // ------------------------------------------------ what acceptance means

  function DecodeAll(parts: seq<string>): (r: seq<string>)
    ensures |r| == |parts|
  {
    if parts == [] then [] else [DecodeDots(parts[0])] + DecodeAll(parts[1..])
  }

  /** Decoding dots and splitting at slashes commute. */
  lemma {:induction false} DecodeSplit(s: string)
    ensures Split(DecodeDots(s), '/') == DecodeAll(Split(s, '/'))
    decreases |s|
  {
    if '/' !in s {
      SplitWhole(s, '/');
      NoSlashDecoded(s);
      SplitWhole(DecodeDots(s), '/');
      assert DecodeAll([s]) == [DecodeDots(s)] + DecodeAll([s][1..]);
    } else {
      var n := First(s, '/');
      var rest := s[n + 1..];
      assert s == s[..n] + "/" + rest;
      SplitAt(s[..n], rest, '/');
      SplitWhole(s[..n], '/');
      DecodeAround(s[..n], rest);
      NoSlashDecoded(s[..n]);
      SplitAt(DecodeDots(s[..n]), DecodeDots(rest), '/');
      SplitWhole(DecodeDots(s[..n]), '/');
      DecodeSplit(rest);
      assert ([s[..n]] + Split(rest, '/'))[1..] == Split(rest, '/');
    }
  }

  lemma {:induction false} NoSlashDecoded(s: string)
    requires '/' !in s
    ensures '/' !in DecodeDots(s)
    decreases |s|
  {
    if s != "" { NoSlashDecoded(if EncodedDotAt(s) then s[3..] else s[1..]); }
  }

  lemma {:induction false} DecodeAround(a: string, b: string)
    requires '/' !in a
    ensures DecodeDots(a + "/" + b) == DecodeDots(a) + "/" + DecodeDots(b)
    decreases |a|
  {
    var s := a + "/" + b;
    if a == "" {
      assert s == "/" + b && s[1..] == b;
    } else {
      assert EncodedDotAt(s) ==> s[2] != '/' && s[1] != '/';
      var n := if EncodedDotAt(a) then 3 else 1;
      assert EncodedDotAt(s) <==> EncodedDotAt(a);
      assert s[n..] == a[n..] + "/" + b;
      DecodeAround(a[n..], b);
    }
  }

  predicate HasDots(parts: seq<string>) { exists p <- parts :: IsDots(p) }

  /** The expression finds a dot segment exactly when one of the parts between slashes is one. */
  lemma DotSegmentIff(s: string)
    ensures DotSegment(s) <==> HasDots(Split(s, '/'))
  {
    if DotSegment(s) {
      var i, j :| 0 <= i <= j <= |s| && (i == 0 || s[i - 1] == '/') && (j == |s| || s[j] == '/') && IsDots(s[i..j]);
      DotsDecoded(s[i..j]);
      BetweenIsPart(s, '/', i, j);
    }
    if HasDots(Split(s, '/')) {
      var p :| p in Split(s, '/') && IsDots(p);
      var i, j := PartIsBetween(s, '/', p);
    }
  }

  lemma {:induction false} PlainDecoded(parts: seq<string>)
    ensures HasPlain(DecodeAll(parts)) <==> HasDots(parts)
  {
    if parts != [] {
      PlainDecoded(parts[1..]);
      DotsDecoded(parts[0]);
      FirstIsPlain(DecodeDots(parts[0]), DecodeAll(parts[1..]));
      FirstIsDots(parts[0], parts[1..]);
      assert parts == [parts[0]] + parts[1..];
    }
  }

  lemma FirstIsDots(p: string, later: seq<string>)
    ensures HasDots([p] + later) <==> IsDots(p) || HasDots(later)
  {
    forall x ensures x in [p] + later <==> x == p || x in later {}
  }

  /** Removing dot segments, before or after decoding dots, changes nothing. */
  predicate Normal(path: string) {
    RemoveDotSegments(path, "") == path && RemoveDotSegments(DecodeDots(path), "") == DecodeDots(path)
  }

  /** An absolute path is in normal form exactly when the expression finds nothing in it. */
  lemma NormalIff(path: string)
    requires Absolute(path)
    ensures Normal(path) <==> !DotSegment(path)
    ensures RemoveDotSegments(DecodeDots(path), "") == DecodeDots(path) <==> !DotSegment(path)
  {
    DotSegmentIff(path);
    var parts, decoded := Split(path, '/'), DecodeDots(path);
    AbsoluteSplit(path);
    AbsoluteSplit(decoded);
    DecodeSplit(path);
    RemovalIdentity(path, "");
    RemovalIdentity(decoded, "");
    PlainDecoded(parts[1..]);
    assert DecodeAll(parts)[1..] == DecodeAll(parts[1..]);
    assert parts == [parts[0]] + parts[1..];
    FirstIsDots(parts[0], parts[1..]);
    PlainIsDots(parts[1..]);
    assert "" + path == path && "" + decoded == decoded;
  }

  lemma AbsoluteSplit(s: string)
    requires Absolute(s)
    ensures Split(s, '/')[0] == "" && Absolute(DecodeDots(s))
  {
  }

  lemma PlainIsDots(parts: seq<string>)
    ensures HasPlain(parts) ==> HasDots(parts)
  {
    if HasPlain(parts) {
      var s :| s in parts && Plain(s);
      assert IsDots(s);
    }
  }

  /** Decoding dots makes no separator. */
  lemma {:induction false} NoNewSeparator(s: string)
    ensures EncodedSeparator(DecodeDots(s)) ==> EncodedSeparator(s)
    decreases |s|
  {
    if EncodedSeparator(DecodeDots(s)) {
      var i :| 0 <= i < |DecodeDots(s)| && SeparatorAt(DecodeDots(s), i);
      var n := if EncodedDotAt(s) then 3 else 1;
      NoNewSeparator(s[n..]);
      if i > 0 {
        assert SeparatorAt(DecodeDots(s[n..]), i - 1);
        var j :| 0 <= j < |s[n..]| && SeparatorAt(s[n..], j);
        assert SeparatorAt(s, j + n);
      } else {
        Undecoded(s[1..]);
        Undecoded(s[2..]);
        assert SeparatorAt(s, 0);
      }
    }
  }

  lemma Undecoded(s: string)
    requires DecodeDots(s) != "" && DecodeDots(s)[0] != '.'
    ensures s != "" && s[0] == DecodeDots(s)[0] && DecodeDots(s)[1..] == DecodeDots(s[1..])
  {
  }

  /**
   * What is accepted: an absolute target without query is let through exactly when it has no encoded separator and
   * the removal of dot segments does nothing to it once its dots are decoded; then it does nothing to the target
   * itself either, and decoding has brought no separator about.
   */
  lemma AcceptedIff(t: string)
    requires Absolute(t)
    ensures Accepted(t) <==> !EncodedSeparator(t) && RemoveDotSegments(DecodeDots(t), "") == DecodeDots(t)
    ensures Accepted(t) ==> Normal(t) && !EncodedSeparator(DecodeDots(t))
  {
    NormalIff(t);
    NoNewSeparator(t);
  }

  // ----------------------------------------------------- targets with a query

  /** The path of a target: what comes before the first `?` or `#`. */
  function PathOf(t: string): string {
    if t == "" || t[0] == '?' || t[0] == '#' then "" else [t[0]] + PathOf(t[1..])
  }

  /** What follows the last slash. */
  function LastSegment(path: string): string {
    if '/' !in path then path else LastSegment(path[First(path, '/') + 1..])
  }

  predicate Accepted(t: string) { !EncodedSeparator(t) && !DotSegment(t) }

  lemma {:induction false} PathPrefix(t: string)
    ensures PathOf(t) <= t && (PathOf(t) == t || t[|PathOf(t)|] in "?#")
  {
    if t != "" && t[0] !in "?#" { PathPrefix(t[1..]); }
  }

  /** The parts before the last slash. */
  function Before(path: string): seq<string> {
    if '/' !in path then []
    else [path[..First(path, '/')]] + Before(path[First(path, '/') + 1..])
  }

  /** What follows a path only changes what its last segment is split into. */
  lemma {:induction false} LastPart(path: string, rest: string)
    ensures Split(path + rest, '/') == Before(path) + Split(LastSegment(path) + rest, '/')
    decreases |path|
  {
    if '/' in path {
      var n := First(path, '/');
      var later := path[n + 1..];
      assert path + rest == path[..n] + "/" + (later + rest);
      SplitAt(path[..n], later + rest, '/');
      SplitWhole(path[..n], '/');
      LastPart(later, rest);
      Assoc([path[..n]], Before(later), Split(LastSegment(path) + rest, '/'));
    }
  }

  lemma {:induction false} LastHasNoSlash(path: string)
    ensures '/' !in LastSegment(path)
    decreases |path|
  {
    if '/' in path { LastHasNoSlash(path[First(path, '/') + 1..]); }
  }

  /**
   * With a query or fragment the expression does not see the end of the path: an accepted target has a path in
   * normal form exactly when its last segment is not one or two dots.
   */
  lemma QueryNormalIff(t: string)
    requires Absolute(t) && Accepted(t)
    ensures Absolute(PathOf(t))
    ensures Normal(PathOf(t)) <==> !IsDots(LastSegment(PathOf(t)))
    ensures PathOf(t) == t ==> Normal(PathOf(t))
  {
    PathPrefix(t);
    NormalIff(PathOf(t));
    DotsAtEnd(t);
  }

  /** In an accepted target only the last segment of the path can be dots. */
  lemma DotsAtEnd(t: string)
    requires !DotSegment(t)
    ensures DotSegment(PathOf(t)) <==> IsDots(LastSegment(PathOf(t)))
  {
    var path := PathOf(t);
    PathPrefix(t);
    DotSegmentIff(path);
    DotSegmentIff(t);
    var before, last, rest := Before(path), LastSegment(path), t[|path|..];
    assert t == path + rest;
    LastPart(path, rest);
    SplitAtLast(path);
    EndIsDots(before, Split(last + rest, '/'), last);
  }

  lemma SplitAtLast(path: string)
    ensures Split(path, '/') == Before(path) + [LastSegment(path)]
  {
    var last := LastSegment(path);
    assert path + "" == path && last + "" == last;
    LastPart(path, "");
    LastHasNoSlash(path);
    SplitWhole(last, '/');
  }

  lemma EndIsDots(before: seq<string>, later: seq<string>, last: string)
    requires !HasDots(before + later)
    ensures HasDots(before + [last]) <==> IsDots(last)
  {
    forall p | p in before ensures !IsDots(p) { assert p in before + later; }
    assert (before + [last])[|before|] == last;
  }

  /** Such a target gets through with a path that is not in normal form. */
  lemma QueryHidesDots()
    ensures Accepted("/a/..?q") && Absolute("/a/..?q") && !Normal(PathOf("/a/..?q"))
  {
    ExampleHasNoDots();
    assert forall i | 0 <= i < |"/a/..?q"| :: "/a/..?q"[i] != '%';
    PathOfExample();
    ExampleIsNotNormal();
  }

  lemma TwoSegments(a: string, b: string)
    requires '/' !in a && '/' !in b && !IsDots(a) && !IsDots(b)
    ensures !DotSegment("/" + a + "/" + b)
  {
    var rest := a + "/" + b;
    SplitWhole("", '/');
    SplitWhole(a, '/');
    SplitWhole(b, '/');
    SplitAt(a, b, '/');
    SplitAt("", rest, '/');
    assert "" + "/" + rest == "/" + a + "/" + b;
    assert Split("/" + a + "/" + b, '/') == ["", a, b];
    DotSegmentIff("/" + a + "/" + b);
  }

  lemma ExampleHasNoDots()
    ensures !DotSegment("/a/..?q")
  {
    NotDots();
    TwoSegments("a", "..?q");
    assert "/" + "a" + "/" + "..?q" == "/a/..?q";
  }

  lemma NotDots()
    ensures !IsDots("") && !IsDots("a") && !IsDots("..?q")
  {
    assert "..?q"[1..] == ".?q";
  }

  lemma ExampleIsNotNormal()
    ensures !Normal("/a/..")
  {
    var path := "/a/..";
    assert path[3..5] == "..";
    assert IsDots(path[3..5]) && path[2] == '/';
    NormalIff(path);
  }

  lemma PathOfExample()
    ensures PathOf("/a/..?q") == "/a/.."
  {
    assert PathOf("..?q") == "..";
    assert PathOf("/..?q") == "/..";
    assert PathOf("a/..?q") == "a/..";
  }

  // ------------------------------------------------------ the two expressions

  /** /%(?:2f|5c)/iu */
  function Separator(): Regex {
    Then(Literal('%'), Either(Then(Literal('2'), Chars([('f', 'f'), ('F', 'F')])),
                              Then(Literal('5'), Chars([('c', 'c'), ('C', 'C')]))))
  }

  /** (?:\.|%2e) of /(?:^|\/)(?:\.|%2e){1,2}(?:\/|$)/iu */
  function Dot(): Regex {
    Either(Literal('.'), Then(Literal('%'), Then(Literal('2'), Chars([('e', 'e'), ('E', 'E')]))))
  }

  function Dots(): Regex { Repeat(Dot(), 1, Some(2)) }

  lemma EitherCase(a: char, b: char, c: char)
    ensures InRanges(c, [(a, a), (b, b)]) <==> c == a || c == b
  {
    assert [(a, a), (b, b)][0] == (a, a) && [(a, a), (b, b)][1] == (b, b);
  }

  lemma SeparatorIff(s: string)
    ensures Matches(Separator(), s) <==> |s| == 3 && SeparatorAt(s, 0)
  {
    LiteralThen('%', Separator().second, s);
    if |s| >= 1 {
      var t := s[1..];
      LiteralThen('2', Chars([('f', 'f'), ('F', 'F')]), t);
      LiteralThen('5', Chars([('c', 'c'), ('C', 'C')]), t);
      if |s| == 3 {
        EitherCase('f', 'F', s[2]);
        EitherCase('c', 'C', s[2]);
      }
    }
  }

  /** The first expression finds what is called an encoded separator. */
  lemma EncodedSeparatorIff(s: string)
    ensures EncodedSeparator(s) <==> Finds(Separator(), s)
  {
    if EncodedSeparator(s) {
      var i :| 0 <= i < |s| && SeparatorAt(s, i);
      SeparatorIff(s[i..i + 3]);
      assert Matches(Separator(), s[i..i + 3]);
    }
    if Finds(Separator(), s) {
      var i, j :| 0 <= i <= j <= |s| && Matches(Separator(), s[i..j]);
      SeparatorIff(s[i..j]);
      assert SeparatorAt(s, i);
    }
  }

  lemma DotIff(s: string)
    ensures Matches(Dot(), s) <==> s != "" && DotLength(s) == |s|
  {
    LiteralIff('.', s);
    LiteralThen('%', Then(Literal('2'), Chars([('e', 'e'), ('E', 'E')])), s);
    if |s| >= 1 {
      LiteralThen('2', Chars([('e', 'e'), ('E', 'E')]), s[1..]);
      if |s| == 3 { EitherCase('e', 'E', s[2]); }
    }
  }

  lemma DotsIff(s: string)
    ensures IsDots(s) <==> Matches(Dots(), s)
  {
    OneOrTwo(Dot(), s);
    DotIff(s);
    forall i | 0 <= i <= |s|
      ensures Matches(Dot(), s[..i]) && Matches(Dot(), s[i..]) <==>
              0 < i < |s| && DotLength(s) == i && DotLength(s[i..]) == |s| - i
    {
      DotIff(s[..i]);
      DotIff(s[i..]);
    }
  }

  /** The second expression matches dots between slashes or ends. */
  lemma DotSegmentFound(s: string)
    ensures DotSegment(s) <==>
            exists i, j :: && 0 <= i <= j <= |s| && Matches(Dots(), s[i..j])
                           && (i == 0 || s[i - 1] == '/') && (j == |s| || s[j] == '/')
  {
    forall i, j | 0 <= i <= j <= |s| ensures IsDots(s[i..j]) <==> Matches(Dots(), s[i..j]) { DotsIff(s[i..j]); }
  }
}
