/** Text: digits, and splitting at a separator as `String.prototype.split` does for one character. */
module Strings {
  predicate IsDigit(c: char) { '0' <= c <= '9' }

  function Split(s: string, c: char): (parts: seq<string>)
    ensures |parts| >= 1
  {
    if s == "" then [""]
    else
      var rest := Split(s[1..], c);
      if s[0] == c then [""] + rest else [[s[0]] + rest[0]] + rest[1..]
  }

  function Join(parts: seq<string>, c: char): string {
    if parts == [] then ""
    else if |parts| == 1 then parts[0]
    else parts[0] + [c] + Join(parts[1..], c)
  }

  /** A first part without the separator stays whole. */
  lemma {:induction false} SplitHead(head: string, rest: string, c: char)
    requires c !in head && (rest == "" || rest[0] == c)
    ensures Split(head + rest, c) == [head] + Split(rest, c)[1..]
  {
    if head == "" {
      assert head + rest == rest;
    } else {
      assert (head + rest)[1..] == head[1..] + rest;
      SplitHead(head[1..], rest, c);
      assert [head[0]] + head[1..] == head;
    }
  }

  lemma {:induction false} SplitParts(s: string, c: char)
    ensures forall p <- Split(s, c) :: c !in p
  {
    if s != "" { SplitParts(s[1..], c); }
  }

  /** What is split at the separator can be put together again. */
  lemma {:induction false} JoinSplit(s: string, c: char)
    ensures Join(Split(s, c), c) == s
  {
    if s != "" {
      JoinSplit(s[1..], c);
      var rest := Split(s[1..], c);
      if s[0] == c {
        assert ([""] + rest)[1..] == rest;
      } else {
        JoinHead(s[0], rest, c);
      }
      assert s == [s[0]] + s[1..];
    }
  }

  lemma JoinHead(x: char, parts: seq<string>, c: char)
    requires parts != []
    ensures Join([[x] + parts[0]] + parts[1..], c) == [x] + Join(parts, c)
  {
    assert ([[x] + parts[0]] + parts[1..])[1..] == parts[1..];
  }

  /** What is joined from parts without the separator can be split again. */
  lemma {:induction false} SplitJoin(parts: seq<string>, c: char)
    requires parts != [] && forall p <- parts :: c !in p
    ensures Split(Join(parts, c), c) == parts
  {
    if |parts| == 1 {
      SplitHead(parts[0], "", c);
      assert parts[0] + "" == parts[0];
    } else {
      var rest := [c] + Join(parts[1..], c);
      SplitJoin(parts[1..], c);
      assert rest[1..] == Join(parts[1..], c);
      SplitHead(parts[0], rest, c);
      assert Split(rest, c) == [""] + parts[1..];
      assert parts[0] + rest == Join(parts, c);
    }
  }

  /** A separator ends one part and starts the next. */
  lemma {:induction false} SplitAt(a: string, b: string, c: char)
    ensures Split(a + [c] + b, c) == Split(a, c) + Split(b, c)
  {
    if a == "" {
      assert a + [c] + b == [c] + b;
      assert ([c] + b)[1..] == b;
    } else {
      assert (a + [c] + b)[1..] == a[1..] + [c] + b;
      SplitAt(a[1..], b, c);
    }
  }

  lemma SplitWhole(s: string, c: char)
    requires c !in s
    ensures Split(s, c) == [s]
  {
    SplitHead(s, "", c);
    assert s + "" == s;
  }

  /** Where `c` is for the first time. */
  function First(s: string, c: char): (n: nat)
    requires c in s
    ensures n < |s| && s[n] == c && c !in s[..n]
  {
    if s[0] == c then 0
    else
      var m := First(s[1..], c);
      assert s[..m + 1] == [s[0]] + s[1..][..m];
      m + 1
  }

  /** A stretch of text between separators, or between a separator and an end. */
  predicate Between(s: string, c: char, i: nat, j: nat) {
    i <= j <= |s| && (i == 0 || s[i - 1] == c) && (j == |s| || s[j] == c)
  }

  lemma BetweenIsPart(s: string, c: char, i: nat, j: nat)
    requires Between(s, c, i, j) && c !in s[i..j]
    ensures s[i..j] in Split(s, c)
  {
    assert s[i..] == s[i..j] + s[j..];
    SplitHead(s[i..j], s[j..], c);
    assert Split(s[i..], c)[0] == s[i..j];
    if i > 0 {
      assert s == s[..i - 1] + [c] + s[i..];
      SplitAt(s[..i - 1], s[i..], c);
    } else {
      assert s[0..] == s;
    }
  }

  lemma SplitFirst(s: string, c: char)
    requires c in s
    ensures Split(s, c) == [s[..First(s, c)]] + Split(s[First(s, c) + 1..], c)
  {
    var n := First(s, c);
    assert s == s[..n] + [c] + s[n + 1..];
    SplitAt(s[..n], s[n + 1..], c);
    SplitWhole(s[..n], c);
  }

  lemma {:induction false} PartIsBetween(s: string, c: char, p: string) returns (i: nat, j: nat)
    requires p in Split(s, c)
    ensures Between(s, c, i, j) && s[i..j] == p
    decreases |s|
  {
    if c !in s {
      SplitWhole(s, c);
      return 0, |s|;
    }
    SplitFirst(s, c);
    var n := First(s, c);
    if p == s[..n] { return 0, n; }
    i, j := PartIsBetween(s[n + 1..], c, p);
    BetweenLater(s, c, n, i, j);
    i, j := i + n + 1, j + n + 1;
  }

  lemma BetweenLater(s: string, c: char, n: nat, i: nat, j: nat)
    requires n < |s| && s[n] == c && Between(s[n + 1..], c, i, j)
    ensures Between(s, c, i + n + 1, j + n + 1) && s[i + n + 1..j + n + 1] == s[n + 1..][i..j]
  {
  }
}
