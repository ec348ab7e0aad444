/** `createHttpRequestLimitMiddleware` of `apps/api/src/http-security.ts`, and the rule its header loop decides. */
module HttpLimits {
  import opened HttpSecurity

  datatype Verdict = Next | TargetTooLong | Ambiguous | HeadersTooLarge

  /** The number of bytes of a character in UTF-8. */
  function Utf8(c: char): nat {
    if c < 0x80 as char then 1 else if c < 0x800 as char then 2 else if c < '\U{10000}' then 3 else 4
  }

  function ByteLength(s: string): nat { if s == "" then 0 else Utf8(s[0]) + ByteLength(s[1..]) }

  function LowerChar(c: char): char { if 'A' <= c <= 'Z' then c - 'A' + 'a' else c }

  function Lower(s: string): string { seq(|s|, i requires 0 <= i < |s| => LowerChar(s[i])) }

  datatype Field = Field(name: string, value: string)

  /** The fields of a raw header list, where the last value may be missing. */
  function Fields(raw: seq<string>): seq<Field> {
    seq((|raw| + 1) / 2, k requires 0 <= k < (|raw| + 1) / 2 =>
      Field(raw[2 * k], if 2 * k + 1 < |raw| then raw[2 * k + 1] else ""))
  }

  function Size(f: Field): nat { |f.name| + |f.value| + 4 }

  function Total(fields: seq<Field>): nat {
    if fields == [] then 0 else Total(fields[..|fields| - 1]) + Size(fields[|fields| - 1])
  }

  /** How many fields have a name, whatever the case of its letters. */
  function Count(fields: seq<Field>, name: string): nat {
    if fields == [] then 0
    else Count(fields[..|fields| - 1], name) + (if Lower(fields[|fields| - 1].name) == name then 1 else 0)
  }

  /** The rule for fields, which speaks of sizes and numbers only. */
  predicate FieldsOk(fields: seq<Field>) {
    && 2 + Total(fields) <= 16 * 1024
    && Count(fields, "host") <= 1 && Count(fields, "content-length") <= 1 && Count(fields, "transfer-encoding") <= 1
    && (Count(fields, "content-length") == 0 || Count(fields, "transfer-encoding") == 0)
  }

  /** The rule for a raw header list: a hundred fields at most, and the rule for them. */
  predicate HeadersOk(raw: seq<string>) { |Fields(raw)| <= 100 && FieldsOk(Fields(raw)) }

  function Get(counts: map<string, nat>, name: string): nat { if name in counts then counts[name] else 0 }

  ghost predicate Tallied(fields: seq<Field>, totalBytes: nat, counts: map<string, nat>) {
    && totalBytes == 2 + Total(fields)
    && forall name {:trigger Count(fields, name)} :: Get(counts, name) == Count(fields, name)
  }

  lemma TallyNext(fields: seq<Field>, k: nat, totalBytes: nat, counts: map<string, nat>)
    requires k < |fields| && Tallied(fields[..k], totalBytes, counts)
    ensures var name := Lower(fields[k].name);
            Tallied(fields[..k + 1], totalBytes + Size(fields[k]), counts[name := Get(counts, name) + 1])
  {
    var known := fields[..k];
    assert fields[..k + 1][..k] == known;
    var normalized, more := Lower(fields[k].name), fields[..k + 1];
    var counts' := counts[normalized := Get(counts, normalized) + 1];
    forall name ensures Get(counts', name) == Count(more, name) {
      assert Get(counts, name) == Count(known, name);
    }
  }

  /** The header loop. */
  method Tally(raw: seq<string>) returns (totalBytes: nat, counts: map<string, nat>)
    ensures Tallied(Fields(raw), totalBytes, counts)
  {
    ghost var fields := Fields(raw);
    totalBytes, counts := 2, map[];
    var index := 0;
    ghost var k := 0;
    while index < |raw|
      invariant index == 2 * k && k <= |fields|
      invariant Tallied(fields[..k], totalBytes, counts)
    {
      var name, value := raw[index], if index + 1 < |raw| then raw[index + 1] else "";
      assert fields[k] == Field(name, value);
      TallyNext(fields, k, totalBytes, counts);
      totalBytes := totalBytes + |name| + |value| + 4;
      var normalized := Lower(name);
      counts := counts[normalized := Get(counts, normalized) + 1];
      index, k := index + 2, k + 1;
    }
    assert fields[..k] == fields;
  }

  /** A list of more than 200 entries, one of which may be a name without a value, has more than a hundred fields. */
  lemma FieldLimit(raw: seq<string>)
    ensures |raw| > 200 <==> |Fields(raw)| > 100
  {
  }

  /** The header part of the middleware. */
  method CheckHeaders(raw: seq<string>) returns (ok: bool)
    ensures ok <==> HeadersOk(raw)
    ensures ok <==> |raw| <= 200 && 2 + Total(Fields(raw)) <= 16384 && !Conflicting(Fields(raw))
  {
    HeadersOkIff(raw);
    FieldLimit(raw);
    if |raw| > 200 { return false; }
    var totalBytes, counts := Tally(raw);
    ghost var fields := Fields(raw);
    assert Get(counts, "host") == Count(fields, "host");
    assert Get(counts, "content-length") == Count(fields, "content-length");
    assert Get(counts, "transfer-encoding") == Count(fields, "transfer-encoding");
    return totalBytes <= 16 * 1024
        && Get(counts, "host") <= 1 && Get(counts, "content-length") <= 1 && Get(counts, "transfer-encoding") <= 1
        && !(Get(counts, "content-length") > 0 && Get(counts, "transfer-encoding") > 0);
  }

  /** The middleware, whose first objection counts. */
  method LimitRequest(originalUrl: string, rawHeaders: seq<string>) returns (verdict: Verdict)
    ensures verdict == Next <==>
            ByteLength(originalUrl) <= 8 * 1024 && Accepted(originalUrl) && HeadersOk(rawHeaders)
    ensures verdict == TargetTooLong <==> ByteLength(originalUrl) > 8 * 1024
    ensures verdict == Ambiguous <==> ByteLength(originalUrl) <= 8 * 1024 && !Accepted(originalUrl)
    ensures Conflicting(Fields(rawHeaders)) ==> verdict != Next
  {
    if ByteLength(originalUrl) > 8 * 1024 { return TargetTooLong; }
    if EncodedSeparator(originalUrl) || DotSegment(originalUrl) { return Ambiguous; }
    var ok := CheckHeaders(rawHeaders);
    return if ok then Next else HeadersTooLarge;
  }

  // ------------------------------------- the verdict depends on the fields as a bag

  lemma {:induction false} SumsAround(a: seq<Field>, f: Field, b: seq<Field>, name: string)
    ensures Total(a + [f] + b) == Total(a + b) + Size(f)
    ensures Count(a + [f] + b, name) == Count(a + b, name) + (if Lower(f.name) == name then 1 else 0)
    decreases |b|
  {
    if b == [] {
      assert a + [f] + b == a + [f] && a + b == a;
      assert (a + [f])[..|a|] == a;
    } else {
      var rest, last := b[..|b| - 1], b[|b| - 1];
      assert (a + [f] + b)[..|a + [f] + b| - 1] == a + [f] + rest;
      assert (a + b)[..|a + b| - 1] == a + rest;
      SumsAround(a, f, rest, name);
    }
  }

  lemma {:induction false} SumsPermute(fs: seq<Field>, gs: seq<Field>, name: string)
    requires multiset(fs) == multiset(gs)
    ensures Total(fs) == Total(gs) && Count(fs, name) == Count(gs, name)
    decreases |fs|
  {
    if fs == [] {
      assert |multiset(gs)| == 0;
    } else {
      var j := Find(fs, gs);
      var f, a, b := fs[0], gs[..j], gs[j + 1..];
      SumsAround(a, f, b, name);
      SumsAround([], f, fs[1..], name);
      assert gs == a + [f] + b && fs == [] + [f] + fs[1..] && [] + fs[1..] == fs[1..];
      SumsPermute(fs[1..], a + b, name);
    }
  }

  lemma WithoutOne(a: seq<Field>, f: Field, b: seq<Field>)
    ensures multiset(a + b) == multiset(a + [f] + b) - multiset{f}
  {
    assert multiset(a + [f] + b) == multiset(a) + multiset{f} + multiset(b);
  }

  lemma RemoveAt(fs: seq<Field>, j: nat)
    requires j < |fs|
    ensures multiset(fs[..j] + fs[j + 1..]) == multiset(fs) - multiset{fs[j]}
  {
    assert fs == fs[..j] + [fs[j]] + fs[j + 1..];
    WithoutOne(fs[..j], fs[j], fs[j + 1..]);
  }

  lemma RemoveFirst(fs: seq<Field>)
    requires fs != []
    ensures multiset(fs[1..]) == multiset(fs) - multiset{fs[0]}
  {
    RemoveAt(fs, 0);
    assert fs[..0] + fs[1..] == fs[1..];
  }

  lemma Member(fs: seq<Field>, f: Field) returns (j: nat)
    requires f in multiset(fs)
    ensures j < |fs| && fs[j] == f
  {
    j :| 0 <= j < |fs| && fs[j] == f;
  }

  /** Where the first field of one list is in a reordering of it. */
  lemma Find(fs: seq<Field>, gs: seq<Field>) returns (j: nat)
    requires fs != [] && multiset(fs) == multiset(gs)
    ensures j < |gs| && gs[j] == fs[0]
    ensures multiset(fs[1..]) == multiset(gs[..j] + gs[j + 1..])
  {
    assert fs[0] in fs;
    j := Member(gs, fs[0]);
    RemoveFirst(fs);
    RemoveAt(gs, j);
  }

  lemma SameSums(fs: seq<Field>, gs: seq<Field>)
    requires Total(fs) == Total(gs)
    requires forall name <- {"host", "content-length", "transfer-encoding"} :: Count(fs, name) == Count(gs, name)
    ensures FieldsOk(fs) <==> FieldsOk(gs)
  {
  }

  /** Reordering the fields of a request does not change the verdict. */
  lemma VerdictIgnoresOrder(raw: seq<string>, other: seq<string>)
    requires multiset(Fields(raw)) == multiset(Fields(other))
    ensures HeadersOk(raw) <==> HeadersOk(other)
  {
    var fs, gs := Fields(raw), Fields(other);
    SumsPermute(fs, gs, "host");
    SumsPermute(fs, gs, "content-length");
    SumsPermute(fs, gs, "transfer-encoding");
    assert |multiset(fs)| == |fs| && |multiset(gs)| == |gs|;
    SameSums(fs, gs);
  }

  // ------------------------------------------------------ names and their case

  /** An upper-case letter and its lower-case form, of the letters that header names are made of. */
  predicate CasePair(upper: char, lower: char) { 'A' <= upper <= 'Z' && lower as int == upper as int + 32 }

  predicate SameLetter(a: char, b: char) { a == b || CasePair(a, b) || CasePair(b, a) }

  /** Names that differ at most in the case of their letters. */
  predicate SameName(a: string, b: string) { |a| == |b| && forall i | 0 <= i < |a| :: SameLetter(a[i], b[i]) }

  lemma LowerSame(a: string, b: string)
    ensures Lower(a) == Lower(b) <==> SameName(a, b)
  {
    forall i | 0 <= i < |a| && |a| == |b| ensures SameLetter(a[i], b[i]) <==> Lower(a)[i] == Lower(b)[i] {}
  }

  lemma NamesAreLower()
    ensures Lower("host") == "host" && Lower("content-length") == "content-length"
    ensures Lower("transfer-encoding") == "transfer-encoding"
  {
  }

  predicate SameButCase(f: Field, g: Field) { SameName(f.name, g.name) && |f.value| == |g.value| }

  lemma {:induction false} SumsIgnoreCase(fs: seq<Field>, gs: seq<Field>, name: string)
    requires |fs| == |gs| && forall i | 0 <= i < |fs| :: SameButCase(fs[i], gs[i])
    ensures Total(fs) == Total(gs) && Count(fs, name) == Count(gs, name)
  {
    if fs != [] {
      var n := |fs| - 1;
      SumsIgnoreCase(fs[..n], gs[..n], name);
      assert SameButCase(fs[n], gs[n]);
      LowerSame(fs[n].name, gs[n].name);
    }
  }

  /** Neither does the case of their names, nor what their values say. */
  lemma VerdictIgnoresCase(raw: seq<string>, other: seq<string>)
    requires |other| == |raw|
    requires forall i | 0 <= i < |Fields(raw)| :: SameButCase(Fields(raw)[i], Fields(other)[i])
    ensures HeadersOk(raw) <==> HeadersOk(other)
  {
    var fs, gs := Fields(raw), Fields(other);
    SumsIgnoreCase(fs, gs, "host");
    SumsIgnoreCase(fs, gs, "content-length");
    SumsIgnoreCase(fs, gs, "transfer-encoding");
    SameSums(fs, gs);
  }

  /** Two fields that the rule does not let stand together: the same sensitive name, or a length and an encoding. */
  predicate Conflict(f: Field, g: Field) {
    || (exists name <- {"host", "content-length", "transfer-encoding"} ::
          SameName(f.name, name) && SameName(g.name, name))
    || (SameName(f.name, "content-length") && SameName(g.name, "transfer-encoding"))
    || (SameName(f.name, "transfer-encoding") && SameName(g.name, "content-length"))
  }

  ghost predicate Conflicting(fields: seq<Field>) {
    exists i, j :: 0 <= i < j < |fields| && Conflict(fields[i], fields[j])
  }

  /** How many fields have a name, told from letters: none, or more than one. */
  lemma {:induction false} CountIff(fields: seq<Field>, name: string)
    requires Lower(name) == name
    ensures Count(fields, name) == 0 <==> forall i | 0 <= i < |fields| :: !SameName(fields[i].name, name)
    ensures Count(fields, name) <= 1 <==>
            forall i, j | 0 <= i < j < |fields| :: !(SameName(fields[i].name, name) && SameName(fields[j].name, name))
  {
    if fields != [] {
      var n := |fields| - 1;
      CountIff(fields[..n], name);
      LowerSame(fields[n].name, name);
      forall i | 0 <= i < n ensures fields[..n][i] == fields[i] {}
      if i :| 0 <= i < n && SameName(fields[..n][i].name, name) && SameName(fields[n].name, name) {
        assert SameName(fields[i].name, name);
      }
    }
  }

  /**
   * What is accepted, told from letters, lengths and numbers alone: a hundred fields at most, 16384 bytes with four
   * more for each field and two for the end, and no two fields in conflict, however their names are spelled.
   */
  lemma HeadersOkIff(raw: seq<string>)
    ensures HeadersOk(raw) <==>
            |raw| <= 200 && 2 + Total(Fields(raw)) <= 16384 && !Conflicting(Fields(raw))
  {
    FieldLimit(raw);
    if FieldsOk(Fields(raw)) { NoConflict(Fields(raw)); }
    if !Conflicting(Fields(raw)) { CountsOk(Fields(raw)); }
  }

  lemma SensitiveCounts(fields: seq<Field>, name: string)
    requires name in {"host", "content-length", "transfer-encoding"}
    ensures Count(fields, name) == 0 <==> forall i | 0 <= i < |fields| :: !SameName(fields[i].name, name)
    ensures Count(fields, name) <= 1 <==>
            forall i, j | 0 <= i < j < |fields| :: !(SameName(fields[i].name, name) && SameName(fields[j].name, name))
  {
    NamesAreLower();
    CountIff(fields, name);
  }

  lemma NoConflict(fields: seq<Field>)
    requires FieldsOk(fields)
    ensures !Conflicting(fields)
  {
    forall name | name in {"host", "content-length", "transfer-encoding"}
      ensures Count(fields, name) <= 1
      ensures forall i, j | 0 <= i < j < |fields| :: !(SameName(fields[i].name, name) && SameName(fields[j].name, name))
    {
      SensitiveCounts(fields, name);
    }
    SensitiveCounts(fields, "content-length");
    SensitiveCounts(fields, "transfer-encoding");
  }

  lemma CountsOk(fields: seq<Field>)
    requires !Conflicting(fields)
    ensures Count(fields, "host") <= 1 && Count(fields, "content-length") <= 1
    ensures Count(fields, "transfer-encoding") <= 1
    ensures Count(fields, "content-length") == 0 || Count(fields, "transfer-encoding") == 0
  {
    forall name | name in {"host", "content-length", "transfer-encoding"} ensures Count(fields, name) <= 1 {
      SensitiveCounts(fields, name);
      forall i, j | 0 <= i < j < |fields|
        ensures !(SameName(fields[i].name, name) && SameName(fields[j].name, name))
      {
        assert !Conflict(fields[i], fields[j]);
      }
    }
    SensitiveCounts(fields, "content-length");
    SensitiveCounts(fields, "transfer-encoding");
    if Count(fields, "content-length") != 0 && Count(fields, "transfer-encoding") != 0 {
      var i :| 0 <= i < |fields| && SameName(fields[i].name, "content-length");
      var j :| 0 <= j < |fields| && SameName(fields[j].name, "transfer-encoding");
      assert Conflict(fields[i], fields[j]) && Conflict(fields[j], fields[i]);
    }
  }

  /** No accepted request has a sensitive name twice, or both a length and an encoding, in whatever spelling. */
  lemma Unambiguous(raw: seq<string>, i: nat, j: nat)
    requires i < j < |Fields(raw)| && HeadersOk(raw)
    ensures !Conflict(Fields(raw)[i], Fields(raw)[j])
  {
    HeadersOkIff(raw);
  }

  // ------------------------------------------------------ the length of the target

  /** A character in UTF-8 (section 3 of RFC 3629). */
  function Encode(c: char): (bytes: seq<nat>)
    ensures forall b <- bytes :: b < 256
  {
    var n := c as int;
    if n < 0x80 then [n]
    else if n < 0x800 then [0xC0 + n / 0x40, 0x80 + n % 0x40]
    else if n < 0x1_0000 then [0xE0 + n / 0x1000, 0x80 + n / 0x40 % 0x40, 0x80 + n % 0x40]
    else [0xF0 + n / 0x4_0000, 0x80 + n / 0x1000 % 0x40, 0x80 + n / 0x40 % 0x40, 0x80 + n % 0x40]
  }

  function EncodeAll(s: string): seq<nat> { if s == "" then [] else Encode(s[0]) + EncodeAll(s[1..]) }

  /** The number whose encoding bytes begin with, and how many bytes that takes. */
  function Decode(bytes: seq<nat>): (nat, nat) {
    if bytes == [] then (0, 0)
    else if bytes[0] < 0xC0 then (bytes[0], 1)
    else if bytes[0] < 0xE0 && |bytes| >= 2 && bytes[0] >= 0xC0 && bytes[1] >= 0x80 then
      ((bytes[0] - 0xC0) * 0x40 + (bytes[1] - 0x80), 2)
    else if bytes[0] < 0xF0 && |bytes| >= 3 && bytes[0] >= 0xE0 && bytes[1] >= 0x80 && bytes[2] >= 0x80 then
      ((bytes[0] - 0xE0) * 0x1000 + (bytes[1] - 0x80) * 0x40 + (bytes[2] - 0x80), 3)
    else if |bytes| >= 4 && bytes[0] >= 0xF0 && bytes[1] >= 0x80 && bytes[2] >= 0x80 && bytes[3] >= 0x80 then
      ((bytes[0] - 0xF0) * 0x4_0000 + (bytes[1] - 0x80) * 0x1000 + (bytes[2] - 0x80) * 0x40 + (bytes[3] - 0x80), 4)
    else (0, 0)
  }

  /** A number in digits of six bits. */
  lemma SixBits(n: nat)
    ensures n == n / 0x40 * 0x40 + n % 0x40
    ensures n / 0x1000 == n / 0x40 / 0x40 && n / 0x4_0000 == n / 0x1000 / 0x40
    ensures n / 0x40 == n / 0x1000 * 0x40 + n / 0x40 % 0x40
    ensures n / 0x1000 == n / 0x4_0000 * 0x40 + n / 0x1000 % 0x40
  {
  }

  /** The encoding can be read back, and is as long as is counted. */
  lemma EncodeDecode(c: char, later: seq<nat>)
    ensures Decode(Encode(c) + later) == (c as int, Utf8(c)) && |Encode(c)| == Utf8(c)
  {
    var n, bytes := c as int, Encode(c) + later;
    SixBits(n);
    if n < 0x80 {
    } else if n < 0x800 {
      assert bytes[0] == 0xC0 + n / 0x40 && bytes[1] == 0x80 + n % 0x40;
    } else if n < 0x1_0000 {
      ThreeBytes(c, later);
    } else {
      FourBytes(c, later);
    }
  }

  lemma ThreeBytes(c: char, later: seq<nat>)
    requires 0x800 <= c as int < 0x1_0000
    ensures Decode(Encode(c) + later) == (c as int, 3)
  {
    var n, bytes := c as int, Encode(c) + later;
    SixBits(n);
    var a, b, d := n / 0x1000, n / 0x40 % 0x40, n % 0x40;
    assert n == a * 0x1000 + b * 0x40 + d;
    assert bytes[0] == 0xE0 + a && bytes[1] == 0x80 + b && bytes[2] == 0x80 + d;
  }

  lemma FourBytes(c: char, later: seq<nat>)
    requires 0x1_0000 <= c as int
    ensures Decode(Encode(c) + later) == (c as int, 4)
  {
    var n, bytes := c as int, Encode(c) + later;
    SixBits(n);
    var a, b, d, e := n / 0x4_0000, n / 0x1000 % 0x40, n / 0x40 % 0x40, n % 0x40;
    assert n == a * 0x4_0000 + b * 0x1000 + d * 0x40 + e;
    assert bytes[0] == 0xF0 + a && bytes[1] == 0x80 + b && bytes[2] == 0x80 + d && bytes[3] == 0x80 + e;
  }

  /** The target is measured in the bytes of its encoding. */
  lemma {:induction false} ByteLengthIs(s: string)
    ensures ByteLength(s) == |EncodeAll(s)|
  {
    if s != "" {
      ByteLengthIs(s[1..]);
      EncodeDecode(s[0], EncodeAll(s[1..]));
    }
  }

}
