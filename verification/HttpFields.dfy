/** The fields that decide framing (RFC 9112, sections 6.1 to 6.3 and 7.1): Content-Length,
    Transfer-Encoding and the chunk-size line. A field value that is not valid text is
    None. */
module HttpFields {
  import opened Basics

  const U64: nat := 0x1_0000_0000_0000_0000

  // ---------- Trimming and splitting ----------

  /** White space as the program's `trim` knows it (the Unicode property White_Space). */
  predicate IsWhite(c: char) {
    var n := c as int;
    0x09 <= n <= 0x0d || n == 0x20 || n == 0x85 || n == 0xa0 || n == 0x1680 || 0x2000 <= n <= 0x200a
    || n == 0x2028 || n == 0x2029 || n == 0x202f || n == 0x205f || n == 0x3000
  }

  function TrimStart(s: string): string {
    if s != [] && IsWhite(s[0]) then TrimStart(s[1..]) else s
  }

  function TrimEnd(s: string): string {
    if s != [] && IsWhite(s[|s| - 1]) then TrimEnd(s[..|s| - 1]) else s
  }

  function Trim(s: string): string {
    TrimEnd(TrimStart(s))
  }

  /** Nothing is trimmed exactly where no white space stands at either end. */
  lemma {:induction false} TrimKeepsIff(s: string)
    ensures Trim(s) == s <==> s == [] || (!IsWhite(s[0]) && !IsWhite(s[|s| - 1]))
  {
    hide IsWhite;
    if s != [] {
      if IsWhite(s[0]) {
        TrimShorter(s[1..]);
      } else {
        EndShorter(s[..|s| - 1]);
      }
    }
  }

  lemma {:induction false} TrimShorter(s: string)
    ensures |TrimStart(s)| <= |s| && |TrimEnd(TrimStart(s))| <= |TrimStart(s)|
  {
    hide IsWhite;
    if s != [] && IsWhite(s[0]) {
      TrimShorter(s[1..]);
    } else {
      EndShorter(s);
    }
  }

  lemma {:induction false} EndShorter(s: string)
    ensures |TrimEnd(s)| <= |s|
  {
    if s != [] && IsWhite(s[|s| - 1]) {
      EndShorter(s[..|s| - 1]);
    }
  }

  /** The parts of `s` between separators; there is always at least one. */
  function Split(s: string, sep: char): (parts: seq<string>)
    ensures parts != []
  {
    if s == [] then [[]]
    else
      var rest := Split(s[1..], sep);
      if s[0] == sep then [[]] + rest else [[s[0]] + rest[0]] + rest[1..]
  }

  function Join(parts: seq<string>, sep: char): string
    requires parts != []
  {
    if |parts| == 1 then parts[0] else parts[0] + [sep] + Join(parts[1..], sep)
  }

  /** Splitting loses nothing and leaves no separator inside a part. */
  lemma {:induction false} SplitMeans(s: string, sep: char)
    ensures Join(Split(s, sep), sep) == s
    ensures forall i | 0 <= i < |Split(s, sep)| :: sep !in Split(s, sep)[i]
  {
    if s != [] {
      SplitMeans(s[1..], sep);
      var rest := Split(s[1..], sep);
      var parts := Split(s, sep);
      if s[0] == sep {
        assert parts[1..] == rest;
      } else if |rest| > 1 {
        assert parts[1..] == rest[1..];
        assert [s[0]] + (rest[0] + [sep] + Join(rest[1..], sep)) == [s[0]] + rest[0] + [sep] + Join(rest[1..], sep);
      }
    }
  }

  // ---------- Numbers ----------

  predicate IsDigit(c: char) {
    '0' <= c <= '9'
  }

  function DigitValue(c: char): nat {
    if IsDigit(c) then c as int - '0' as int else 0
  }

  /** The value of a string of decimal digits. */
  function Decimal(s: string): nat {
    if s == [] then 0 else Decimal(s[..|s| - 1]) * 10 + DigitValue(s[|s| - 1])
  }

  function HexDigit(c: char): Option<nat> {
    if '0' <= c <= '9' then Some(c as int - '0' as int)
    else if 'a' <= c <= 'f' then Some(c as int - 'a' as int + 10)
    else if 'A' <= c <= 'F' then Some(c as int - 'A' as int + 10)
    else None
  }

  function Hex(s: string): Option<nat> {
    if s == [] then Some(0)
    else
      var high, low := Hex(s[..|s| - 1]), HexDigit(s[|s| - 1]);
      if high.Some? && low.Some? then Some(high.value * 16 + low.value) else None
  }

  function Digits(s: string): string {
    if s != [] && s[0] == '+' then s[1..] else s
  }

  /** The part of a chunk-size line before the first semicolon. */
  function SizePart(line: string): string {
    Split(line, ';')[0]
  }

  function SizeText(line: string): string {
    Trim(SizePart(line))
  }

  /** The size on a chunk-size line, its extensions cut off; a plus sign is let pass. */
  function ChunkSize(line: string): Option<nat> {
    var s := SizeText(line);
    if s == [] || |s| > 16 || Digits(s) == [] then None else Hex(Digits(s))
  }

  function Power16(n: nat): nat {
    if n == 0 then 1 else 16 * Power16(n - 1)
  }

  lemma {:induction false} HexBounded(s: string)
    ensures Hex(s).Some? ==> Hex(s).value < Power16(|s|)
  {
    if s != [] {
      HexBounded(s[..|s| - 1]);
    }
  }

  lemma {:induction false} PowerGrows(n: nat, m: nat)
    requires n <= m
    ensures 1 <= Power16(n) <= Power16(m)
  {
    if m > 0 {
      if n < m { PowerGrows(n, m - 1); } else { PowerGrows(n - 1, m - 1); }
    }
  }

  lemma Sixteen()
    ensures Power16(16) == U64
  {
    assert Power16(4) == 65536;
    assert Power16(8) == 65536 * 65536 by {
      assert Power16(5) == 16 * Power16(4) && Power16(6) == 16 * Power16(5) && Power16(7) == 16 * Power16(6);
    }
    assert Power16(12) == 65536 * 65536 * 65536 by {
      assert Power16(9) == 16 * Power16(8) && Power16(10) == 16 * Power16(9) && Power16(11) == 16 * Power16(10);
    }
    assert Power16(13) == 16 * Power16(12) && Power16(14) == 16 * Power16(13) && Power16(15) == 16 * Power16(14);
  }

  /** Sixteen characters never overflow the machine word. */
  lemma ChunkSizeFits(line: string)
    requires ChunkSize(line).Some?
    ensures ChunkSize(line).value < U64
  {
    var s := SizeText(line);
    HexBounded(Digits(s));
    PowerGrows(|Digits(s)|, 16);
    Sixteen();
    hide Power16, Hex, Split;
  }

  /** Text without a separator is one part. */
  lemma {:induction false} SplitPlain(s: string, sep: char)
    requires sep !in s
    ensures Split(s, sep) == [s]
  {
    if s != [] {
      SplitPlain(s[1..], sep);
      assert [s[0]] + s[1..] == s;
    }
  }

  function DigitOf(n: nat): (c: char)
    requires n < 16
    ensures HexDigit(c) == Some(n) && c != '+' && c != ';'
  {
    if n < 10 then (n + '0' as int) as char else (n - 10 + 'a' as int) as char
  }

  function HexOf(n: nat): string {
    if n < 16 then [DigitOf(n)] else HexOf(n / 16) + [DigitOf(n % 16)]
  }

  /** A size written in hexadecimal is read back. */
  lemma {:induction false} HexInvertsHexOf(n: nat)
    ensures Hex(HexOf(n)) == Some(n)
    ensures HexOf(n) != [] && HexOf(n)[0] != '+' && ';' !in HexOf(n)
  {
    hide HexDigit, DigitOf;
    var s := HexOf(n);
    if n >= 16 {
      HexInvertsHexOf(n / 16);
      assert s[..|s| - 1] == HexOf(n / 16);
    } else {
      assert s[..0] == [];
    }
  }

  lemma {:induction false} HexLength(n: nat, k: nat)
    requires k > 0
    ensures |HexOf(n)| <= k <==> n < Power16(k)
  {
    if n >= 16 {
      if k > 1 {
        HexLength(n / 16, k - 1);
      } else {
        assert Power16(1) == 16 * Power16(0);
        assert HexOf(n / 16) != [];
      }
    } else {
      PowerGrows(1, k);
      assert Power16(1) == 16 * Power16(0);
    }
  }

  lemma {:induction false} HexIff(s: string)
    ensures Hex(s).Some? <==> forall c | c in s :: HexDigit(c).Some?
  {
    hide HexDigit;
    if s != [] {
      HexIff(s[..|s| - 1]);
      assert s == s[..|s| - 1] + [s[|s| - 1]];
    }
  }

  /** The grammar of a chunk size (RFC 9112, section 7.1): hexadecimal digits, at least one. */
  predicate Conforms(s: string) {
    s != [] && forall c | c in s :: HexDigit(c).Some?
  }

  /** What is accepted as a size: at most sixteen characters that conform once a plus sign
      in front is taken away. So an accepted size conforms if and only if it has none. */
  lemma ChunkSizeAccepted(line: string)
    ensures ChunkSize(line).Some? <==>
      1 <= |SizeText(line)| <= 16 && Conforms(Digits(SizeText(line)))
    ensures ChunkSize(line).Some? ==>
      (Conforms(SizeText(line)) <==> SizeText(line)[0] != '+')
  {
    var s := SizeText(line);
    hide SizeText, Hex;
    HexIff(Digits(s));
    assert HexDigit('+').None?;
  }

  /** So of an accepted line the part before the first semicolon conforms if and only if
      there is neither white space around it nor a plus sign in front of it. */
  lemma AcceptedLineConformsIff(line: string)
    requires ChunkSize(line).Some?
    ensures var part := SizePart(line);
      part != [] && (Conforms(part) <==> !IsWhite(part[0]) && !IsWhite(part[|part| - 1]) && part[0] != '+')
  {
    var part := SizePart(line);
    ChunkSizeAccepted(line);
    TrimKeepsIff(part);
    if Conforms(part) {
      assert part[0] in part && part[|part| - 1] in part;
      NotWhite(part[0]);
      NotWhite(part[|part| - 1]);
    }
    hide Hex, Split, Trim, IsWhite, Digits;
  }

  lemma NotWhite(c: char)
    ensures HexDigit(c).Some? || c == '+' ==> !IsWhite(c)
  {
  }

  lemma {:induction false} FirstPart(head: string, sep: char, rest: string)
    requires sep !in head
    ensures Split(head + [sep] + rest, sep)[0] == head
  {
    var s := head + [sep] + rest;
    if head != [] {
      assert s[1..] == head[1..] + [sep] + rest;
      FirstPart(head[1..], sep, rest);
      assert [head[0]] + head[1..] == head;
    }
  }

  /** The text that follows the first semicolon does not matter. */
  lemma ExtensionsIgnored(part: string, rest: string)
    requires ';' !in part
    ensures ChunkSize(part + [';'] + rest) == ChunkSize(part)
  {
    FirstPart(part, ';', rest);
    SplitPlain(part, ';');
    hide Split, Trim, Hex, Digits;
  }

  lemma PlainText(s: string)
    requires s != [] && ';' !in s && forall c | c in s :: HexDigit(c).Some? || c == '+'
    ensures SizeText(s) == s
  {
    SplitPlain(s, ';');
    assert s[0] in s && s[|s| - 1] in s;
    NotWhite(s[0]);
    NotWhite(s[|s| - 1]);
    TrimKeepsIff(s);
    hide Split, Trim, HexDigit, IsWhite;
  }

  /** A size written in hexadecimal is read back exactly if it fits the machine word. */
  lemma SizeReadBack(n: nat)
    ensures ChunkSize(HexOf(n)) == if n < U64 then Some(n) else None
  {
    hide Trim, Hex, HexOf, Power16, SizeText, Split, HexDigit;
    var s := HexOf(n);
    HexInvertsHexOf(n);
    HexIff(s);
    HexLength(n, 16);
    Sixteen();
    PlainText(s);
  }

  /** With a plus sign in front it is read back exactly if one more digit would fit. */
  lemma PlusIsAccepted(n: nat)
    ensures ChunkSize(['+'] + HexOf(n)) == if 16 * n < U64 then Some(n) else None
  {
    assert Power16(16) == 16 * Power16(15);
    hide Trim, Hex, HexOf, Power16, SizeText, Split, HexDigit;
    var s := HexOf(n);
    HexInvertsHexOf(n);
    HexIff(s);
    HexLength(n, 15);
    Sixteen();
    PlainText(['+'] + s);
    assert (['+'] + s)[1..] == s;
  }

  // ---------- Content-Length ----------

  /** All comma-separated tokens of all the fields, in order. */
  function Tokens(fields: seq<Option<string>>): seq<string> {
    if fields == [] then []
    else
      var last := fields[|fields| - 1];
      Tokens(fields[..|fields| - 1]) + if last.Some? then Trimmed(Split(last.value, ',')) else []
  }

  function Trimmed(parts: seq<string>): (t: seq<string>)
    ensures |t| == |parts| && forall i | 0 <= i < |parts| :: t[i] == Trim(parts[i])
  {
    seq(|parts|, i requires 0 <= i < |parts| => Trim(parts[i]))
  }

  predicate IsLength(token: string) {
    token != [] && (forall c | c in token :: IsDigit(c)) && Decimal(token) < U64
  }

  predicate AllText(fields: seq<Option<string>>) {
    forall i | 0 <= i < |fields| :: fields[i].Some?
  }

  ghost predicate OneLength(tokens: seq<string>) {
    && (forall i | 0 <= i < |tokens| :: IsLength(tokens[i]))
    && (forall i, j | 0 <= i < |tokens| && 0 <= j < |tokens| :: Decimal(tokens[i]) == Decimal(tokens[j]))
  }

  function FirstLength(tokens: seq<string>): Option<nat> {
    if tokens == [] || !IsLength(tokens[0]) then None else Some(Decimal(tokens[0]))
  }

  lemma {:induction false} TokensFrom(fields: seq<Option<string>>, k: nat)
    requires k <= |fields|
    ensures |Tokens(fields[..k])| <= |Tokens(fields)|
    ensures Tokens(fields)[..|Tokens(fields[..k])|] == Tokens(fields[..k])
  {
    if k < |fields| {
      var before := fields[..|fields| - 1];
      TokensFrom(before, k);
      assert before[..k] == fields[..k];
    } else {
      assert fields[..k] == fields;
    }
  }

  lemma PrefixOneLength(tokens: seq<string>, n: nat)
    requires n <= |tokens| && OneLength(tokens)
    ensures OneLength(tokens[..n])
  {
  }

  lemma TokensNext(fields: seq<Option<string>>, k: nat)
    requires k < |fields| && fields[k].Some?
    ensures Tokens(fields[..k + 1]) == Tokens(fields[..k]) + Trimmed(Split(fields[k].value, ','))
  {
    assert fields[..k + 1][..k] == fields[..k];
  }

  lemma AllTextNext(fields: seq<Option<string>>, k: nat)
    requires k < |fields| && AllText(fields[..k])
    ensures AllText(fields[..k + 1]) <==> fields[k].Some?
    ensures fields[k].None? ==> !AllText(fields)
  {
    assert fields[..k + 1][k] == fields[k];
  }

  /** A repeated or list-valued Content-Length is accepted exactly when it says one and
      the same decimal number throughout, and that number fits 64 bits. */
  method ParseContentLength(fields: seq<Option<string>>) returns (ok: bool, value: Option<nat>)
    ensures ok <==> AllText(fields) && OneLength(Tokens(fields))
    ensures ok ==> value == FirstLength(Tokens(fields))
    ensures ok ==> (value.None? <==> fields == [])
  {
    ok, value := true, None;
    assert fields[..|fields|] == fields;
    assert OneLength(Tokens(fields[..0])) && FirstLength(Tokens(fields[..0])).None?;
    hide Tokens, Split, OneLength, AllText, FirstLength;
    var k := 0;
    assert AllText(fields[..0]) by { NoFields(fields); }
    while k < |fields|
      invariant k <= |fields| && ok
      invariant AllText(fields[..k]) && OneLength(Tokens(fields[..k]))
      invariant value == FirstLength(Tokens(fields[..k]))
      invariant value.None? <==> k == 0
      invariant value.None? <==> Tokens(fields[..k]) == []
    {
      AllTextNext(fields, k);
      if fields[k].None? {
        return false, None;
      }
      TokensNext(fields, k);
      ghost var before := Tokens(fields[..k]);
      ok, value := AddTokens(before, Split(fields[k].value, ','), value);
      if !ok {
        NotLonger(fields, k + 1);
        return false, None;
      }
      k := k + 1;
    }
  }

  lemma NoFields(fields: seq<Option<string>>)
    ensures AllText(fields[..0])
  {
  }

  lemma NotLonger(fields: seq<Option<string>>, k: nat)
    requires k <= |fields| && !OneLength(Tokens(fields[..k]))
    ensures !OneLength(Tokens(fields))
  {
    hide OneLength, Tokens;
    TokensFrom(fields, k);
    CutOneLength(Tokens(fields), |Tokens(fields[..k])|);
  }

  lemma OneLengthMore(tokens: seq<string>, token: string)
    requires OneLength(tokens)
    ensures OneLength(tokens + [token])
      <==> IsLength(token) && (FirstLength(tokens).None? || FirstLength(tokens).value == Decimal(token))
    ensures IsLength(token) && OneLength(tokens + [token]) ==> FirstLength(tokens + [token]) == Some(Decimal(token))
  {
    hide IsLength, Decimal;
    var more := tokens + [token];
    assert more[|tokens|] == token;
    if tokens != [] {
      assert more[0] == tokens[0];
      if OneLength(more) {
        assert Decimal(more[0]) == Decimal(more[|tokens|]);
      }
    }
  }

  /** The tokens of one more field. */
  method AddTokens(ghost before: seq<string>, parts: seq<string>, value: Option<nat>)
    returns (ok: bool, value': Option<nat>)
    requires parts != [] && OneLength(before) && value == FirstLength(before)
    ensures ok <==> OneLength(before + Trimmed(parts))
    ensures ok ==> value' == FirstLength(before + Trimmed(parts)) && value'.Some?
  {
    hide OneLength, FirstLength, IsLength, Decimal;
    value' := value;
    ghost var all := before + Trimmed(parts);
    ghost var done := before;
    for i := 0 to |parts|
      invariant done == all[..|before| + i] && OneLength(done) && value' == FirstLength(done)
      invariant i > 0 ==> value'.Some?
    {
      var token := Trim(parts[i]);
      OneLengthMore(done, token);
      assert done + [token] == all[..|before| + i + 1];
      if !IsLength(token) || (value'.Some? && value'.value != Decimal(token)) {
        CutOneLength(all, |before| + i + 1);
        return false, None;
      }
      done := done + [token];
      value' := Some(Decimal(token));
    }
    assert all[..|before| + |parts|] == all;
    ok := true;
  }

  lemma CutOneLength(all: seq<string>, n: nat)
    requires n <= |all| && !OneLength(all[..n])
    ensures !OneLength(all)
  {
    hide OneLength;
    if OneLength(all) {
      PrefixOneLength(all, n);
    }
  }

  // ---------- Transfer-Encoding ----------

  function Coding(raw: string): string {
    Trim(Split(raw, ';')[0])
  }

  function Codings(fields: seq<Option<string>>): seq<string> {
    if fields == [] then []
    else
      var last := fields[|fields| - 1];
      Codings(fields[..|fields| - 1]) + if last.Some? then CodingsOf(Split(last.value, ',')) else []
  }

  function CodingsOf(parts: seq<string>): (t: seq<string>)
    ensures |t| == |parts| && forall i | 0 <= i < |parts| :: t[i] == Coding(parts[i])
  {
    seq(|parts|, i requires 0 <= i < |parts| => Coding(parts[i]))
  }

  function Lower(c: char): char {
    if 'A' <= c <= 'Z' then (c as int - 'A' as int + 'a' as int) as char else c
  }

  predicate IsChunked(coding: string) {
    |coding| == 7 && Lower(coding[0]) == 'c' && Lower(coding[1]) == 'h' && Lower(coding[2]) == 'u' && Lower(coding[3]) == 'n'
    && Lower(coding[4]) == 'k' && Lower(coding[5]) == 'e' && Lower(coding[6]) == 'd'
  }

  /** No coding is empty, and chunked can only be the last. */
  ghost predicate ProperCodings(codings: seq<string>) {
    && (forall i | 0 <= i < |codings| :: codings[i] != [])
    && (forall i | 0 <= i < |codings| - 1 :: !IsChunked(codings[i]))
  }

  predicate EndsChunked(codings: seq<string>) {
    codings != [] && IsChunked(codings[|codings| - 1])
  }

  lemma {:induction false} CodingsFrom(fields: seq<Option<string>>, k: nat)
    requires k <= |fields|
    ensures |Codings(fields[..k])| <= |Codings(fields)|
    ensures Codings(fields)[..|Codings(fields[..k])|] == Codings(fields[..k])
  {
    if k < |fields| {
      var before := fields[..|fields| - 1];
      CodingsFrom(before, k);
      assert before[..k] == fields[..k];
    } else {
      assert fields[..k] == fields;
    }
  }

  lemma CodingsNotLonger(fields: seq<Option<string>>, k: nat)
    requires k <= |fields| && !ProperCodings(Codings(fields[..k]))
    ensures !ProperCodings(Codings(fields))
  {
    CodingsFrom(fields, k);
    hide Codings;
    PrefixProper(Codings(fields), |Codings(fields[..k])|);
  }

  lemma PrefixProper(codings: seq<string>, n: nat)
    requires n <= |codings|
    ensures ProperCodings(codings) ==> ProperCodings(codings[..n])
  {
  }

  lemma CodingsNext(fields: seq<Option<string>>, k: nat)
    requires k < |fields| && fields[k].Some?
    ensures Codings(fields[..k + 1]) == Codings(fields[..k]) + CodingsOf(Split(fields[k].value, ','))
  {
    assert fields[..k + 1][..k] == fields[..k];
  }

  /** The message is chunked exactly when chunked is the last coding of all fields; an
      empty coding, or anything after chunked, is refused. */
  method TransferEncodingFraming(fields: seq<Option<string>>) returns (ok: bool, seen: bool, chunked: bool)
    ensures ok <==> AllText(fields) && ProperCodings(Codings(fields))
    ensures ok ==> (seen <==> fields != []) && (chunked <==> EndsChunked(Codings(fields)))
  {
    ok, seen, chunked := true, false, false;
    assert fields[..|fields|] == fields;
    assert ProperCodings(Codings(fields[..0])) && !EndsChunked(Codings(fields[..0]));
    hide Codings, Split, AllText, ProperCodings, EndsChunked;
    var k := 0;
    assert AllText(fields[..0]) by { NoFields(fields); }
    while k < |fields|
      invariant k <= |fields| && ok
      invariant AllText(fields[..k]) && ProperCodings(Codings(fields[..k]))
      invariant chunked == EndsChunked(Codings(fields[..k])) && (seen <==> k > 0)
    {
      AllTextNext(fields, k);
      if fields[k].None? {
        return false, false, false;
      }
      CodingsNext(fields, k);
      ghost var before := Codings(fields[..k]);
      ok, chunked := AddCodings(before, Split(fields[k].value, ','), chunked);
      seen := true;
      if !ok {
        CodingsNotLonger(fields, k + 1);
        return false, false, false;
      }
      k := k + 1;
    }
  }

  lemma ProperMore(codings: seq<string>, coding: string)
    requires ProperCodings(codings)
    ensures ProperCodings(codings + [coding]) <==> coding != [] && !EndsChunked(codings)
    ensures EndsChunked(codings + [coding]) <==> IsChunked(coding)
  {
    hide IsChunked;
    var more := codings + [coding];
    assert more[|codings|] == coding;
    if codings != [] {
      assert more[|codings| - 1] == codings[|codings| - 1];
    }
  }

  method AddCodings(ghost before: seq<string>, parts: seq<string>, chunked: bool)
    returns (ok: bool, chunked': bool)
    requires ProperCodings(before) && chunked == EndsChunked(before)
    ensures ok <==> ProperCodings(before + CodingsOf(parts))
    ensures ok ==> chunked' == EndsChunked(before + CodingsOf(parts))
  {
    hide IsChunked, Coding, ProperCodings, EndsChunked;
    chunked' := chunked;
    ghost var all := before + CodingsOf(parts);
    ghost var done := before;
    for i := 0 to |parts|
      invariant done == all[..|before| + i] && ProperCodings(done) && chunked' == EndsChunked(done)
    {
      var coding := Coding(parts[i]);
      ProperMore(done, coding);
      assert done + [coding] == all[..|before| + i + 1];
      if coding == [] || chunked' {
        PrefixProper(all, |before| + i + 1);
        return false, false;
      }
      done := done + [coding];
      chunked' := IsChunked(coding);
    }
    assert all[..|before| + |parts|] == all;
    ok := true;
  }
}
