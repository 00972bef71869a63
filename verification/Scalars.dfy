/** Scalar texts of the frontmatter format (src/files/frontmatter.rs): string escapes, 64-bit
    integers, and the grammar of float literals. */
module Scalars {

  // ─── Escapes ────────────────────────────────────────────────────

  /** `str::replace` with a one-character pattern. */
  function Replace(s: string, c: char, repl: string): string {
    if s == [] then [] else (if s[0] == c then repl else [s[0]]) + Replace(s[1..], c, repl)
  }

  /** The serializer's five chained replacements, backslash first. */
  function EscapeString(s: string): string {
    Replace(Replace(Replace(Replace(Replace(s, '\\', "\\\\"), '"', "\\\""), '\n', "\\n"), '\r', "\\r"), '\t', "\\t")
  }

  /** What one pass over the string would write for one character. */
  function EscapeChar(c: char): string {
    if c == '\\' then "\\\\"
    else if c == '"' then "\\\""
    else if c == '\n' then "\\n"
    else if c == '\r' then "\\r"
    else if c == '\t' then "\\t"
    else [c]
  }

  function EscapeOnePass(s: string): string {
    if s == [] then [] else EscapeChar(s[0]) + EscapeOnePass(s[1..])
  }

  lemma {:induction false} ReplaceConcat(s: string, t: string, c: char, repl: string)
    ensures Replace(s + t, c, repl) == Replace(s, c, repl) + Replace(t, c, repl)
  {
    if s == [] {
      assert s + t == t;
    } else {
      assert (s + t)[1..] == s[1..] + t;
      ReplaceConcat(s[1..], t, c, repl);
    }
  }

  lemma EscapeConcat(s: string, t: string)
    ensures EscapeString(s + t) == EscapeString(s) + EscapeString(t)
  {
    ReplaceConcat(s, t, '\\', "\\\\");
    var s1, t1 := Replace(s, '\\', "\\\\"), Replace(t, '\\', "\\\\");
    ReplaceConcat(s1, t1, '"', "\\\"");
    var s2, t2 := Replace(s1, '"', "\\\""), Replace(t1, '"', "\\\"");
    ReplaceConcat(s2, t2, '\n', "\\n");
    var s3, t3 := Replace(s2, '\n', "\\n"), Replace(t2, '\n', "\\n");
    ReplaceConcat(s3, t3, '\r', "\\r");
    ReplaceConcat(Replace(s3, '\r', "\\r"), Replace(t3, '\r', "\\r"), '\t', "\\t");
  }

  lemma ReplaceOne(c: char, p: char, repl: string)
    ensures Replace([c], p, repl) == if c == p then repl else [c]
  {
    assert [c][1..] == [];
  }

  /** A two-character result of an earlier replacement is left alone by a later one. */
  lemma ReplaceTwo(c: char, d: char, p: char, repl: string)
    requires c != p && d != p
    ensures Replace([c, d], p, repl) == [c, d]
  {
    assert [c, d][1..] == [d];
    ReplaceOne(d, p, repl);
  }

  lemma EscapeOneChar(c: char)
    ensures EscapeString([c]) == EscapeChar(c)
  {
    ReplaceOne(c, '\\', "\\\\");
    ReplaceOne(c, '"', "\\\"");
    ReplaceOne(c, '\n', "\\n");
    ReplaceOne(c, '\r', "\\r");
    ReplaceOne(c, '\t', "\\t");
    var e := EscapeChar(c);
    if |e| == 2 {
      assert e == [e[0], e[1]];
      if c == '\\' { ReplaceTwo(e[0], e[1], '"', "\\\""); }
      if c == '\\' || c == '"' { ReplaceTwo(e[0], e[1], '\n', "\\n"); }
      if c != '\r' && c != '\t' { ReplaceTwo(e[0], e[1], '\r', "\\r"); }
      if c != '\t' { ReplaceTwo(e[0], e[1], '\t', "\\t"); }
    }
  }

  /** The order of the five replacements is right: together they are one pass. */
  lemma {:induction false} EscapeIsOnePass(s: string)
    ensures EscapeString(s) == EscapeOnePass(s)
  {
    if s != [] {
      assert s == [s[0]] + s[1..];
      EscapeConcat([s[0]], s[1..]);
      EscapeOneChar(s[0]);
      EscapeIsOnePass(s[1..]);
    }
  }

  predicate Escapable(c: char) {
    c == '\\' || c == '"' || c == 'n' || c == 'r' || c == 't'
  }

  function Decode(c: char): char {
    if c == 'n' then '\n' else if c == 'r' then '\r' else if c == 't' then '\t' else c
  }

  function Unescape(s: string): string {
    if s == [] then []
    else if s[0] == '\\' && |s| > 1 && Escapable(s[1]) then [Decode(s[1])] + Unescape(s[2..])
    else [s[0]] + Unescape(s[1..])
  }

  /** The character loop of `unescape_string`; `rest` is what the iterator has left. */
  method UnescapeString(s: string) returns (out: string)
    ensures out == Unescape(s)
  {
    out := "";
    var rest := s;
    while rest != []
      invariant out + Unescape(rest) == Unescape(s)
      decreases |rest|
    {
      if rest[0] == '\\' && |rest| > 1 && Escapable(rest[1]) {
        out, rest := out + [Decode(rest[1])], rest[2..];
      } else {
        out, rest := out + [rest[0]], rest[1..];
      }
    }
  }

  lemma {:induction false} UnescapeOnePass(s: string)
    ensures Unescape(EscapeOnePass(s)) == s
  {
    if s != [] {
      var e, rest := EscapeChar(s[0]), EscapeOnePass(s[1..]);
      UnescapeOnePass(s[1..]);
      assert (e + rest)[|e|..] == rest;
      assert s == [s[0]] + s[1..];
    }
  }

  /** Unescaping undoes escaping, for every string. */
  lemma UnescapeEscape(s: string)
    ensures Unescape(EscapeString(s)) == s
  {
    EscapeIsOnePass(s);
    UnescapeOnePass(s);
  }

  /** Escaped text holds no raw newline or carriage return, so it stays on its line. */
  lemma {:induction false} EscapedHasNoLineBreak(s: string)
    ensures '\n' !in EscapeOnePass(s) && '\r' !in EscapeOnePass(s)
  {
    if s != [] {
      EscapedHasNoLineBreak(s[1..]);
      assert '\n' !in EscapeChar(s[0]) && '\r' !in EscapeChar(s[0]);
    }
  }

  // ─── Integers ───────────────────────────────────────────────────

  const I64_MIN := -0x8000_0000_0000_0000
  const I64_MAX := 0x7FFF_FFFF_FFFF_FFFF

  type i64 = n: int | I64_MIN <= n <= I64_MAX

  predicate IsDigit(c: char) {
    '0' <= c <= '9'
  }

  predicate AllDigits(s: string) {
    forall c | c in s :: IsDigit(c)
  }

  function DigitValue(c: char): nat
    requires IsDigit(c)
  {
    c as int - '0' as int
  }

  function DigitsValue(s: string): nat
    requires AllDigits(s)
  {
    if s == [] then 0
    else
      assert s[|s| - 1] in s;
      10 * DigitsValue(s[..|s| - 1]) + DigitValue(s[|s| - 1])
  }

  function Unsigned(s: string): string {
    if s != [] && (s[0] == '-' || s[0] == '+') then s[1..] else s
  }

  datatype Parsed<T> = Value(value: T) | NotParsed

  /** `str::parse::<i64>`: an optional sign, then at least one digit, within range. */
  function ParseInt(s: string): Parsed<i64> {
    var digits := Unsigned(s);
    if digits == [] || !AllDigits(digits) then NotParsed
    else
      var magnitude: int := DigitsValue(digits);
      var n := if s[0] == '-' then -magnitude else magnitude;
      if I64_MIN <= n <= I64_MAX then Value(n) else NotParsed
  }

  function PrintNat(n: nat): (s: string)
    ensures s != [] && AllDigits(s) && DigitsValue(s) == n
  {
    var last := [('0' as int + n % 10) as char];
    if n < 10 then
      assert last[..0] == [];
      last
    else
      var s := PrintNat(n / 10) + last;
      assert s[..|s| - 1] == PrintNat(n / 10);
      s
  }

  function PrintInt(n: i64): string {
    if n < 0 then "-" + PrintNat(-(n as int)) else PrintNat(n)
  }

  lemma ParsePrintedInt(n: i64)
    ensures ParseInt(PrintInt(n)) == Value(n)
  {
    if n < 0 {
      assert PrintInt(n)[1..] == PrintNat(-(n as int));
    } else {
      assert PrintInt(n)[0] in PrintInt(n);
      assert IsDigit(PrintInt(n)[0]);
    }
  }

  // ─── Floats ─────────────────────────────────────────────────────

  function Lower(c: char): char {
    if 'A' <= c <= 'Z' then (c as int + 32) as char else c
  }

  function LowerAll(s: string): (r: string)
    ensures |r| == |s|
  {
    seq(|s|, i requires 0 <= i < |s| => Lower(s[i]))
  }

  function DigitRun(s: string): (n: nat)
    ensures n <= |s|
  {
    if s != [] && IsDigit(s[0]) then 1 + DigitRun(s[1..]) else 0
  }

  /** Optional `e`, optional sign, at least one digit, and then the end. */
  predicate IsExponentOrEnd(s: string) {
    s != [] ==>
      && Lower(s[0]) == 'e'
      && Unsigned(s[1..]) != []
      && AllDigits(Unsigned(s[1..]))
  }

  predicate IsDecimal(s: string) {
    var whole := DigitRun(s);
    var tail := s[whole..];
    if tail != [] && tail[0] == '.' then
      var frac := DigitRun(tail[1..]);
      whole + frac > 0 && IsExponentOrEnd(tail[1 + frac..])
    else
      whole > 0 && IsExponentOrEnd(tail)
  }

  /** Whether `str::parse::<f64>` accepts the text. */
  predicate IsFloatText(s: string) {
    var u := Unsigned(s);
    LowerAll(u) == "inf" || LowerAll(u) == "infinity" || LowerAll(u) == "nan" || IsDecimal(u)
  }

  predicate IsFloatChar(c: char) {
    IsDigit(c) || 'a' <= c <= 'z' || 'A' <= c <= 'Z' || c == '+' || c == '-' || c == '.'
  }

  lemma {:induction false} DigitRunIsDigits(s: string)
    ensures AllDigits(s[..DigitRun(s)])
  {
    if s != [] && IsDigit(s[0]) {
      DigitRunIsDigits(s[1..]);
      assert s[..DigitRun(s)] == [s[0]] + s[1..][..DigitRun(s[1..])];
    }
  }

  lemma UnsignedChars(s: string)
    requires forall c | c in Unsigned(s) :: IsFloatChar(c)
    ensures forall c | c in s :: IsFloatChar(c)
  {
    if Unsigned(s) != s {
      assert s == [s[0]] + Unsigned(s);
    }
  }

  lemma ExponentChars(s: string)
    requires IsExponentOrEnd(s)
    ensures forall c | c in s :: IsFloatChar(c)
  {
    if s != [] {
      UnsignedChars(s[1..]);
      assert s == [s[0]] + s[1..];
    }
  }

  lemma FloatCharsOfParts(s: string, n: nat)
    requires n <= |s|
    requires (forall c | c in s[..n] :: IsFloatChar(c)) && forall c | c in s[n..] :: IsFloatChar(c)
    ensures forall c | c in s :: IsFloatChar(c)
  {
    assert s == s[..n] + s[n..];
  }

  lemma DecimalChars(s: string)
    requires IsDecimal(s)
    ensures forall c | c in s :: IsFloatChar(c)
  {
    hide IsExponentOrEnd, DigitRun;
    var whole := DigitRun(s);
    var tail := s[whole..];
    DigitRunIsDigits(s);
    if tail != [] && tail[0] == '.' {
      var frac := DigitRun(tail[1..]);
      DigitRunIsDigits(tail[1..]);
      ExponentChars(tail[1..][frac..]);
      FloatCharsOfParts(tail[1..], frac);
      FloatCharsOfParts(tail, 1);
    } else {
      ExponentChars(tail);
    }
    FloatCharsOfParts(s, whole);
  }

  lemma NamedFloatChars(s: string)
    requires LowerAll(s) == "inf" || LowerAll(s) == "infinity" || LowerAll(s) == "nan"
    ensures forall c | c in s :: IsFloatChar(c)
  {
    forall i | 0 <= i < |s| ensures IsFloatChar(s[i]) {
      assert LowerAll(s)[i] == Lower(s[i]);
    }
  }

  /** A float text is made of digits, letters, signs and dots, and there is some of it. */
  lemma FloatTextChars(s: string)
    requires IsFloatText(s)
    ensures s != "" && forall c | c in s :: IsFloatChar(c)
    ensures IsFloatChar(s[0]) && IsFloatChar(s[|s| - 1])
    ensures s != "null" && s != "true" && s != "false"
  {
    if IsDecimal(Unsigned(s)) {
      DecimalChars(Unsigned(s));
    } else {
      NamedFloatChars(Unsigned(s));
    }
    UnsignedChars(s);
    assert s[0] in s && s[|s| - 1] in s;
    assert LowerAll("null")[0] == 'n' && LowerAll("null")[1] == 'u';
    assert LowerAll("true")[0] == 't' && LowerAll("false")[0] == 'f';
  }

  function Infinity(): (s: string)
    ensures IsFloatText(s) && ParseInt(s) == NotParsed
  {
    assert Unsigned("inf") == "inf" && LowerAll("inf") == "inf";
    assert "inf"[0] in "inf" && !IsDigit("inf"[0]);
    "inf"
  }

  /** What `{:?}` prints for a float: a float text that is not an integer text. */
  type FloatText = s: string | IsFloatText(s) && ParseInt(s) == NotParsed witness Infinity()

  /** The printed form of the value a float text denotes. Rounding is not modelled: the map is a
      parameter, and all that is asked of it is that printing a printed value changes nothing. */
  type Canonical = string -> FloatText

  ghost predicate Lawful(canon: Canonical) {
    forall s :: canon(canon(s)) == canon(s)
  }
}
