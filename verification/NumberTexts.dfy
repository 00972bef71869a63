/** Which texts read as numbers (src/files/frontmatter.rs): signs, zeros, points, exponents and names. */
module NumberTexts {
  import opened Scalars

  // ─── Integers ───────────────────────────────────────────────────

  function Zeros(n: nat): string {
    seq(n, _ => '0')
  }

  /** A sign or none, for a number that is negative or not. */
  predicate IsSign(sign: string, n: int) {
    (sign == "-" && n <= 0) || (sign in {"", "+"} && n >= 0)
  }

  function Magnitude(n: int): nat {
    if n < 0 then -n else n
  }

  function Digit(v: nat): char
    requires v < 10
  {
    ('0' as int + v) as char
  }

  lemma OneMoreDigit(d: nat, v: nat)
    requires d > 0 && v < 10
    ensures PrintNat(10 * d + v) == PrintNat(d) + [Digit(v)]
  {
    assert (10 * d + v) / 10 == d && (10 * d + v) % 10 == v;
  }

  lemma OneDigit(v: nat)
    requires v < 10
    ensures PrintNat(v) == [Digit(v)]
  {
  }

  lemma DigitsSnoc(init: string, last: char)
    requires AllDigits(init) && IsDigit(last)
    ensures AllDigits(init + [last]) && DigitsValue(init + [last]) == 10 * DigitsValue(init) + DigitValue(last)
    ensures Digit(DigitValue(last)) == last
  {
    assert (init + [last])[..|init|] == init;
  }

  lemma {:induction false} DigitsAreZerosAndNumber(s: string) returns (k: nat)
    requires s != "" && AllDigits(s)
    ensures s == Zeros(k) + PrintNat(DigitsValue(s))
    decreases |s|
  {
    hide PrintNat, DigitsValue;
    var init, last := s[..|s| - 1], s[|s| - 1];
    assert last in s && s == init + [last];
    assert AllDigits(init) by { forall c | c in init ensures c in s {} }
    DigitsSnoc(init, last);
    var d, v := DigitsValue(init), DigitValue(last);
    k := 0;
    if init != "" {
      k := DigitsAreZerosAndNumber(init);
    }
    if d == 0 {
      OneDigit(v);
      if init == "" {
        assert Zeros(0) + [last] == s;
      } else {
        OneDigit(0);
        assert Zeros(k) + [Digit(0)] == Zeros(k + 1);
        k := k + 1;
      }
    } else {
      NothingIsZero();
      OneMoreDigit(d, v);
    }
  }

  lemma NothingIsZero()
    ensures DigitsValue("") == 0
  {
  }

  lemma {:induction false} LeadingZeros(k: nat, s: string)
    requires AllDigits(s) && s != ""
    ensures AllDigits(Zeros(k) + s) && DigitsValue(Zeros(k) + s) == DigitsValue(s)
    decreases |s|
  {
    var t := Zeros(k) + s;
    var init := s[..|s| - 1];
    assert t[..|t| - 1] == Zeros(k) + init && t[|t| - 1] == s[|s| - 1];
    assert forall c | c in init :: c in s;
    if init == "" {
      AllZeros(k);
      assert Zeros(k) + init == Zeros(k);
    } else {
      LeadingZeros(k, init);
    }
  }

  lemma {:induction false} AllZeros(k: nat)
    ensures AllDigits(Zeros(k)) && DigitsValue(Zeros(k)) == 0
  {
    if k > 0 {
      AllZeros(k - 1);
      assert Zeros(k)[..k - 1] == Zeros(k - 1);
    }
  }

  /** A text is read as a number exactly when it is a sign or none, any zeros, and the number's own digits. */
  lemma ParseIntExactly(s: string, n: i64)
    ensures ParseInt(s) == Value(n) <==>
            exists sign, k | IsSign(sign, n) :: s == sign + Zeros(k) + PrintNat(Magnitude(n))
  {
    var digits := Unsigned(s);
    if ParseInt(s) == Value(n) {
      var k := DigitsAreZerosAndNumber(digits);
      var sign := s[..|s| - |digits|];
      assert s == sign + digits;
      assert digits[0] in digits;
      SignOf(s, n);
      assert s == sign + Zeros(k) + PrintNat(Magnitude(n));
    }
    forall sign, k: nat | IsSign(sign, n) && s == sign + Zeros(k) + PrintNat(Magnitude(n))
      ensures ParseInt(s) == Value(n)
    {
      SignedDigits(s, sign, k, n);
    }
  }

  lemma SignOf(s: string, n: i64)
    requires ParseInt(s) == Value(n)
    ensures IsSign(s[..|s| - |Unsigned(s)|], n)
    ensures DigitsValue(Unsigned(s)) == Magnitude(n)
  {
    var sign := s[..|s| - |Unsigned(s)|];
    assert sign == "" || sign == [s[0]];
    assert Unsigned(s)[0] in Unsigned(s);
  }

  lemma SignedDigits(s: string, sign: string, k: nat, n: i64)
    requires IsSign(sign, n) && s == sign + Zeros(k) + PrintNat(Magnitude(n))
    ensures ParseInt(s) == Value(n)
  {
    hide PrintNat, DigitsValue;
    var digits := Zeros(k) + PrintNat(Magnitude(n));
    LeadingZeros(k, PrintNat(Magnitude(n)));
    assert s == sign + digits;
    assert digits[0] in digits;
    if sign == "" {
      assert s == digits;
    } else {
      assert s[0] == sign[0] && s[1..] == digits;
    }
  }

  // ─── Floats ─────────────────────────────────────────────────────

  /** The parts of a float text: a sign, and a name or digits around an optional point, with an exponent. */
  datatype FloatParts =
    | Named(sign: string, word: string)
    | Decimal(sign: string, whole: string, point: bool, frac: string, exponent: string)

  ghost predicate IsExponent(e: string) {
    e == "" ||
    exists sign | sign in {"", "+", "-"} && 1 + |sign| < |e| ::
      e[0] in {'e', 'E'} && e[1..1 + |sign|] == sign && AllDigits(e[1 + |sign|..])
  }

  ghost predicate AreParts(p: FloatParts) {
    p.sign in {"", "+", "-"} &&
    match p
    case Named(_, word) => LowerAll(word) in {"inf", "infinity", "nan"}
    case Decimal(_, whole, point, frac, exponent) =>
      && AllDigits(whole) && AllDigits(frac) && IsExponent(exponent)
      && whole + frac != "" && (!point ==> frac == "")
  }

  function Body(p: FloatParts): string {
    match p
    case Named(_, word) => word
    case Decimal(_, whole, point, frac, exponent) => whole + ((if point then "." + frac else "") + exponent)
  }

  lemma ExponentExactly(e: string)
    ensures IsExponentOrEnd(e) <==> IsExponent(e)
  {
    if e != "" {
      var rest := e[1..];
      if IsExponentOrEnd(e) {
        var sign := rest[..|rest| - |Unsigned(rest)|];
        assert e[1..1 + |sign|] == sign && e[1 + |sign|..] == Unsigned(rest);
        assert sign == "" || sign == [rest[0]];
      }
      if IsExponent(e) {
        var sign :| sign in {"", "+", "-"} && 1 + |sign| < |e|
                    && e[0] in {'e', 'E'} && e[1..1 + |sign|] == sign && AllDigits(e[1 + |sign|..]);
        assert e[1 + |sign|] in e[1 + |sign|..];
        assert rest == sign + e[1 + |sign|..];
      }
    }
  }

  lemma {:induction false} DigitRunConcat(digits: string, rest: string)
    requires AllDigits(digits) && (rest == "" || !IsDigit(rest[0]))
    ensures DigitRun(digits + rest) == |digits|
  {
    if digits == "" {
      assert digits + rest == rest;
    } else {
      assert digits[0] in digits && forall c | c in digits[1..] :: c in digits;
      assert (digits + rest)[1..] == digits[1..] + rest;
      DigitRunConcat(digits[1..], rest);
    }
  }

  lemma ExponentStart(e: string)
    requires IsExponent(e)
    ensures e == "" || (!IsDigit(e[0]) && e[0] != '.' && e[0] != '+' && e[0] != '-')
  {
  }

  lemma PartsAreDecimal(p: FloatParts)
    requires p.Decimal? && AreParts(p)
    ensures IsDecimal(Body(p))
  {
    hide IsExponentOrEnd, DigitRun, IsExponent;
    var s := Body(p);
    ExponentStart(p.exponent);
    ExponentExactly(p.exponent);
    var tail := (if p.point then "." + p.frac else "") + p.exponent;
    DigitRunConcat(p.whole, tail);
    assert s[|p.whole|..] == tail;
    if p.point {
      DigitRunConcat(p.frac, p.exponent);
      assert tail[1..] == p.frac + p.exponent;
      assert tail[1 + |p.frac|..] == p.exponent;
    } else {
      assert tail == p.exponent;
    }
  }

  lemma DecimalParts(sign: string, whole: string, point: bool, frac: string, e: string) returns (p: FloatParts)
    requires sign in {"", "+", "-"} && AllDigits(whole) && AllDigits(frac) && IsExponentOrEnd(e)
    requires whole + frac != "" && (!point ==> frac == "")
    ensures p.Decimal? && p.sign == sign && AreParts(p)
    ensures Body(p) == whole + ((if point then "." + frac else "") + e)
  {
    hide IsExponentOrEnd, IsExponent, AllDigits;
    ExponentExactly(e);
    p := Decimal(sign, whole, point, frac, e);
  }

  lemma SplitDecimal(u: string) returns (whole: string, point: bool, frac: string, e: string)
    requires IsDecimal(u)
    ensures AllDigits(whole) && AllDigits(frac) && IsExponentOrEnd(e) && |whole| + |frac| > 0 && (!point ==> frac == "")
    ensures u == whole + ((if point then "." + frac else "") + e)
  {
    hide IsExponentOrEnd, DigitRun;
    var n := DigitRun(u);
    var tail := u[n..];
    whole, point := u[..n], tail != "" && tail[0] == '.';
    DigitRunIsDigits(u);
    if point {
      var rest := tail[1..];
      var m := DigitRun(rest);
      DigitRunIsDigits(rest);
      frac, e := rest[..m], rest[m..];
      assert tail[1 + m..] == e;
      assert tail == "." + frac + e;
    } else {
      frac, e := "", tail;
    }
  }

  lemma DecimalHasParts(u: string, sign: string) returns (p: FloatParts)
    requires IsDecimal(u) && sign in {"", "+", "-"}
    ensures p.Decimal? && p.sign == sign && AreParts(p) && Body(p) == u
  {
    hide IsDecimal, IsExponentOrEnd, AllDigits, AreParts, Body;
    var whole, point, frac, e := SplitDecimal(u);
    p := DecimalParts(sign, whole, point, frac, e);
  }

  lemma BodyHasNoSign(p: FloatParts)
    requires AreParts(p)
    ensures Body(p) != "" && Body(p)[0] != '+' && Body(p)[0] != '-'
  {
    hide IsExponent;
    match p
    case Named(_, word) =>
      assert LowerAll(word)[0] == Lower(word[0]);
      assert "inf"[0] == 'i' && "infinity"[0] == 'i' && "nan"[0] == 'n';
    case Decimal(_, whole, point, frac, exponent) =>
      if whole != "" {
        assert whole[0] in whole;
      } else if frac != "" {
        assert frac[0] in frac;
      }
  }

  /** A text is a float exactly when it is a sign or none before `inf`, `infinity` or `nan` in any case, or before
      digits with at most one point among them and at most one exponent after them. */
  lemma FloatTextExactly(s: string)
    ensures IsFloatText(s) <==> exists p | AreParts(p) :: s == p.sign + Body(p)
  {
    hide IsDecimal, AreParts, Body;
    if IsFloatText(s) {
      var u := Unsigned(s);
      var sign := s[..|s| - |u|];
      assert s == sign + u && (sign == "" || sign == [s[0]]);
      var p := if IsDecimal(u) then Decimal(sign, "", false, "", "") else Named(sign, u);
      if IsDecimal(u) {
        p := DecimalHasParts(u, sign);
      } else {
        NameHasParts(sign, u);
      }
      assert s == p.sign + Body(p);
    }
    forall p | AreParts(p) && s == p.sign + Body(p) ensures IsFloatText(s) {
      PartsAreFloat(s, p);
    }
  }

  lemma NameHasParts(sign: string, u: string)
    requires sign in {"", "+", "-"} && LowerAll(u) in {"inf", "infinity", "nan"}
    ensures AreParts(Named(sign, u)) && Body(Named(sign, u)) == u
  {
  }

  lemma PartsAreFloat(s: string, p: FloatParts)
    requires AreParts(p) && s == p.sign + Body(p)
    ensures IsFloatText(s)
  {
    hide IsDecimal;
    BodyHasNoSign(p);
    if p.Decimal? { PartsAreDecimal(p); }
    if p.sign == "" {
      assert s == Body(p) && Unsigned(s) == s;
    } else {
      assert s[0] == p.sign[0] && s[1..] == Body(p);
      assert Unsigned(s) == Body(p);
    }
  }
}
