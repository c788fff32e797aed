/**
 * `parse_number`: the three exact sentinels, otherwise an optional minus sign,
 * decimal digits, and optionally a point followed by more digits.
 *
 * `NumberOf` states the decoder's result directly on the text; `ParseNumber`
 * reads the text through a `StringReader` as the source does and is proved to
 * agree with it. Since the reader yields NUL at the end, the text is cut at
 * its first NUL (`UpToNul`) before it is decoded.
 */
module Numbers {
  import opened Errors
  import opened Macros
  import opened Decimal
  import opened StringReaders
  import opened Data

  /** The position of the first x in s, or |s| when there is none. */
  function FirstIndex(s: string, x: char): (w: nat)
    ensures w <= |s|
    ensures forall j :: 0 <= j < w ==> s[j] != x
    ensures w < |s| ==> s[w] == x
  {
    if s == [] || s[0] == x then 0 else 1 + FirstIndex(s[1..], x)
  }

  /** Whether the decoder reads a leading minus sign. */
  predicate HasSign(s: string) {
    var t := UpToNul(s);
    t != [] && t[0] == '-'
  }

  /** The text after the optional sign, up to the first NUL. */
  function Unsigned(s: string): string {
    var t := UpToNul(s);
    if HasSign(s) then t[1..] else t
  }

  /**
   * The result of `parse_number` on s. A whole number takes the sign; a
   * number with a point is a `Float` whose sign is never set.
   */
  function NumberOf(s: string): (r: Result<Number>)
    ensures r.Err? ==> r.error == UnexpectedChar
    ensures r.Ok? && r.value.Float? ==> !r.value.negative && AllDigits(r.value.fraction)
  {
    if s == "Infinity" then Ok(PositiveInfinity)
    else if s == "-Infinity" then Ok(NegativeInfinity)
    else if s == "NaN" then Ok(NaN)
    else DecodeUnsigned(HasSign(s), Unsigned(s))
  }

  /** A run of digits and its value, or the decoder's error when anything else is in it. */
  function DigitRun(s: string): (r: Result<nat>)
    ensures r.Ok? <==> AllDigits(s)
    ensures r.Ok? ==> r.value == DigitsValue(s)
    ensures r.Err? ==> r.error == UnexpectedChar
  {
    if AllDigits(s) then Ok(DigitsValue(s)) else ParseErr()
  }

  /** Digits, optionally a point and more digits, after a sign that was (neg) or was not read. */
  function DecodeUnsigned(neg: bool, body: string): (r: Result<Number>)
    ensures r.Err? ==> r.error == UnexpectedChar
    ensures r.Ok? ==> r.value.Int? || r.value.Float?
    ensures r.Ok? ==> (r.value.Int? <==> FirstIndex(body, '.') == |body|)
    ensures r.Ok? <==> AllDigits(body[..FirstIndex(body, '.')]) && (FirstIndex(body, '.') < |body| ==> AllDigits(body[FirstIndex(body, '.') + 1..]))
  {
    var w := FirstIndex(body, '.');
    match DigitRun(body[..w])
    case Err(e) => Err(e)
    case Ok(whole) =>
      if w == |body| then Ok(Int(if neg then -(whole as int) else whole))
      else if !AllDigits(body[w + 1..]) then ParseErr()
      else Ok(Float(false, whole, body[w + 1..]))
  }

  /** A text that starts with a lower-case letter is not a number. */
  lemma LetterIsNotNumber(s: string)
    requires s != [] && 'a' <= s[0] <= 'z'
    ensures NumberOf(s) == Err(UnexpectedChar)
  {
    var t := UpToNul(s);
    assert t != [] && t[0] == s[0];
    assert !HasSign(s) && Unsigned(s) == t;
    var w := FirstIndex(t, '.');
    assert w > 0 && !IsDigit(t[..w][0]);
  }

  /** The decoding of a text with a point whose two digit runs are well formed. */
  lemma DecodesToFloat(neg: bool, body: string)
    requires var w := FirstIndex(body, '.'); w < |body| && AllDigits(body[..w]) && AllDigits(body[w + 1..])
    ensures var w := FirstIndex(body, '.');
      DecodeUnsigned(neg, body) == Ok(Float(false, DigitsValue(body[..w]), body[w + 1..]))
  {
  }

  /** What the source's loop over the whole part establishes when it stops at position m of body. */
  lemma WholePartEnds(body: string, m: nat)
    requires m <= |body| && AllDigits(body[..m])
    ensures m == |body| || body[m] == '.' ==> FirstIndex(body, '.') == m
    ensures m < |body| && body[m] != '.' && !IsDigit(body[m]) ==> !AllDigits(body[..FirstIndex(body, '.')])
  {
    var w := FirstIndex(body, '.');
    if m < |body| && body[m] != '.' && !IsDigit(body[m]) {
      assert m < w;
      assert body[..w][m] == body[m];
    }
  }

  /** One more digit read: the digit prefix grows by that digit, and its value by the usual step. */
  lemma DigitsPrefixStep(rest: string, n: nat)
    requires n < |rest| && AllDigits(rest[..n]) && IsDigit(rest[n])
    ensures rest[..n + 1] == rest[..n] + [rest[n]] && AllDigits(rest[..n + 1])
    ensures DigitsValue(rest[..n + 1]) == 10 * DigitsValue(rest[..n]) + ToInt(rest[n])
  {
    assert rest[..n + 1] == rest[..n] + [rest[n]];
    DigitsValueAppend(rest[..n], rest[n]);
  }

  /** The NUL-free text after the sign. */
  lemma UnsignedText(s: string)
    ensures END !in Unsigned(s)
    ensures Unsigned(s) == UpToNul(s)[if HasSign(s) then 1 else 0..]
  {
  }

  /**
   * Reading from position a on: the characters `next` returns on s are those
   * of the NUL-free prefix of s from a on, then NUL.
   */
  lemma ReadsFrom(s: string, a: nat, rest: string, j: nat)
    requires a <= |UpToNul(s)| && rest == UpToNul(s)[a..] && j <= |rest|
    ensures CharAt(s, a + j) == CharAt(rest, j)
  {
    NulEndsInput(s, a + j);
  }

  /** `parse_number`, reading one character at a time. */
  method ParseNumber(s: string) returns (r: Result<Number>)
    ensures r == NumberOf(s)
  {
    if s == "Infinity" { return Ok(PositiveInfinity); }
    if s == "-Infinity" { return Ok(NegativeInfinity); }
    if s == "NaN" { return Ok(NaN); }
    var neg := false;
    var reader := new StringReader(s);
    var c := reader.Next();
    ReadsFrom(s, 0, UpToNul(s), 0);
    if c == '-' {
      neg := true;
      c := reader.Next();
      ReadsFrom(s, 0, UpToNul(s), 1);
    }
    ghost var st := if neg then 1 else 0;
    ghost var body := Unsigned(s);
    UnsignedText(s);
    assert neg == HasSign(s) && st <= |UpToNul(s)| && body == UpToNul(s)[st..];
    assert c == CharAt(s, st) && (c != END ==> reader.pos == st + 1);
    assert NumberOf(s) == DecodeUnsigned(neg, body);
    var whole, stop := ReadWhole(reader, c, st, body);
    if whole.Err? {
      return Err(whole.error);
    }
    ghost var w := FirstIndex(body, '.');
    if stop == END {
      var value: int := whole.value;
      if neg { value := -value; }
      return Ok(Int(value));
    }
    assert body[w + 1..] == UpToNul(s)[st + w + 1..];
    var frac := ReadFraction(reader, body[w + 1..]);
    if frac.Err? {
      return Err(frac.error);
    }
    DecodesToFloat(neg, body);
    return Ok(Float(false, whole.value, frac.value));
  }

  /**
   * The whole-part loop of `parse_number`: from the character c just read
   * (position a of the text) on, accumulates digits as `10 * int + d` until
   * a point or the end, failing at any other character.
   */
  method ReadWhole(reader: StringReader, c: char, ghost a: nat, ghost body: string) returns (r: Result<nat>, stop: char)
    requires reader.Valid() && a <= |UpToNul(reader.chars)| && body == UpToNul(reader.chars)[a..]
    requires c == CharAt(reader.chars, a) && (c != END ==> reader.pos == a + 1)
    modifies reader
    ensures r == DigitRun(body[..FirstIndex(body, '.')])
    ensures var w := FirstIndex(body, '.');
      && (r.Ok? ==> (stop == END <==> w == |body|))
      && (r.Ok? ==> reader.Valid())
      && (r.Ok? && stop != END ==> reader.pos == a + w + 1)
  {
    ghost var s := reader.chars;
    assert END !in body;
    var acc: nat := 0;
    stop := c;
    ghost var m := 0;
    while stop != END && stop != '.'
      invariant m <= |body| && stop == CharAt(s, a + m)
      invariant reader.Valid() && reader.chars == s && (stop != END ==> reader.pos == a + m + 1)
      invariant AllDigits(body[..m]) && acc == DigitsValue(body[..m])
      decreases |body| - m
    {
      ReadsFrom(s, a, body, m);
      assert m < |body|;
      var g := AssertNumeric(stop);
      if g.Fail? {
        WholePartEnds(body, m);
        return Err(g.error), stop;
      }
      DigitsPrefixStep(body, m);
      acc := 10 * acc + ToInt(stop);
      ghost var at := reader.pos;
      assert at == a + (m + 1);
      stop := reader.Next();
      m := m + 1;
      assert stop == CharAt(s, at);
    }
    ReadsFrom(s, a, body, m);
    WholePartEnds(body, m);
    return Ok(acc), stop;
  }

  /**
   * The fraction loop of `parse_number`: reads digits up to the end of the
   * text, failing at the first character that is not a digit. The source
   * accumulates their floating-point value; the model keeps the digits.
   */
  method ReadFraction(reader: StringReader, ghost rest: string) returns (r: Result<string>)
    requires reader.Valid() && reader.pos <= |UpToNul(reader.chars)|
    requires rest == UpToNul(reader.chars)[reader.pos..]
    modifies reader
    ensures r == if AllDigits(rest) then Ok(rest) else ParseErr()
  {
    ghost var s := reader.chars;
    ghost var a := reader.pos;
    assert END !in rest;
    var frac := "";
    var c := reader.Next();
    ghost var n := 0;
    while c != END
      invariant n <= |rest| && c == CharAt(s, a + n)
      invariant reader.Valid() && reader.chars == s && (c != END ==> reader.pos == a + n + 1)
      invariant frac == rest[..n] && AllDigits(frac)
      decreases |rest| - n
    {
      ReadsFrom(s, a, rest, n);
      assert n < |rest|;
      var g := AssertNumeric(c);
      if g.Fail? {
        assert !AllDigits(rest) by {
          assert !IsDigit(rest[n]);
        }
        return Err(g.error);
      }
      DigitsPrefixStep(rest, n);
      frac := frac + [c];
      ghost var at := reader.pos;
      assert at == a + (n + 1);
      c := reader.Next();
      n := n + 1;
      assert c == CharAt(s, at);
    }
    ReadsFrom(s, a, rest, n);
    assert rest == frac;
    return Ok(frac);
  }

  // ---------------------------------------------------------------- properties

  /** A text that starts with a digit, after an optional minus sign, is not a sentinel and is decoded after its sign. */
  lemma SignedText(sign: string, body: string)
    requires sign == "" || sign == "-"
    requires |body| >= 1 && IsDigit(body[0]) && END !in body
    ensures NumberOf(sign + body) == DecodeUnsigned(sign == "-", body)
    ensures HasSign(sign + body) <==> sign == "-"
  {
    var s := sign + body;
    assert s[|sign|] == body[0];
    assert s != "Infinity" && s != "NaN" && s != "-Infinity";
    assert END !in s by {
      forall k | 0 <= k < |s| ensures s[k] != END {
        if k >= |sign| {
          assert s[k] == body[k - |sign|];
        }
      }
    }
    NoNulReadInFull(s);
    assert HasSign(s) <==> sign == "-";
    assert Unsigned(s) == body;
  }

  /** A digit run, then nothing or a point and more digits: where the point is and what is decoded. */
  lemma DecodeBody(neg: bool, whole: string, rest: string)
    requires AllDigits(whole)
    requires rest == "" || (rest[0] == '.' && AllDigits(rest[1..]))
    ensures rest == "" ==>
      DecodeUnsigned(neg, whole + rest) == Ok(Int(if neg then -(DigitsValue(whole) as int) else DigitsValue(whole)))
    ensures rest != "" ==>
      DecodeUnsigned(neg, whole + rest) == Ok(Float(false, DigitsValue(whole), rest[1..]))
  {
    var body := whole + rest;
    var w := FirstIndex(body, '.');
    assert forall j :: 0 <= j < |whole| ==> body[j] == whole[j];
    assert rest != "" ==> body[|whole|] == '.';
    assert w == |whole|;
    assert body[..w] == whole;
    if rest != "" {
      assert body[w + 1..] == rest[1..];
    } else {
      assert body == whole;
    }
  }

  /** Digits after a point are free of NUL, as is the point itself. */
  lemma DigitsNoNul(whole: string, rest: string)
    requires AllDigits(whole)
    requires rest == "" || (rest[0] == '.' && AllDigits(rest[1..]))
    ensures END !in whole + rest
  {
    var body := whole + rest;
    forall k | 0 <= k < |body| ensures body[k] != END {
      if k < |whole| {
        assert body[k] == whole[k];
      } else if k > |whole| {
        assert body[k] == rest[1..][k - |whole| - 1];
      }
    }
  }

  /**
   * How the decoder reads an optional minus sign, a non-empty digit run and
   * then either nothing or a point followed by digits.
   */
  lemma DecodeText(sign: string, whole: string, rest: string)
    requires sign == "" || sign == "-"
    requires |whole| >= 1 && AllDigits(whole)
    requires rest == "" || (rest[0] == '.' && AllDigits(rest[1..]))
    ensures rest == "" ==>
      NumberOf(sign + (whole + rest)) == Ok(Int(if sign == "-" then -(DigitsValue(whole) as int) else DigitsValue(whole)))
    ensures rest != "" ==>
      NumberOf(sign + (whole + rest)) == Ok(Float(false, DigitsValue(whole), rest[1..]))
    ensures HasSign(sign + (whole + rest)) <==> sign == "-"
  {
    DigitsNoNul(whole, rest);
    assert (whole + rest)[0] == whole[0];
    SignedText(sign, whole + rest);
    DecodeBody(sign == "-", whole, rest);
  }

  /** Whole numbers and the three sentinels decode to exactly what displays them. */
  lemma NumberRoundTrip(n: Number)
    requires !n.Float?
    ensures NumberOf(NumberText(n)) == Ok(n)
  {
    if n.Int? {
      var i := n.i;
      if i < 0 {
        assert DecimalText(i) == "-" + (NatText(-i) + "");
        DecodeText("-", NatText(-i), "");
      } else {
        assert DecimalText(i) == "" + (NatText(i) + "");
        DecodeText("", NatText(i), "");
      }
    }
  }

  /** The empty text and a lone minus sign both decode to the whole number zero. */
  lemma EmptyIsZero()
    ensures NumberOf("") == Ok(Int(0))
    ensures NumberOf("-") == Ok(Int(0))
  {
    assert UpToNul("-") == "-" + UpToNul("");
    assert Unsigned("-") == "";
  }

  /** A float's text decodes to its whole part and its fraction without trailing zeros. */
  lemma FloatTextDecodes(negative: bool, whole: nat, fraction: string)
    requires AllDigits(fraction) && TrimZeros(fraction) != []
    ensures NumberOf(FloatText(negative, whole, fraction)) == Ok(Float(false, whole, TrimZeros(fraction)))
    ensures HasSign(FloatText(negative, whole, fraction)) <==> negative
  {
    var f := TrimZeros(fraction);
    var sign := if negative then "-" else "";
    FloatTextParts(negative, whole, fraction);
    assert ("." + f)[1..] == f;
    DecodeText(sign, NatText(whole), "." + f);
  }

  lemma FloatTextParts(negative: bool, whole: nat, fraction: string)
    requires TrimZeros(fraction) != []
    ensures FloatText(negative, whole, fraction) == (if negative then "-" else "") + (NatText(whole) + ("." + TrimZeros(fraction)))
  {
  }

  /**
   * As written, the point branch never applies the sign it read: a negative
   * float's text decodes to a non-negative float.
   */
  lemma FloatSignDropped(whole: nat, fraction: string)
    requires AllDigits(fraction) && TrimZeros(fraction) != []
    ensures NumberOf(FloatText(true, whole, fraction)) != Ok(Float(true, whole, TrimZeros(fraction)))
  {
    FloatTextDecodes(true, whole, fraction);
  }

  /** "-1.5" decodes as 1.5. */
  lemma MinusOnePointFive()
    ensures NumberOf("-1.5") == Ok(Float(false, 1, "5"))
  {
    assert "-1.5" == "-" + ("1" + ".5");
    assert DigitsValue("1") == 1 by {
      assert "1"[..0] == "";
    }
    DecodeText("-", "1", ".5");
  }

  /** The evidently intended `parse_number`: a float keeps the sign that was read. */
  function NumberOfIntended(s: string): (r: Result<Number>)
    ensures r.Ok? && r.value.Float? ==> (r.value.negative <==> HasSign(s))
  {
    match NumberOf(s)
    case Ok(Float(_, whole, fraction)) => Ok(Float(HasSign(s), whole, fraction))
    case other => other
  }

  /** With the sign applied, every float's text decodes back to the float it displays. */
  lemma IntendedFloatRoundTrip(negative: bool, whole: nat, fraction: string)
    requires AllDigits(fraction) && TrimZeros(fraction) != []
    ensures NumberOfIntended(FloatText(negative, whole, fraction)) == Ok(Float(negative, whole, TrimZeros(fraction)))
  {
    FloatTextDecodes(negative, whole, fraction);
  }
}
