/**
 * Reading back what serialization writes: `parse` of the serialized text of a
 * scalar value. Strings without quotes or backslashes, booleans and whole
 * numbers come back unchanged, dates come back at millisecond and minute
 * precision; `Null` does not come back (see `Grammar.NullReadsAsString`).
 */
module RoundTrips {
  import opened Errors
  import opened Macros
  import opened Decimal
  import opened Data
  import opened SerialReaders
  import opened Numbers
  import opened Dates
  import opened Grammar

  /** A character that may appear inside a quoted token without ending or escaping it. */
  predicate QuoteFree(s: string) {
    '"' !in s && '\\' !in s
  }

  /** A quoted text without quotes or backslashes inside is read as one quoted token. */
  lemma QuotedText(s: string)
    requires QuoteFree(s)
    ensures ValueOf("\"" + s + "\"") == Ok(Classify(s, true))
  {
    var t := "\"" + s + "\"";
    assert t[1..|s| + 1] == s;
    Dispatch(t, Start);
    QuotedToken(t, Start, s);
  }

  /** A string with neither `"` nor a backslash, that is not a date, reads back as itself. */
  lemma StringRoundTrip(s: string)
    requires QuoteFree(s) && DateOf(s).Err?
    ensures ValueOf(Render(String(s), 0, Scalar)) == Ok(String(s))
  {
    QuotedText(s);
  }

  lemma DigitsQuoteFree(s: string)
    requires AllDigits(s)
    ensures QuoteFree(s)
  {
  }

  /** A text of digit fields, date and time separators and a quote-free zone has no quote or backslash. */
  lemma DateShapeQuoteFree(p0: string, p1: string, p2: string, p3: string, p4: string, p5: string, p6: string, z: string)
    requires AllDigits(p0) && AllDigits(p1) && AllDigits(p2) && AllDigits(p3)
    requires AllDigits(p4) && AllDigits(p5) && AllDigits(p6) && QuoteFree(z)
    ensures QuoteFree(p0 + "-" + p1 + "-" + p2 + "T" + p3 + ":" + p4 + ":" + p5 + "." + p6 + z)
  {
    DigitsQuoteFree(p0);
    DigitsQuoteFree(p1);
    DigitsQuoteFree(p2);
    DigitsQuoteFree(p3);
    DigitsQuoteFree(p4);
    DigitsQuoteFree(p5);
    DigitsQuoteFree(p6);
  }

  lemma ZoneQuoteFree(d: Date)
    ensures QuoteFree(ZoneText(d))
  {
    if d.DateTimeOffset? && d.offset != 0 {
      DigitsQuoteFree(PadLeft(AbsOffset(d) / 3600, 2));
      DigitsQuoteFree(PadLeft((AbsOffset(d) / 60) % 60, 2));
    }
  }

  /** The display text of a date holds digits, separators, `Z` and signs only. */
  lemma DateTextQuoteFree(d: Date)
    ensures QuoteFree(DateText(d))
  {
    var t := d.dt;
    ZoneQuoteFree(d);
    DateShapeQuoteFree(PadLeft(t.year, 4), PadLeft(t.month, 2), PadLeft(t.day, 2), PadLeft(t.hour, 2),
                       PadLeft(t.minute, 2), PadLeft(t.second, 2), PadLeft(t.nano / 1000000, 3), ZoneText(d));
  }

  /** A quoted text that decodes as a date reads back as that date. */
  lemma QuotedDate(s: string, e: Date)
    requires QuoteFree(s) && DateOf(s) == Ok(e)
    ensures ValueOf("\"" + s + "\"") == Ok(Date(e))
  {
    QuotedText(s);
  }

  /** A date is written as its display text in quotes. */
  lemma DateRendered(d: Date)
    ensures Render(Date(d), 0, Scalar) == "\"" + DateText(d) + "\""
  {
  }

  /** A date in range reads back as a date, at millisecond and minute precision. */
  lemma DateValueRoundTrip(d: Date)
    requires InRange(d)
    ensures ValueOf(Render(Date(d), 0, Scalar)) == Ok(Date(Truncated(d)))
  {
    DateRendered(d);
    DateTextQuoteFree(d);
    DateRoundTrip(d);
    QuotedDate(DateText(d), Truncated(d));
  }

  /** Both booleans read back as themselves. */
  lemma BoolRoundTrip(b: bool)
    ensures ValueOf(Render(Bool(b), 0, Scalar)) == Ok(Bool(b))
  {
    if b {
      BareWord("true");
    } else {
      BareWord("false");
    }
  }

  /** No character of s ends an unquoted token. */
  predicate Bare(s: string) {
    forall k :: 0 <= k < |s| ==> !EndsBareToken(s[k])
  }

  /** No character of a digit string ends a bare token. */
  lemma DigitsAreBare(s: string)
    requires AllDigits(s)
    ensures Bare(s)
  {
  }

  /** A character that does not end a token, before a bare text, keeps it bare. */
  lemma BarePrefix(c: char, s: string)
    requires !EndsBareToken(c) && Bare(s)
    ensures Bare([c] + s)
  {
    var t := [c] + s;
    forall k | 0 <= k < |t| ensures !EndsBareToken(t[k]) {
      if k > 0 {
        assert t[k] == s[k - 1];
      }
    }
  }

  /** A text read as one bare token: it starts with neither quote nor bracket, and nothing in it ends a token. */
  lemma BareText(s: string)
    requires s != [] && s[0] != '"' && s[0] != '{' && s[0] != '['
    requires Bare(s)
    ensures ValueOf(s) == Ok(Classify(s, false))
  {
    Dispatch(s, Start);
    BareToken(s, Start, |s|);
    assert s[0..|s|] == s;
  }

  /** A bare token that decodes as a number, and is no keyword, reads back as that number. */
  lemma BareNumber(s: string, n: Number)
    requires s != [] && (s[0] == '-' || IsDigit(s[0]) || s[0] == 'I' || s[0] == 'N')
    requires Bare(s)
    requires NumberOf(s) == Ok(n)
    ensures ValueOf(s) == Ok(Number(n))
  {
    BareText(s);
    assert s[0] != "true"[0] && s[0] != "false"[0] && s[0] != "mull"[0];
  }

  /** The text of a whole number is a sign and digits, none of which ends a bare token. */
  lemma IntTextIsBare(i: int)
    ensures Bare(DecimalText(i))
    ensures IsDigit(DecimalText(i)[0]) || DecimalText(i)[0] == '-'
  {
    if i < 0 {
      DigitsAreBare(NatText(-i));
      BarePrefix('-', NatText(-i));
    } else {
      DigitsAreBare(NatText(i));
    }
  }

  /** The texts of the three sentinels are bare words. */
  lemma SentinelIsBare(n: Number)
    requires n.PositiveInfinity? || n.NegativeInfinity? || n.NaN?
    ensures Bare(NumberText(n))
    ensures NumberText(n)[0] == '-' || NumberText(n)[0] == 'I' || NumberText(n)[0] == 'N'
  {
  }

  /** A whole number reads back as itself. */
  lemma IntValueRoundTrip(i: int)
    ensures ValueOf(Render(Number(Int(i)), 0, Scalar)) == Ok(Number(Int(i)))
  {
    NumberRoundTrip(Int(i));
    IntTextIsBare(i);
    BareNumber(DecimalText(i), Int(i));
  }

  /** Whole numbers and the three sentinels read back as themselves. */
  lemma NumberValueRoundTrip(n: Number)
    requires !n.Float?
    ensures ValueOf(Render(Number(n), 0, Scalar)) == Ok(Number(n))
  {
    if n.Int? {
      IntValueRoundTrip(n.i);
    } else {
      NumberRoundTrip(n);
      SentinelIsBare(n);
      BareNumber(NumberText(n), n);
    }
  }

  /** An empty map is written as an opening brace line and the closing brace. */
  lemma EmptyMapText(indent: nat)
    ensures Render(DataMap(map[]), indent, MapOrder([], [])) == "{\r\n" + Indent(indent) + "}"
  {
  }

  /** An empty list is written as an opening bracket line and the closing bracket. */
  lemma EmptyListText(indent: nat)
    ensures Render(DataList([]), indent, ListOrder([])) == "[\r\n" + Indent(indent) + "]"
  {
  }

  /** The text written for an empty map is not read back: its `}` is taken for a key. */
  lemma EmptyMapNotReadBack()
    ensures ValueOf(Render(DataMap(map[]), 0, MapOrder([], []))) == Err(DataError(StringUnexpectedlyEnded, NoLocation))
  {
    EmptyMapText(0);
    assert "{\r\n" + Indent(0) + "}" == "{" + "\r\n" + "}";
    EmptyBracesRejected("\r\n");
  }

  /** The text written for an empty list is not read back: its `]` is taken for an element. */
  lemma EmptyListNotReadBack()
    ensures ValueOf(Render(DataList([]), 0, ListOrder([]))) == Err(DataError(StringUnexpectedlyEnded, NoLocation))
  {
    EmptyListText(0);
    assert "[\r\n" + Indent(0) + "]" == "[" + "\r\n" + "]";
    EmptyBracketsRejected("\r\n");
  }

  /** A string holding `"` is not read back: the quote ends the token early. */
  lemma QuoteInStringNotReadBack()
    ensures ValueOf(Render(String("a\"b"), 0, Scalar)) != Ok(String("a\"b"))
  {
    var t := "\"" + "a\"b" + "\"";
    assert ValueOf(t) == Ok(Classify("a", true)) by {
      Dispatch(t, Start);
      assert t[1..2] == "a";
      QuotedToken(t, Start, "a");
    }
  }

  /** A quote, a backslash and a quote: the backslash escapes the second quote, so the token is one `"` left open. */
  lemma EscapedQuoteOnly(t: string)
    requires |t| == 3 && t[0] == '"' && t[1] == '\\' && t[2] == '"'
    ensures ValueOf(t) == Ok(Classify("\"", true))
  {
    Dispatch(t, Start);
    TokenStart(t, Start);
    var p1 := Advance(t, Start);
    var s1 := FirstScan('"');
    EscapeStep(t, p1, s1);
    var p3 := AdvanceBy(t, p1, 2);
    assert p3.i == 3;
    assert s1.value + Unescape('"') == "\"";
  }

  /** A string holding a backslash is not read back: the backslash escapes the closing quote. */
  lemma BackslashInStringNotReadBack()
    ensures ValueOf(Render(String("\\"), 0, Scalar)) != Ok(String("\\"))
  {
    EscapedQuoteOnly("\"" + "\\" + "\"");
  }

  /** The text written for a map whose one key holds `"`. */
  lemma QuotedKeyText()
    ensures Render(DataMap(map["a\"b" := Bool(true)]), 0, MapOrder(["a\"b"], [Scalar])) == "{\r\n  \"a\"b\":true\r\n}"
  {
    var m := map["a\"b" := Bool(true)];
    var keys := ["a\"b"];
    assert Indent(0) == "";
    assert MapEntry(m, 0, keys, [Scalar], 0) == "  \"a\"b\":true\r\n";
  }

  /** A text that opens a map whose first key is the quoted `a` followed directly by `b` is rejected. */
  lemma QuotedKeyThenLetter(t: string)
    requires |t| > 8 && t[0] == '{' && t[1] == '\r' && t[2] == '\n' && t[3] == ' ' && t[4] == ' '
    requires t[5] == '"' && t[6] == 'a' && t[7] == '"' && t[8] == 'b'
    ensures ValueOf(t).Err?
  {
    Dispatch(t, Start);
    var p1 := Advance(t, Start);
    var s1 := MapStart.(state := MapState.BeforeKey);
    assert MapLoop(t, Start, MapStart) == MapLoop(t, p1, s1);
    MapSpaces(t, p1, s1, 4);
    var p5 := AdvanceBy(t, p1, 4);
    var s2 := s1.(inquote := true, state := MapState.InKey);
    assert p5.i == 5;
    var p6 := Advance(t, p5);
    assert MapLoop(t, p5, s1) == MapLoop(t, p6, s2);
    var p7 := Advance(t, p6);
    assert p6.i == 6 && s2.key + [t[6]] == "a";
    assert MapLoop(t, p6, s2) == MapLoop(t, p7, s2.(key := "a"));
    var s3 := s2.(key := "a", inquote := false, state := MapState.AfterKey);
    var p8 := Advance(t, p7);
    assert MapLoop(t, p7, s2.(key := "a")) == MapLoop(t, p8, s3);
    MapAfterKeyError(t, p8, s3);
  }

  /** A key holding `"` is not read back: after the quote that ends the key, the map loop meets `b`. */
  lemma QuoteInKeyNotReadBack()
    ensures ValueOf(Render(DataMap(map["a\"b" := Bool(true)]), 0, MapOrder(["a\"b"], [Scalar]))).Err?
  {
    QuotedKeyText();
    QuotedKeyThenLetter("{\r\n  \"a\"b\":true\r\n}");
  }
}
