/**
 * `parse_date`: an RFC 3339 style timestamp `YYYY-MM-DDTHH:MM:SS`, an optional
 * fraction of a second, and a zone that is `Z` or a signed `HH` or `HH:MM`.
 *
 * `DateOf` states the result directly on the text; `ParseDate` reads the text
 * through a `StringReader` as the source does and is proved to agree with it.
 * As with numbers, only the text before its first NUL is ever examined.
 */
module Dates {
  import opened Errors
  import opened Macros
  import opened Decimal
  import opened StringReaders
  import opened Data

  /** The n digits at position k of t, read as a number, or the decoder's error. */
  function FieldAt(t: string, k: nat, n: nat): (r: Result<nat>)
    ensures r.Ok? <==> k + n <= |t| && AllDigits(t[k..k + n])
    ensures r.Ok? ==> r.value == DigitsValue(t[k..k + n]) && r.value < Pow10(n)
    ensures r.Err? ==> r.error == UnexpectedChar
  {
    if k + n <= |t| && AllDigits(t[k..k + n]) then
      DigitsValueBound(t[k..k + n]);
      Ok(DigitsValue(t[k..k + n]))
    else ParseErr()
  }

  /** A run of j digits that is followed by a non-digit or the end is the leading run. */
  lemma {:induction false} LeadingDigitsAt(u: string, j: nat)
    requires j <= |u| && AllDigits(u[..j]) && (j < |u| ==> !IsDigit(u[j]))
    ensures LeadingDigits(u) == j
    decreases j
  {
    if j > 0 {
      assert u[1..][..j - 1] == u[..j][1..];
      LeadingDigitsAt(u[1..], j - 1);
    } else if u != [] {
      assert !IsDigit(u[0]);
    }
  }

  /** Position k of t holds x. */
  predicate CharIs(t: string, k: nat, x: char) {
    k < |t| && t[k] == x
  }

  /** The number of digits at the start of u. */
  function LeadingDigits(u: string): (n: nat)
    ensures n <= |u| && AllDigits(u[..n])
    ensures n < |u| ==> !IsDigit(u[n])
  {
    if u == [] || !IsDigit(u[0]) then 0
    else
      var n := 1 + LeadingDigits(u[1..]);
      assert u[..n] == [u[0]] + u[1..][..n - 1];
      n
  }

  /** The characters that may end a fraction of a second. */
  predicate EndsFraction(c: char) {
    c == 'Z' || c == '+' || c == '-'
  }

  /**
   * The fraction of a second, for a text whose character 19 follows the
   * seconds: nanoseconds and the position of the zone. With a point, the
   * longest digit run after it must be ended by `Z`, `+` or `-`, and k digits
   * of value v give v * (10^9 / 10^k) nanoseconds (zero beyond nine digits).
   */
  function FractionAt(t: string): (r: Result<(nat, nat)>)
    requires |t| > 19
    ensures r.Ok? ==> 19 <= r.value.1 < |t|
    ensures r.Ok? && t[19] == '.' ==> EndsFraction(t[r.value.1])
    ensures r.Err? ==> r.error == UnexpectedChar
  {
    if t[19] != '.' then Ok((0, 19))
    else
      var n := LeadingDigits(t[20..]);
      var p := 20 + n;
      if p < |t| && EndsFraction(t[p]) then
        DigitRunAt(t, 20);
        Ok((DigitsValue(t[20..p]) * (Pow10(9) / Pow10(n)), p))
      else ParseErr()
  }

  /** The leading digits of t[a..], as a slice of t. */
  lemma DigitRunAt(t: string, a: nat)
    requires a <= |t|
    ensures a + LeadingDigits(t[a..]) <= |t| && AllDigits(t[a..a + LeadingDigits(t[a..])])
  {
    var n := LeadingDigits(t[a..]);
    assert t[a..a + n] == t[a..][..n];
  }

  /**
   * The magnitude of a numeric zone whose sign is at position p, in minutes:
   * two hour digits, then either the end or `:` and two minute digits that
   * end the text.
   */
  function ZoneMinutes(t: string, p: nat): (r: Result<nat>)
    ensures r.Err? ==> r.error == UnexpectedChar
    ensures r.Ok? ==> |t| == p + 3 || (|t| == p + 6 && t[p + 3] == ':')
    ensures r.Ok? ==> r.value < 100 * 60 + 100
  {
    var hh := FieldAt(t, p + 1, 2);
    if hh.Err? then ParseErr()
    else if |t| == p + 3 then Ok(hh.value * 60)
    else if !CharIs(t, p + 3, ':') then ParseErr()
    else
      var mm := FieldAt(t, p + 4, 2);
      if mm.Err? || |t| != p + 6 then ParseErr()
      else Ok(hh.value * 60 + mm.value)
  }

  /**
   * The zone starting at position p, as seconds east of UTC: `Z` must be the
   * last character and gives 0; any other character is a sign, negative
   * only for `-`, followed by the hours and minutes of `ZoneMinutes`.
   */
  function OffsetAt(t: string, p: nat): (r: Result<int>)
    requires p < |t|
    ensures r.Err? ==> r.error == UnexpectedChar
    ensures r.Ok? && t[p] == 'Z' ==> r.value == 0 && |t| == p + 1
    ensures r.Ok? && r.value < 0 ==> t[p] == '-'
  {
    if t[p] == 'Z' then
      if |t| == p + 1 then Ok(0) else ParseErr()
    else
      match ZoneMinutes(t, p)
      case Err(e) => Err(e)
      case Ok(minutes) => Ok(if t[p] == '-' then -(minutes * 60) else minutes * 60)
  }

  /** The fixed part `YYYY-MM-DDTHH:MM:SS`. */
  predicate StampAt(t: string) {
    && FieldAt(t, 0, 4).Ok? && CharIs(t, 4, '-') && FieldAt(t, 5, 2).Ok? && CharIs(t, 7, '-')
    && FieldAt(t, 8, 2).Ok? && CharIs(t, 10, 'T') && FieldAt(t, 11, 2).Ok? && CharIs(t, 13, ':')
    && FieldAt(t, 14, 2).Ok? && CharIs(t, 16, ':') && FieldAt(t, 17, 2).Ok?
  }

  /** The calendar and clock fields of a stamp, with zero nanoseconds. */
  function StampFields(t: string): (dt: DateTime)
    requires StampAt(t)
    ensures dt.nano == 0 && dt.month < 100 && dt.day < 100
    ensures dt.hour < 100 && dt.minute < 100 && dt.second < 100 && dt.year < 10000
  {
    DateTime(FieldAt(t, 0, 4).value, FieldAt(t, 5, 2).value, FieldAt(t, 8, 2).value,
      FieldAt(t, 11, 2).value, FieldAt(t, 14, 2).value, FieldAt(t, 17, 2).value, 0)
  }

  /**
   * The result of `parse_date` on the NUL-free text t: the stamp, something
   * after it, then the fraction and the zone. A zero offset gives the UTC
   * variant.
   */
  function DecodeDate(t: string): (r: Result<Date>)
    ensures r.Err? ==> r.error == UnexpectedChar
    ensures r.Ok? ==> StampAt(t) && r.value.dt == StampFields(t).(nano := r.value.dt.nano)
    ensures r.Ok? ==> (r.value.DateTimeUtc? || r.value.offset != 0)
  {
    if !StampAt(t) || |t| == 19 then ParseErr()
    else
      match FractionAt(t)
      case Err(e) => Err(e)
      case Ok((nano, p)) =>
        match OffsetAt(t, p)
        case Err(e) => Err(e)
        case Ok(offset) =>
          var dt := StampFields(t).(nano := nano);
          Ok(if offset == 0 then DateTimeUtc(dt) else DateTimeOffset(dt, offset))
  }

  /** The result of `parse_date` on s. */
  function DateOf(s: string): (r: Result<Date>)
    ensures r.Err? ==> r.error == UnexpectedChar
  {
    DecodeDate(UpToNul(s))
  }

  // ---------------------------------------------------------------- the decoder

  /** The reader is about to read position a of the NUL-free prefix t of its input. */
  ghost predicate At(reader: StringReader, t: string, a: nat)
    reads reader
  {
    reader.Valid() && t == UpToNul(reader.chars) && a <= |t| && reader.pos == a
  }

  /** One read at position a returns the character there, or NUL at the end, and moves past it. */
  method Read(reader: StringReader, ghost t: string, ghost a: nat) returns (c: char)
    requires At(reader, t, a)
    modifies reader
    ensures c == CharAt(t, a)
    ensures c != END ==> a < |t| && At(reader, t, a + 1)
  {
    NulEndsInput(reader.chars, a);
    c := reader.Next();
  }

  /**
   * A fixed-width field: n characters, each checked with `assert_numeric!`
   * and accumulated as `10 * v + d`.
   */
  method ReadField(reader: StringReader, n: nat, ghost t: string, ghost a: nat) returns (r: Result<nat>)
    requires At(reader, t, a)
    modifies reader
    ensures r == FieldAt(t, a, n)
    ensures r.Ok? ==> At(reader, t, a + n)
  {
    var v: nat := 0;
    for j := 0 to n
      invariant At(reader, t, a + j) && a + j <= |t|
      invariant AllDigits(t[a..a + j]) && v == DigitsValue(t[a..a + j])
    {
      var c := Read(reader, t, a + j);
      var g := AssertNumeric(c);
      if g.Fail? {
        FieldStops(t, a, n, j);
        return Err(g.error);
      }
      FieldGrows(t, a, j);
      v := 10 * v + ToInt(c);
    }
    return Ok(v);
  }

  /** A field with a non-digit (or the end) at offset j < n is rejected. */
  lemma FieldStops(t: string, a: nat, n: nat, j: nat)
    requires j < n && a + j <= |t| && !IsDigit(CharAt(t, a + j))
    ensures FieldAt(t, a, n).Err?
  {
    if a + n <= |t| {
      assert t[a..a + n][j] == t[a + j];
    }
  }

  /** One more digit at offset j extends the digit run and its value. */
  lemma FieldGrows(t: string, a: nat, j: nat)
    requires a + j < |t| && AllDigits(t[a..a + j]) && IsDigit(t[a + j])
    ensures AllDigits(t[a..a + j + 1])
    ensures DigitsValue(t[a..a + j + 1]) == 10 * DigitsValue(t[a..a + j]) + ToInt(t[a + j])
  {
    assert t[a..a + j + 1] == t[a..a + j] + [t[a + j]];
    DigitsValueAppend(t[a..a + j], t[a + j]);
  }

  /** A separator: the next character must be x. */
  method ReadSame(reader: StringReader, x: char, ghost t: string, ghost a: nat) returns (o: Outcome)
    requires At(reader, t, a) && x != END
    modifies reader
    ensures o.Fail? <==> !CharIs(t, a, x)
    ensures o.Fail? ==> o.error == UnexpectedChar
    ensures o.Pass? ==> At(reader, t, a + 1)
  {
    var c := Read(reader, t, a);
    o := AssertSame(c, x);
  }

  /**
   * The fraction loop: after the point, digits accumulate into `nano` and
   * `nanoorder` is multiplied by ten, until `Z`, `+` or `-` scales the value
   * to nanoseconds; NUL or any other character is an error.
   */
  method ReadNanos(reader: StringReader, ghost t: string) returns (r: Result<nat>, c: char)
    requires |t| > 19 && t[19] == '.' && At(reader, t, 20)
    modifies reader
    ensures r.Ok? <==> FractionAt(t).Ok?
    ensures r.Ok? ==> r.value == FractionAt(t).value.0 && c == t[FractionAt(t).value.1]
    ensures r.Ok? ==> At(reader, t, FractionAt(t).value.1 + 1)
    ensures r.Err? ==> r.error == UnexpectedChar
  {
    var nano: nat := 0;
    var order: nat := 1;
    ghost var j: nat := 0;
    while true
      invariant 20 + j <= |t| && At(reader, t, 20 + j)
      invariant AllDigits(t[20..20 + j]) && nano == DigitsValue(t[20..20 + j]) && order == Pow10(j)
      decreases |t| - j
    {
      c := Read(reader, t, 20 + j);
      var g := AssertNotEnd(c);
      if g.Fail? {
        FractionEnd(t, j);
        return Err(g.error), c;
      }
      if IsDigit(c) {
        FractionDigit(t, j);
        nano := 10 * nano + ToInt(c);
        order := order * 10;
        j := j + 1;
      } else if EndsFraction(c) {
        FractionEnd(t, j);
        nano := nano * (Pow10(9) / order);
        return Ok(nano), c;
      } else {
        FractionEnd(t, j);
        return ParseErr(), c;
      }
    }
  }

  /** When the digit run after the point stops at position 20 + j, `FractionAt` is decided by the character there. */
  lemma FractionDigit(t: string, j: nat)
    requires 20 + j < |t| && AllDigits(t[20..20 + j]) && IsDigit(t[20 + j])
    ensures AllDigits(t[20..20 + j + 1])
    ensures DigitsValue(t[20..20 + j + 1]) == 10 * DigitsValue(t[20..20 + j]) + ToInt(t[20 + j])
  {
    assert t[20..20 + j + 1] == t[20..20 + j] + [t[20 + j]];
    DigitsValueAppend(t[20..20 + j], t[20 + j]);
  }

  lemma FractionEnd(t: string, j: nat)
    requires |t| > 19 && t[19] == '.' && 20 + j <= |t| && AllDigits(t[20..20 + j])
    requires 20 + j < |t| ==> !IsDigit(t[20 + j])
    ensures FractionAt(t).Ok? <==> 20 + j < |t| && EndsFraction(t[20 + j])
    ensures FractionAt(t).Ok? ==> FractionAt(t).value == (DigitsValue(t[20..20 + j]) * (Pow10(9) / Pow10(j)), 20 + j)
  {
    assert t[20..][..j] == t[20..20 + j];
    LeadingDigitsAt(t[20..], j);
  }

  /** The zone: `Z` and the end, or a sign, two hour digits and optionally `:` and two minute digits. */
  method ReadOffset(reader: StringReader, c: char, ghost t: string, ghost p: nat) returns (r: Result<int>)
    requires p < |t| && c == t[p] && At(reader, t, p + 1)
    modifies reader
    ensures r == OffsetAt(t, p)
  {
    var offset: int := 0;
    if c == 'Z' {
      var d := Read(reader, t, p + 1);
      if d != END {
        return ParseErr();
      }
      return Ok(0);
    }
    var neg := c == '-';
    var hh := ReadField(reader, 2, t, p + 1);
    if hh.Err? {
      return Err(hh.error);
    }
    offset := hh.value * 60;
    var d := Read(reader, t, p + 3);
    if d != END {
      if d != ':' {
        return ParseErr();
      }
      var mm := ReadField(reader, 2, t, p + 4);
      if mm.Err? {
        return Err(mm.error);
      }
      offset := offset + mm.value;
      d := Read(reader, t, p + 6);
      if d != END {
        return ParseErr();
      }
    }
    offset := offset * 60 * (if neg then -1 else 1);
    return Ok(offset);
  }

  /**
   * `parse_date`: the fixed fields, then a fraction when a point follows the
   * seconds, then the zone. A zero offset gives `DateTimeUtc`, any other
   * `DateTimeOffset`.
   */
  method ParseDate(s: string) returns (r: Result<Date>)
    ensures r == DateOf(s)
  {
    ghost var t := UpToNul(s);
    var reader := new StringReader(s);
    var stamp := ReadStamp(reader, t);
    if stamp.Err? {
      return Err(stamp.error);
    }
    var c := Read(reader, t, 19);
    var g := AssertNotEnd(c);
    if g.Fail? {
      return Err(g.error);
    }
    ghost var p: nat := 19;
    var nano: nat := 0;
    if c == '.' {
      var f;
      f, c := ReadNanos(reader, t);
      if f.Err? {
        return Err(f.error);
      }
      nano := f.value;
      p := FractionAt(t).value.1;
    }
    var offset := ReadOffset(reader, c, t, p);
    if offset.Err? {
      return Err(offset.error);
    }
    var dt := stamp.value.(nano := nano);
    if offset.value == 0 {
      return Ok(DateTimeUtc(dt));
    } else {
      return Ok(DateTimeOffset(dt, offset.value));
    }
  }

  /** `YYYY-MM-DDTHH:MM:SS`: six fields and the five separators between them. */
  method ReadStamp(reader: StringReader, ghost t: string) returns (r: Result<DateTime>)
    requires At(reader, t, 0)
    modifies reader
    ensures r.Ok? <==> StampAt(t)
    ensures r.Ok? ==> At(reader, t, 19) && r.value == StampFields(t)
    ensures r.Err? ==> r.error == UnexpectedChar
  {
    var year := ReadField(reader, 4, t, 0);
    if year.Err? { return Err(year.error); }
    var g := ReadSame(reader, '-', t, 4);
    if g.Fail? { return Err(g.error); }
    var month := ReadField(reader, 2, t, 5);
    if month.Err? { return Err(month.error); }
    g := ReadSame(reader, '-', t, 7);
    if g.Fail? { return Err(g.error); }
    var day := ReadField(reader, 2, t, 8);
    if day.Err? { return Err(day.error); }
    g := ReadSame(reader, 'T', t, 10);
    if g.Fail? { return Err(g.error); }
    var hour := ReadField(reader, 2, t, 11);
    if hour.Err? { return Err(hour.error); }
    g := ReadSame(reader, ':', t, 13);
    if g.Fail? { return Err(g.error); }
    var minute := ReadField(reader, 2, t, 14);
    if minute.Err? { return Err(minute.error); }
    g := ReadSame(reader, ':', t, 16);
    if g.Fail? { return Err(g.error); }
    var second := ReadField(reader, 2, t, 17);
    if second.Err? { return Err(second.error); }
    return Ok(DateTime(year.value, month.value, day.value, hour.value, minute.value, second.value, 0));
  }

  // ---------------------------------------------------------------- properties

  /** A four-digit field (the year) is the positional digit sum the source accumulates. */
  lemma FourDigitField(t: string, k: nat)
    requires k + 4 <= |t| && IsDigit(t[k]) && IsDigit(t[k + 1]) && IsDigit(t[k + 2]) && IsDigit(t[k + 3])
    ensures FieldAt(t, k, 4) == Ok(1000 * ToInt(t[k]) + 100 * ToInt(t[k + 1]) + 10 * ToInt(t[k + 2]) + ToInt(t[k + 3]))
  {
    var u := t[k..k + 4];
    assert AllDigits(u);
    PrefixValue(u, 1);
    PrefixValue(u, 2);
    PrefixValue(u, 3);
    PrefixValue(u, 4);
  }

  /** A two-digit field (month, day, hours, minutes, seconds) is the positional digit sum the source accumulates. */
  lemma TwoDigitField(t: string, k: nat)
    requires k + 2 <= |t| && IsDigit(t[k]) && IsDigit(t[k + 1])
    ensures FieldAt(t, k, 2) == Ok(10 * ToInt(t[k]) + ToInt(t[k + 1]))
  {
    var u := t[k..k + 2];
    assert AllDigits(u);
    PrefixValue(u, 1);
    PrefixValue(u, 2);
  }

  /** The value of the first j + 1 digits extends that of the first j by one digit. */
  lemma PrefixValue(u: string, j: nat)
    requires 0 < j <= |u| && AllDigits(u)
    ensures AllDigits(u[..j - 1]) && DigitsValue(u[..j]) == 10 * DigitsValue(u[..j - 1]) + ToInt(u[j - 1])
  {
    assert u[..j] == u[..j - 1] + [u[j - 1]];
    DigitsValueAppend(u[..j - 1], u[j - 1]);
  }

  /** A field is decided by the characters it covers. */
  lemma FieldOfSlice(t: string, k: nat, piece: string)
    requires k + |piece| <= |t| && t[k..k + |piece|] == piece && AllDigits(piece)
    ensures FieldAt(t, k, |piece|) == Ok(DigitsValue(piece))
  {
  }

  /** The date and time fields as `DateText` writes them, before the fraction. */
  function StampText(dt: DateTime): string {
    PadLeft(dt.year, 4) + "-" + PadLeft(dt.month, 2) + "-" + PadLeft(dt.day, 2)
    + "T" + PadLeft(dt.hour, 2) + ":" + PadLeft(dt.minute, 2) + ":" + PadLeft(dt.second, 2)
  }

  /** Every field fits its width. */
  predicate FieldsInRange(dt: DateTime) {
    dt.year < 10000 && dt.month < 100 && dt.day < 100 && dt.hour < 100 && dt.minute < 100 && dt.second < 100
  }

  /** The stamp text decodes to its fields, whatever follows it. */
  lemma StampRoundTrip(dt: DateTime, rest: string)
    requires FieldsInRange(dt)
    ensures StampAt(StampText(dt) + rest)
    ensures StampFields(StampText(dt) + rest) == dt.(nano := 0)
  {
    var p0, p1, p2 := PadLeft(dt.year, 4), PadLeft(dt.month, 2), PadLeft(dt.day, 2);
    var p3, p4, p5 := PadLeft(dt.hour, 2), PadLeft(dt.minute, 2), PadLeft(dt.second, 2);
    assert |p0| == 4 && |p1| == 2 && |p2| == 2 && |p3| == 2 && |p4| == 2 && |p5| == 2;
    var t := StampText(dt) + rest;
    StampSeparators(p0, p1, p2, p3, p4, p5, rest, t);
    StampSlices(p0, p1, p2, p3, p4, p5, rest, t);
    DateFields(p0, p1, p2, t);
    ClockFields(p3, p4, p5, t);
  }

  /** The year, month and day fields of a stamp decode to the digit strings found at positions 0, 5 and 8. */
  lemma DateFields(p0: string, p1: string, p2: string, t: string)
    requires |p0| == 4 && |p1| == 2 && |p2| == 2 && AllDigits(p0) && AllDigits(p1) && AllDigits(p2)
    requires |t| >= 10 && t[0..4] == p0 && t[5..7] == p1 && t[8..10] == p2
    ensures FieldAt(t, 0, 4) == Ok(DigitsValue(p0))
    ensures FieldAt(t, 5, 2) == Ok(DigitsValue(p1))
    ensures FieldAt(t, 8, 2) == Ok(DigitsValue(p2))
  {
    FieldOfSlice(t, 0, p0);
    FieldOfSlice(t, 5, p1);
    FieldOfSlice(t, 8, p2);
  }

  /** The hour, minute and second fields of a stamp decode to the digit strings found at positions 11, 14 and 17. */
  lemma ClockFields(p3: string, p4: string, p5: string, t: string)
    requires |p3| == 2 && |p4| == 2 && |p5| == 2 && AllDigits(p3) && AllDigits(p4) && AllDigits(p5)
    requires |t| >= 19 && t[11..13] == p3 && t[14..16] == p4 && t[17..19] == p5
    ensures FieldAt(t, 11, 2) == Ok(DigitsValue(p3))
    ensures FieldAt(t, 14, 2) == Ok(DigitsValue(p4))
    ensures FieldAt(t, 17, 2) == Ok(DigitsValue(p5))
  {
    FieldOfSlice(t, 11, p3);
    FieldOfSlice(t, 14, p4);
    FieldOfSlice(t, 17, p5);
  }

  /** The fields of such a stamp sit at positions 0, 5, 8, 11, 14 and 17. */
  lemma StampSlices(p0: string, p1: string, p2: string, p3: string, p4: string, p5: string, rest: string, t: string)
    requires |p0| == 4 && |p1| == 2 && |p2| == 2 && |p3| == 2 && |p4| == 2 && |p5| == 2
    requires t == p0 + "-" + p1 + "-" + p2 + "T" + p3 + ":" + p4 + ":" + p5 + rest
    ensures |t| >= 19 && t[0..4] == p0 && t[5..7] == p1 && t[8..10] == p2
    ensures t[11..13] == p3 && t[14..16] == p4 && t[17..19] == p5
  {
    var l1 := p0 + "-";
    var l2 := l1 + p1;
    var l3 := l2 + "-";
    var l4 := l3 + p2;
    var l5 := l4 + "T";
    var l6 := l5 + p3;
    var l7 := l6 + ":";
    var l8 := l7 + p4;
    var l9 := l8 + ":";
    var l10 := l9 + p5;
    assert |l1| == 5 && |l3| == 8 && |l5| == 11 && |l7| == 14 && |l9| == 17 && |l10| == 19;
    assert t == l10 + rest;
    assert t[17..19] == p5 by {
      SliceRight(l9, p5);
      SliceLeft(l10, rest, 17, 2);
    }
    assert t[14..16] == p4 by {
      SliceRight(l7, p4);
      SliceLeft(l8, ":", 14, 2);
      SliceLeft(l9, p5, 14, 2);
      SliceLeft(l10, rest, 14, 2);
    }
    assert t[11..13] == p3 by {
      SliceRight(l5, p3);
      SliceLeft(l6, ":", 11, 2);
      SliceLeft(l7, p4, 11, 2);
      SliceLeft(l8, ":", 11, 2);
      SliceLeft(l9, p5, 11, 2);
      SliceLeft(l10, rest, 11, 2);
    }
    assert t[8..10] == p2 by {
      SliceRight(l3, p2);
      SliceLeft(l4, "T", 8, 2);
      SliceLeft(l5, p3, 8, 2);
      SliceLeft(l6, ":", 8, 2);
      SliceLeft(l7, p4, 8, 2);
      SliceLeft(l8, ":", 8, 2);
      SliceLeft(l9, p5, 8, 2);
      SliceLeft(l10, rest, 8, 2);
    }
    assert t[5..7] == p1 by {
      SliceRight(l1, p1);
      SliceLeft(l2, "-", 5, 2);
      SliceLeft(l3, p2, 5, 2);
      SliceLeft(l4, "T", 5, 2);
      SliceLeft(l5, p3, 5, 2);
      SliceLeft(l6, ":", 5, 2);
      SliceLeft(l7, p4, 5, 2);
      SliceLeft(l8, ":", 5, 2);
      SliceLeft(l9, p5, 5, 2);
      SliceLeft(l10, rest, 5, 2);
    }
    assert t[0..4] == p0 by {
      SliceLeft(p0, "-", 0, 4);
      assert p0[0..4] == p0;
      SliceLeft(l1, p1, 0, 4);
      SliceLeft(l2, "-", 0, 4);
      SliceLeft(l3, p2, 0, 4);
      SliceLeft(l4, "T", 0, 4);
      SliceLeft(l5, p3, 0, 4);
      SliceLeft(l6, ":", 0, 4);
      SliceLeft(l7, p4, 0, 4);
      SliceLeft(l8, ":", 0, 4);
      SliceLeft(l9, p5, 0, 4);
      SliceLeft(l10, rest, 0, 4);
    }
  }

  /** The separators of such a stamp sit at positions 4, 7, 10, 13 and 16. */
  lemma StampSeparators(p0: string, p1: string, p2: string, p3: string, p4: string, p5: string, rest: string, t: string)
    requires |p0| == 4 && |p1| == 2 && |p2| == 2 && |p3| == 2 && |p4| == 2 && |p5| == 2
    requires t == p0 + "-" + p1 + "-" + p2 + "T" + p3 + ":" + p4 + ":" + p5 + rest
    ensures CharIs(t, 4, '-') && CharIs(t, 7, '-') && CharIs(t, 10, 'T') && CharIs(t, 13, ':') && CharIs(t, 16, ':')
  {
  }

  lemma SliceLeft(x: string, y: string, k: nat, n: nat)
    requires k + n <= |x|
    ensures (x + y)[k..k + n] == x[k..k + n]
  {
  }

  lemma SliceRight(x: string, y: string)
    ensures (x + y)[|x|..|x| + |y|] == y
  {
  }

  /** The offset `ZoneText` writes, in seconds: truncated toward zero to whole minutes. */
  function ZoneOffset(d: Date): int {
    if d.DateTimeUtc? then 0
    else if d.offset < 0 then -(WholeMinutes(-d.offset) as int)
    else WholeMinutes(d.offset)
  }

  /** a seconds cut down to whole minutes. */
  function WholeMinutes(a: nat): nat {
    a / 60 * 60
  }

  /** The offset `ZoneText` keeps has the sign of the original and differs from it by less than a minute; whole minutes are kept exactly. */
  lemma ZoneOffsetBounds(d: Date)
    requires d.DateTimeOffset?
    ensures d.offset >= 0 ==> 0 <= ZoneOffset(d) <= d.offset < ZoneOffset(d) + 60
    ensures d.offset < 0 ==> ZoneOffset(d) - 60 < d.offset <= ZoneOffset(d) <= 0
    ensures d.offset % 60 == 0 ==> ZoneOffset(d) == d.offset
  {
  }

  /** The hour and minute fields `ZoneText` writes fit in two digits and make up the whole minutes of the offset. */
  lemma HoursAndMinutes(a: nat)
    requires a < 360000
    ensures a / 3600 < 100 && (a / 60) % 60 < 60
    ensures ((a / 3600) * 60 + (a / 60) % 60) * 60 == WholeMinutes(a)
  {
    assert (a / 3600) * 60 + (a / 60) % 60 == a / 60;
  }

  /** The zone text decodes to the offset truncated to whole minutes, wherever it starts. */
  lemma ZoneRoundTrip(pre: string, d: Date)
    requires d.DateTimeOffset? ==> -360000 < d.offset < 360000
    ensures OffsetAt(pre + ZoneText(d), |pre|) == Ok(ZoneOffset(d))
  {
    if d.DateTimeOffset? && d.offset != 0 {
      var a := AbsOffset(d);
      var w := WholeMinutes(a);
      assert ZoneOffset(d) == if d.offset < 0 then -(w as int) else w;
      HoursAndMinutes(a);
      PaddedZone(pre, ZoneText(d), d.offset < 0, a / 3600, (a / 60) % 60, w);
    } else {
      UtcZone(pre);
    }
  }

  /** Hours and minutes below 100, each padded to two digits after a sign, decode to their total in seconds. */
  lemma PaddedZone(pre: string, z: string, neg: bool, h: nat, m: nat, total: nat)
    requires h < 100 && m < 100 && total == (h * 60 + m) * 60
    requires z == OffsetText(neg, h, m)
    ensures OffsetAt(pre + z, |pre|) == Ok(if neg then -(total as int) else total)
  {
    var hh, mm := PadLeft(h, 2), PadLeft(m, 2);
    assert |hh| == 2 && |mm| == 2;
    NumericZone(pre, z, neg, hh, mm, total);
  }

  /** `Z` at the very end is offset 0. */
  lemma UtcZone(pre: string)
    ensures OffsetAt(pre + "Z", |pre|) == Ok(0)
  {
    assert (pre + "Z")[|pre|] == 'Z';
  }

  /** A sign, two hour digits, `:` and two minute digits decode to those hours and minutes in seconds, negated after `-`. */
  lemma NumericZone(pre: string, z: string, neg: bool, hh: string, mm: string, total: nat)
    requires |hh| == 2 && |mm| == 2 && AllDigits(hh) && AllDigits(mm)
    requires z == (if neg then "-" else "+") + hh + ":" + mm
    requires total == (DigitsValue(hh) * 60 + DigitsValue(mm)) * 60
    ensures OffsetAt(pre + z, |pre|) == Ok(if neg then -(total as int) else total)
  {
    var t := pre + z;
    var m := DigitsValue(hh) * 60 + DigitsValue(mm);
    ZoneSlices(pre, z, neg, hh, mm);
    ZoneFields(t, |pre|, hh, mm);
    SignedMinutes(t, |pre|, m, neg);
    assert m * 60 == total;
  }

  /** A numeric zone of m minutes is m * 60 seconds, negated only after `-`. */
  lemma SignedMinutes(t: string, p: nat, m: nat, neg: bool)
    requires p < |t| && t[p] == (if neg then '-' else '+') && ZoneMinutes(t, p) == Ok(m)
    ensures OffsetAt(t, p) == Ok(if neg then -(m * 60) else m * 60)
  {
  }

  /** Where the pieces of a numeric zone land in the text. */
  lemma ZoneSlices(pre: string, z: string, neg: bool, hh: string, mm: string)
    requires |hh| == 2 && |mm| == 2
    requires z == (if neg then "-" else "+") + hh + ":" + mm
    ensures |pre + z| == |pre| + 6 && (pre + z)[|pre|] == (if neg then '-' else '+') && (pre + z)[|pre| + 3] == ':'
    ensures (pre + z)[|pre| + 1..|pre| + 3] == hh && (pre + z)[|pre| + 4..|pre| + 6] == mm
  {
    var p := |pre|;
    var l1 := pre + (if neg then "-" else "+");
    var l2 := l1 + hh;
    var l3 := l2 + ":";
    var t := l3 + mm;
    assert t == pre + z;
    SliceRight(l3, mm);
    SliceRight(l1, hh);
    SliceLeft(l2, ":", p + 1, 2);
    SliceLeft(l3, mm, p + 1, 2);
  }

  /** Two hour digits, `:` and two minute digits that end the text give the hours and minutes in minutes. */
  lemma ZoneFields(t: string, p: nat, hh: string, mm: string)
    requires |hh| == 2 && |mm| == 2 && AllDigits(hh) && AllDigits(mm)
    requires |t| == p + 6 && t[p + 1..p + 3] == hh && t[p + 3] == ':' && t[p + 4..p + 6] == mm
    ensures ZoneMinutes(t, p) == Ok(DigitsValue(hh) * 60 + DigitsValue(mm))
  {
    FieldOfSlice(t, p + 4, mm);
    FieldOfSlice(t, p + 1, hh);
    MinutesOfFields(t, p, DigitsValue(hh), DigitsValue(mm));
  }

  /** Hours, `:` and minutes that end the text make `ZoneMinutes`. */
  lemma MinutesOfFields(t: string, p: nat, h: nat, m: nat)
    requires FieldAt(t, p + 1, 2) == Ok(h) && CharIs(t, p + 3, ':') && FieldAt(t, p + 4, 2) == Ok(m) && |t| == p + 6
    ensures ZoneMinutes(t, p) == Ok(h * 60 + m)
  {
  }

  /**
   * Every field fits its width, the nanoseconds are below a second and the
   * offset is a whole number of minutes below 100 hours.
   */
  predicate InRange(d: Date) {
    && FieldsInRange(d.dt) && d.dt.nano < 1000000000
    && (d.DateTimeOffset? ==> -360000 < d.offset < 360000 && d.offset % 60 == 0)
  }

  /**
   * What survives `DateText` and `parse_date`: the nanoseconds cut to
   * milliseconds, the offset cut to whole minutes, and a zero offset read
   * back as UTC.
   */
  function Truncated(d: Date): (e: Date)
    ensures e.dt.nano <= d.dt.nano && d.dt.nano - e.dt.nano < 1000000
  {
    var dt := d.dt.(nano := d.dt.nano / 1000000 * 1000000);
    var off := ZoneOffset(d);
    if off == 0 then DateTimeUtc(dt) else DateTimeOffset(dt, off)
  }

  /** Digits and the separators of a date are not NUL. */
  lemma DigitsAreNotNul(s: string)
    requires AllDigits(s)
    ensures END !in s
  {
    assert !IsDigit(END);
  }

  /** Decoding the display text of a date gives the date back, at millisecond and minute precision. */
  lemma DateRoundTrip(d: Date)
    requires InRange(d)
    ensures DateOf(DateText(d)) == Ok(Truncated(d))
  {
    var ms := d.dt.nano / 1000000;
    var stamp := StampText(d.dt);
    var frac := PadLeft(ms, 3);
    var zone := ZoneText(d);
    var pre := stamp + "." + frac;
    var t := pre + zone;
    assert t == DateText(d);
    Regroup(stamp, ".", frac, zone);
    StampRoundTrip(d.dt, "." + frac + zone);
    assert StampAt(t) && StampFields(t) == d.dt.(nano := 0);
    ZoneRoundTrip(pre, d);
    var off := ZoneOffset(d);
    assert OffsetAt(t, 23) == Ok(off);
    ZoneNoNul(d);
    FractionOfText(stamp, frac, zone);
    FractionScale(3);
    assert Pow10(6) == 1000000;
    assert DigitsValue(frac) == ms;
    assert FractionAt(t) == Ok((ms * 1000000, 23));
    StampNoNul(d.dt);
    DigitsAreNotNul(frac);
    NoNulReadInFull(t);
    DecodeParts(t, 23, ms * 1000000, off);
  }

  lemma Regroup(a: string, b: string, c: string, e: string)
    ensures a + b + c + e == a + (b + c + e)
  {
  }

  /** Three digits between the stamp and the zone are the fraction, and the zone follows them. */
  lemma FractionOfText(stamp: string, frac: string, zone: string)
    requires |stamp| == 19 && |frac| == 3 && AllDigits(frac) && zone != [] && EndsFraction(zone[0])
    ensures FractionAt(stamp + "." + frac + zone) == Ok((DigitsValue(frac) * (Pow10(9) / Pow10(3)), 23))
  {
    var t := stamp + "." + frac + zone;
    assert t[19] == '.' && t[20..23] == frac && t[23] == zone[0];
    FractionEnd(t, 3);
  }

  /** `DecodeDate` assembled from its parts. */
  lemma DecodeParts(t: string, p: nat, nano: nat, off: int)
    requires StampAt(t) && |t| > 19
    requires FractionAt(t) == Ok((nano, p)) && p < |t| && OffsetAt(t, p) == Ok(off)
    ensures DecodeDate(t) == Ok(if off == 0 then DateTimeUtc(StampFields(t).(nano := nano))
                                else DateTimeOffset(StampFields(t).(nano := nano), off))
  {
  }

  lemma StampNoNul(dt: DateTime)
    ensures END !in StampText(dt)
  {
    DigitsAreNotNul(PadLeft(dt.year, 4));
    DigitsAreNotNul(PadLeft(dt.month, 2));
    DigitsAreNotNul(PadLeft(dt.day, 2));
    DigitsAreNotNul(PadLeft(dt.hour, 2));
    DigitsAreNotNul(PadLeft(dt.minute, 2));
    DigitsAreNotNul(PadLeft(dt.second, 2));
  }

  lemma ZoneNoNul(d: Date)
    ensures END !in ZoneText(d) && ZoneText(d) != [] && EndsFraction(ZoneText(d)[0])
  {
    if d.DateTimeOffset? && d.offset != 0 {
      var a := AbsOffset(d);
      DigitsAreNotNul(PadLeft(a / 3600, 2));
      DigitsAreNotNul(PadLeft((a / 60) % 60, 2));
    }
  }

  /** k fraction digits of value v give v * 10^(9-k) nanoseconds when k is at most nine, and 0 beyond. */
  lemma FractionScale(k: nat)
    ensures k <= 9 ==> Pow10(9) / Pow10(k) == Pow10(9 - k)
    ensures k > 9 ==> Pow10(9) / Pow10(k) == 0
  {
    if k <= 9 {
      Pow10Split(9 - k, k);
      DivExact(Pow10(9 - k), Pow10(k));
    } else {
      Pow10Grows(9, k - 9);
    }
  }

  lemma {:induction false} Pow10Split(a: nat, b: nat)
    ensures Pow10(a + b) == Pow10(a) * Pow10(b)
    decreases b
  {
    if b > 0 {
      Pow10Split(a, b - 1);
    }
  }

  lemma {:induction false} Pow10Grows(a: nat, b: nat)
    requires b > 0
    ensures Pow10(a) < Pow10(a + b)
    decreases b
  {
    if b > 1 {
      Pow10Grows(a, b - 1);
    }
  }

  lemma DivExact(a: nat, b: nat)
    requires b > 0
    ensures (a * b) / b == a
  {
    var x := a * b;
    var q: nat := x / b;
    assert x == b * q + x % b && 0 <= x % b < b;
    assert x == b * a;
    assert b * (q + 1) == b * q + b;
    MulMonotone(b, q, a);
    MulMonotone(b, q + 1, a);
  }

  /** Multiplying by a positive factor preserves and reflects the order. */
  lemma MulMonotone(b: nat, x: nat, y: nat)
    requires b > 0
    ensures x <= y <==> b * x <= b * y
  {
    if x <= y {
      MulLe(b, x, y);
    } else {
      assert b * (y + 1) == b * y + b;
      MulLe(b, y + 1, x);
    }
  }

  lemma {:induction false} MulLe(b: nat, x: nat, y: nat)
    requires x <= y
    ensures b * x <= b * y
    decreases y - x
  {
    if x < y {
      MulLe(b, x, y - 1);
      assert b * y == b * (y - 1) + b;
    }
  }

  /**
   * A fraction of k digits of value v is v * 10^(9-k) nanoseconds when k is at
   * most nine; with more digits the scale `10^9 / 10^k` is zero and so is the
   * fraction.
   */
  lemma FractionNanos(t: string)
    requires |t| > 19 && t[19] == '.' && FractionAt(t).Ok?
    ensures var u := t[20..]; var k := LeadingDigits(u);
      && FractionAt(t).value.1 == 20 + k
      && (k <= 9 ==> FractionAt(t).value.0 == DigitsValue(u[..k]) * Pow10(9 - k))
      && (k > 9 ==> FractionAt(t).value.0 == 0)
  {
    var u := t[20..];
    var k := LeadingDigits(u);
    assert t[20..20 + k] == u[..k];
    FractionScale(k);
  }

  /** Without a fraction, any character after the seconds other than `Z` and `-` reads as `+`. */
  lemma AnySignIsPlus(t: string)
    requires |t| > 19 && t[19] != '.' && t[19] != 'Z' && t[19] != '-'
    ensures DecodeDate(t) == DecodeDate(t[19 := '+'])
  {
    var u := t[19 := '+'];
    assert forall k :: 0 <= k < 19 ==> u[k] == t[k];
    SameStamp(t, u);
    assert FractionAt(t) == Ok((0, 19)) == FractionAt(u);
    SameZoneDigits(t, u, 19);
  }

  /** Texts that agree before position 19 agree on the stamp. */
  lemma SameStamp(t: string, u: string)
    requires |t| > 19 && |u| > 19 && t[..19] == u[..19]
    ensures StampAt(t) == StampAt(u)
    ensures StampAt(t) ==> StampFields(t) == StampFields(u)
  {
    forall k: nat, n: nat | k + n <= 19 ensures FieldAt(t, k, n) == FieldAt(u, k, n) {
      SliceOfPrefix(t, 19, k, n);
      SliceOfPrefix(u, 19, k, n);
    }
    assert forall k :: 0 <= k < 19 ==> t[k] == t[..19][k] && u[k] == u[..19][k];
  }

  lemma SliceOfPrefix(t: string, w: nat, k: nat, n: nat)
    requires k + n <= w <= |t|
    ensures t[k..k + n] == t[..w][k..k + n]
  {
  }

  lemma SliceOfSuffix(t: string, w: nat, k: nat, n: nat)
    requires w <= k && k + n <= |t|
    ensures t[k..k + n] == t[w..][k - w..k + n - w]
  {
  }

  /** Texts that agree after position p agree on the hours and minutes of a zone there. */
  lemma SameZoneDigits(t: string, u: string, p: nat)
    requires p < |t| == |u| && t[p + 1..] == u[p + 1..]
    ensures ZoneMinutes(t, p) == ZoneMinutes(u, p)
  {
    forall k: nat, n: nat | p + 1 <= k && k + n <= |t| ensures FieldAt(t, k, n) == FieldAt(u, k, n) {
      SliceOfSuffix(t, p + 1, k, n);
      SliceOfSuffix(u, p + 1, k, n);
    }
    if p + 3 < |t| {
      assert t[p + 3] == t[p + 1..][2] && u[p + 3] == u[p + 1..][2];
    }
  }

  /** A stamp followed by `+00:00` is read as UTC: a zero offset gives the UTC variant. */
  lemma PlusZeroIsUtc(t: string)
    requires StampAt(t) && |t| == 25 && t[19..] == "+00:00"
    ensures DecodeDate(t) == Ok(DateTimeUtc(StampFields(t)))
  {
    var pre := t[..19];
    assert t == pre + "+00:00";
    assert "+00:00" == "+" + "00" + ":" + "00";
    NumericZone(pre, "+00:00", false, "00", "00", 0);
    assert t[19] == '+';
    DecodeParts(t, 19, 0, 0);
  }
}
