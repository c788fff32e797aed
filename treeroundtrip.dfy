/**
 * Reading back a whole serialized tree: `parse` of the text
 * `get_serialized_string` writes gives the tree back, with every date cut to
 * milliseconds and whole minutes of offset.
 *
 * This holds for trees whose strings hold no `"` or backslash and are not
 * dates, whose keys hold no `"`, whose numbers are not floats, which hold no
 * `Null` or `None`, and whose maps and lists are not empty: the serializer
 * does not escape, `Null` is written as a word the parser does not take for
 * null, a float loses its sign, and an empty container is not read back
 * (`RoundTrips`).
 *
 * The proof follows the text: each lemma takes a cursor and a state of one of
 * the parser loops, and the piece of serialized text found at the cursor.
 */
module TreeRoundTrips {
  import opened Errors
  import opened Macros
  import opened Data
  import opened SerialReaders
  import opened Numbers
  import opened Dates
  import opened Grammar
  import opened RoundTrips

  /** Values whose serialized text reads back. */
  predicate Readable(v: DataValue)
    decreases v
  {
    match v
    case String(s) => QuoteFree(s) && DateOf(s).Err?
    case Date(d) => InRange(d)
    case Number(n) => !n.Float?
    case Bool(_) => true
    case DataMap(m) => m != map[] && forall k :: k in m ==> '"' !in k && Readable(m[k])
    case DataList(xs) => xs != [] && forall j :: 0 <= j < |xs| ==> Readable(xs[j])
    case _ => false
  }

  /** A value and an entry order for its maps: the arguments of a serialization. */
  datatype Layout = Layout(v: DataValue, o: Order)

  /** A readable value with an entry order that fits it. */
  type Laid = t: Layout | Readable(t.v) && Fits(t.o, t.v) witness Layout(Bool(true), Scalar)

  /** The value under key j of a laid-out map, with its own entry order. */
  function EntryOf(t: Laid, j: nat): Laid
    requires t.v.DataMap? && j < |t.o.keys|
  {
    Layout(t.v.entries[t.o.keys[j]], t.o.children[j])
  }

  /** Element j of a laid-out list, with its own entry order. */
  function ItemOf(t: Laid, j: nat): Laid
    requires t.v.DataList? && j < |t.v.items|
  {
    Layout(t.v.items[j], t.o.children[j])
  }

  /** What reading the serialized text of v gives: v with every date truncated. */
  function ReadBack(v: DataValue): DataValue
    decreases v
  {
    match v
    case Date(d) => Date(Truncated(d))
    case DataMap(m) => DataMap(ReadBackEntries(m))
    case DataList(xs) => DataList(ReadBackItems(xs, |xs|))
    case _ => v
  }

  /** The entries of a map read back. */
  function ReadBackEntries(m: map<string, DataValue>): map<string, DataValue>
    decreases DataMap(m), 0
  {
    map k | k in m :: ReadBack(m[k])
  }

  /** The first j elements of a list read back. */
  function ReadBackItems(xs: seq<DataValue>, j: nat): seq<DataValue>
    requires j <= |xs|
    decreases DataList(xs), 0
  {
    seq(j, i requires 0 <= i < j => ReadBack(xs[i]))
  }

  /** Reading element j back extends the elements read before it. */
  lemma ReadBackItemsNext(xs: seq<DataValue>, j: nat)
    requires j < |xs|
    ensures ReadBackItems(xs, j) + [ReadBack(xs[j])] == ReadBackItems(xs, j + 1)
  {
  }

  // ------------------------------------------------------------ text at a cursor

  /** The characters from index a on start with t. */
  predicate Holds(chars: seq<char>, a: nat, t: string) {
    a + |t| <= |chars| && forall k :: 0 <= k < |t| ==> chars[a + k] == t[k]
  }

  /** Index a is the end of the input or a character that ends a bare token. */
  predicate Ends(chars: seq<char>, a: nat) {
    a == |chars| || (a < |chars| && EndsBareToken(chars[a]))
  }

  /** Text x + y at a is x at a, then y right after it. */
  lemma Split(chars: seq<char>, a: nat, x: string, y: string)
    requires Holds(chars, a, x + y)
    ensures Holds(chars, a, x) && Holds(chars, a + |x|, y)
  {
    forall k | 0 <= k < |x| ensures chars[a + k] == x[k] {
      assert (x + y)[k] == x[k];
    }
    forall k | 0 <= k < |y| ensures chars[a + |x| + k] == y[k] {
      assert (x + y)[|x| + k] == y[k];
    }
  }

  /** A text found at a is the slice of the input there. */
  lemma HoldsSlice(chars: seq<char>, a: nat, t: string)
    requires Holds(chars, a, t)
    ensures chars[a..a + |t|] == t
  {
  }

  /** The characters of a text found at a. */
  lemma HoldsChars(chars: seq<char>, a: nat, t: string)
    requires Holds(chars, a, t)
    ensures forall k :: a <= k < a + |t| ==> chars[k] == t[k - a]
  {
    forall k | a <= k < a + |t| ensures chars[k] == t[k - a] {
      assert chars[a + (k - a)] == t[k - a];
    }
  }

  /** A run of n spaces found at a. */
  lemma HoldsSpaces(chars: seq<char>, a: nat, t: string)
    requires Holds(chars, a, t) && forall k :: 0 <= k < |t| ==> t[k] == ' '
    ensures forall k :: a <= k < a + |t| ==> IsSpace(chars[k])
  {
    HoldsChars(chars, a, t);
  }

  /** From index e on: 2 * indent spaces of indentation, then the closing character c. */
  predicate Closes(chars: seq<char>, e: nat, indent: nat, c: char) {
    e + 2 * indent < |chars| && (forall i :: e <= i < e + 2 * indent ==> IsSpace(chars[i])) && chars[e + 2 * indent] == c
  }

  // ---------------------------------------------------------------- dispatch

  /** A value that starts with neither `{` nor `[` is read as one token. */
  lemma LiteralDispatch(chars: seq<char>, p: Pos)
    requires p.i < |chars| && !IsSpace(chars[p.i]) && chars[p.i] != '{' && chars[p.i] != '['
    ensures ParseValue(chars, p) == Ok(Literal(chars, p))
  {
    Dispatch(chars, p);
  }

  /** A value that starts with `{` is read by the map loop. */
  lemma MapDispatch(chars: seq<char>, p: Pos)
    requires p.i < |chars| && chars[p.i] == '{'
    ensures ParseValue(chars, p) == AsMap(MapLoop(chars, p, MapStart))
  {
    Dispatch(chars, p);
  }

  /** A value that starts with `[` is read by the list loop. */
  lemma ListDispatch(chars: seq<char>, p: Pos)
    requires p.i < |chars| && chars[p.i] == '['
    ensures ParseValue(chars, p) == AsList(ListLoop(chars, p, ListStart))
  {
    Dispatch(chars, p);
  }

  // ---------------------------------------------------------------- scalars

  /** The pieces of a quoted text found at a: the quotes and the characters between them. */
  lemma QuotedPieces(chars: seq<char>, a: nat, s: string)
    requires QuoteFree(s) && Holds(chars, a, "\"" + s + "\"")
    ensures a + |s| + 2 <= |chars| && chars[a] == '"' && chars[a + |s| + 1] == '"'
    ensures chars[a + 1..a + |s| + 1] == s && '"' !in s && '\\' !in s
  {
    Split(chars, a, "\"" + s, "\"");
    Split(chars, a, "\"", s);
    HoldsChars(chars, a, "\"");
    HoldsChars(chars, a + |s| + 1, "\"");
    HoldsSlice(chars, a + 1, s);
  }

  /** A quoted text without quotes or backslashes, found at p, is read as one quoted token. */
  lemma QuotedAt(chars: seq<char>, p: Pos, s: string)
    requires QuoteFree(s) && Holds(chars, p.i, "\"" + s + "\"")
    ensures p.i < |chars| && !IsSpace(chars[p.i])
    ensures ParseValue(chars, p) == Ok((Classify(s, true), Literal(chars, p).1))
    ensures Literal(chars, p).1.i == p.i + |s| + 2
  {
    QuotedPieces(chars, p.i, s);
    LiteralDispatch(chars, p);
    QuotedToken(chars, p, s);
  }

  /** No character of a bare text found at a ends a bare token. */
  lemma BareRun(chars: seq<char>, a: nat, t: string)
    requires Holds(chars, a, t) && Bare(t)
    ensures t != [] ==> chars[a] == t[0]
    ensures forall k :: a <= k < a + |t| ==> !EndsBareToken(chars[k])
  {
    if t != [] {
      assert chars[a..a + |t|][0] == chars[a];
    }
    forall k | a <= k < a + |t| ensures !EndsBareToken(chars[k]) {
      assert chars[a..a + |t|][k - a] == chars[k];
      assert !EndsBareToken(t[k - a]);
    }
  }

  /** A run of characters that do not end a bare token, found at p and followed by a terminator, is one bare token. */
  lemma BareLiteral(chars: seq<char>, p: Pos, n: nat)
    requires 0 < n && p.i + n <= |chars| && chars[p.i] != '"'
    requires forall k :: p.i <= k < p.i + n ==> !EndsBareToken(chars[k])
    requires Ends(chars, p.i + n)
    ensures Literal(chars, p).0 == Classify(chars[p.i..p.i + n], false) && Literal(chars, p).1.i == p.i + n
  {
    BareToken(chars, p, n);
  }

  /** A bare text found at p that starts like a literal is a run the literal parser reads as one token. */
  lemma BareStart(chars: seq<char>, p: Pos, t: string)
    requires t != [] && t[0] != '"' && t[0] != '{' && t[0] != '[' && Bare(t)
    requires Holds(chars, p.i, t)
    ensures 0 < |t| && p.i + |t| <= |chars| && chars[p.i] != '"' && chars[p.i] != '{' && chars[p.i] != '['
    ensures p.i < |chars| && !IsSpace(chars[p.i])
    ensures forall k :: p.i <= k < p.i + |t| ==> !EndsBareToken(chars[k])
  {
    BareRun(chars, p.i, t);
  }

  /** n characters of an input from position p on. */
  datatype Token = Token(chars: seq<char>, p: Pos, n: nat)

  /** The token starts like a literal, holds no character that ends a bare token, and is followed by one or by the end. */
  predicate IsRun(x: Token) {
    && 0 < x.n && x.p.i + x.n <= |x.chars|
    && x.chars[x.p.i] != '"' && x.chars[x.p.i] != '{' && x.chars[x.p.i] != '[' && !IsSpace(x.chars[x.p.i])
    && (forall k :: x.p.i <= k < x.p.i + x.n ==> !EndsBareToken(x.chars[k]))
    && Ends(x.chars, x.p.i + x.n)
  }

  /** A bare run: what the literal parser reads as one bare token. */
  type Run = x: Token | IsRun(x) witness Token("a", Start, 1)

  /** The characters of a run. */
  function RunText(x: Run): string {
    x.chars[x.p.i..x.p.i + x.n]
  }

  /** A bare run is read as one token, classified from its characters, and reading stops right after it. */
  lemma BareAt(x: Run)
    ensures ParseValue(x.chars, x.p) == Ok((Classify(RunText(x), false), Literal(x.chars, x.p).1))
    ensures Literal(x.chars, x.p).1.i == x.p.i + x.n
  {
    LiteralDispatch(x.chars, x.p);
    BareLiteral(x.chars, x.p, x.n);
  }

  /** The run found at p where text t holds. */
  lemma RunOf(chars: seq<char>, p: Pos, t: string) returns (x: Run)
    requires t != [] && t[0] != '"' && t[0] != '{' && t[0] != '[' && Bare(t)
    requires Holds(chars, p.i, t) && Ends(chars, p.i + |t|)
    ensures x == Token(chars, p, |t|) && RunText(x) == t
  {
    BareStart(chars, p, t);
    HoldsSlice(chars, p.i, t);
    x := Token(chars, p, |t|);
  }

  /** `true` and `false` are bare words. */
  lemma KeywordsAreBare()
    ensures Bare("true") && Bare("false")
  {
  }

  /** A text that starts like a number and decodes as one is classified as that number. */
  lemma NumberWord(t: string, n: Number)
    requires t != [] && (t[0] == '-' || IsDigit(t[0]) || t[0] == 'I' || t[0] == 'N')
    requires NumberOf(t) == Ok(n)
    ensures Classify(t, false) == Number(n)
  {
    assert t[0] != "true"[0] && t[0] != "false"[0] && t[0] != "mull"[0];
  }

  /** The text of a whole number or a sentinel is a bare word that starts like a number. */
  lemma NumberShape(n: Number)
    requires !n.Float?
    ensures NumberText(n) != [] && Bare(NumberText(n))
    ensures var c := NumberText(n)[0]; c == '-' || IsDigit(c) || c == 'I' || c == 'N'
  {
    if n.Int? {
      IntTextIsBare(n.i);
    } else {
      SentinelIsBare(n);
    }
  }

  /** The text of a whole number or a sentinel is classified as that number. */
  lemma NumberClassified(n: Number)
    requires !n.Float?
    ensures Classify(NumberText(n), false) == Number(n)
  {
    NumberRoundTrip(n);
    NumberShape(n);
    NumberWord(NumberText(n), n);
  }

  /** A run whose characters are the text of a whole number or a sentinel is read as that number. */
  lemma NumberRun(x: Run, n: Number)
    requires !n.Float? && RunText(x) == NumberText(n)
    ensures ParseValue(x.chars, x.p).Ok? && ParseValue(x.chars, x.p).value.0 == Number(n)
    ensures ParseValue(x.chars, x.p).value.1.i == x.p.i + x.n
  {
    NumberClassified(n);
    BareAt(x);
  }

  /** A whole number or a sentinel, found at p and followed by a terminator, is read back. */
  lemma NumberAt(chars: seq<char>, p: Pos, n: Number)
    requires !n.Float? && Holds(chars, p.i, NumberText(n)) && Ends(chars, p.i + |NumberText(n)|)
    ensures p.i < |chars| && !IsSpace(chars[p.i])
    ensures ParseValue(chars, p).Ok? && ParseValue(chars, p).value.0 == Number(n)
    ensures ParseValue(chars, p).value.1.i == p.i + |NumberText(n)|
  {
    NumberShape(n);
    var x := RunOf(chars, p, NumberText(n));
    NumberRun(x, n);
  }

  /** A run whose characters are `true` or `false` is read as that boolean. */
  lemma BoolRun(x: Run, b: bool)
    requires RunText(x) == if b then "true" else "false"
    ensures ParseValue(x.chars, x.p).Ok? && ParseValue(x.chars, x.p).value.0 == Bool(b)
    ensures ParseValue(x.chars, x.p).value.1.i == x.p.i + x.n
  {
    BareAt(x);
  }

  /** A boolean, found at p and followed by a terminator, is read back. */
  lemma BoolAt(chars: seq<char>, p: Pos, b: bool)
    requires Holds(chars, p.i, ScalarText(Bool(b))) && Ends(chars, p.i + |ScalarText(Bool(b))|)
    ensures p.i < |chars| && !IsSpace(chars[p.i])
    ensures ParseValue(chars, p).Ok? && ParseValue(chars, p).value.0 == Bool(b)
    ensures ParseValue(chars, p).value.1.i == p.i + |ScalarText(Bool(b))|
  {
    KeywordsAreBare();
    var x := RunOf(chars, p, if b then "true" else "false");
    BoolRun(x, b);
  }

  /** A date in range, found at p, is read back truncated. */
  lemma DateAt(chars: seq<char>, p: Pos, d: Date)
    requires InRange(d) && Holds(chars, p.i, "\"" + DateText(d) + "\"")
    ensures p.i < |chars| && !IsSpace(chars[p.i])
    ensures ParseValue(chars, p).Ok? && ParseValue(chars, p).value.0 == Date(Truncated(d))
    ensures ParseValue(chars, p).value.1.i == p.i + |DateText(d)| + 2
  {
    DateTextQuoteFree(d);
    DateRoundTrip(d);
    QuotedAt(chars, p, DateText(d));
  }

  /** A readable number is a whole number or a sentinel, rendered as its text. */
  lemma NumberRendered(t: Laid, indent: nat)
    requires t.v.Number?
    ensures !t.v.n.Float? && Render(t.v, indent, t.o) == NumberText(t.v.n)
  {
  }

  /** A readable value that is not a container, found at p and followed by a terminator, is read back. */
  lemma ScalarAt(chars: seq<char>, p: Pos, t: Laid, indent: nat)
    requires !t.v.DataMap? && !t.v.DataList?
    requires Holds(chars, p.i, Render(t.v, indent, t.o)) && Ends(chars, p.i + |Render(t.v, indent, t.o)|)
    ensures p.i < |chars| && !IsSpace(chars[p.i])
    ensures ParseValue(chars, p).Ok? && ParseValue(chars, p).value.0 == ReadBack(t.v)
    ensures ParseValue(chars, p).value.1.i == p.i + |Render(t.v, indent, t.o)|
  {
    match t.v
    case String(s) =>
      QuotedAt(chars, p, s);
    case Date(d) =>
      DateAt(chars, p, d);
    case Bool(b) =>
      BoolAt(chars, p, b);
    case Number(n) =>
      NumberRendered(t, indent);
      NumberAt(chars, p, n);
  }

  // ---------------------------------------------------------------- any value

  /**
   * Where the text at p holds the serialization of a readable value, followed
   * by the end or a character that ends a bare token, `parse_from_reader`
   * reads the value back and stops just after its text.
   */
  lemma ValueAt(chars: seq<char>, p: Pos, t: Laid, indent: nat)
    requires Holds(chars, p.i, Render(t.v, indent, t.o)) && Ends(chars, p.i + |Render(t.v, indent, t.o)|)
    ensures p.i < |chars| && !IsSpace(chars[p.i])
    ensures ParseValue(chars, p).Ok? && ParseValue(chars, p).value.0 == ReadBack(t.v)
    ensures ParseValue(chars, p).value.1.i == p.i + |Render(t.v, indent, t.o)|
    decreases t.v, 2, 0
  {
    if t.v.DataMap? {
      MapAt(chars, p, t, indent);
      MapDispatch(chars, p);
    } else if t.v.DataList? {
      ListAt(chars, p, t, indent);
      ListDispatch(chars, p);
    } else {
      ScalarAt(chars, p, t, indent);
    }
  }

  // ---------------------------------------------------------------- loop steps

  /** What follows a value in a map or list: a comma and a line break, or a line break after the last one. */
  function Sep(more: bool): string {
    if more then ",\r\n" else "\r\n"
  }

  /** A line ending with an optional comma and a line break ends with Sep. */
  lemma LineEnd(x: string, more: bool)
    ensures x + (if more then "," else "") + "\r\n" == x + Sep(more)
  {
  }

  /** The text after a value ends a bare token. */
  lemma SepEnds(chars: seq<char>, a: nat, more: bool)
    requires Holds(chars, a, Sep(more))
    ensures Ends(chars, a)
  {
    HoldsChars(chars, a, Sep(more));
  }

  /** Whitespace outside a key is skipped by the map loop. */
  lemma SkipInMap(chars: seq<char>, p: Pos, s: MapScan, n: nat) returns (q: Pos)
    requires !s.state.InKey? && p.i + n <= |chars|
    requires forall k :: p.i <= k < p.i + n ==> IsSpace(chars[k])
    ensures q.i == p.i + n && MapLoop(chars, p, s) == MapLoop(chars, q, s)
  {
    MapSpaces(chars, p, s, n);
    q := AdvanceBy(chars, p, n);
  }

  /** Whitespace is skipped by the list loop. */
  lemma SkipInList(chars: seq<char>, p: Pos, s: ListScan, n: nat) returns (q: Pos)
    requires p.i + n <= |chars|
    requires forall k :: p.i <= k < p.i + n ==> IsSpace(chars[k])
    ensures q.i == p.i + n && ListLoop(chars, p, s) == ListLoop(chars, q, s)
  {
    ListSpaces(chars, p, s, n);
    q := AdvanceBy(chars, p, n);
  }

  /** `{` opens a map. */
  lemma MapOpen(chars: seq<char>, p: Pos)
    requires p.i < |chars| && chars[p.i] == '{'
    ensures MapLoop(chars, p, MapStart) == MapLoop(chars, Advance(chars, p), MapStart.(state := MapState.BeforeKey))
  {
  }

  /** `"` before a key opens a quoted key. */
  lemma KeyOpen(chars: seq<char>, p: Pos, s: MapScan)
    requires s.state.BeforeKey? && p.i < |chars| && chars[p.i] == '"'
    ensures MapLoop(chars, p, s) == MapLoop(chars, Advance(chars, p), s.(inquote := true, state := MapState.InKey))
  {
  }

  /** `"` in a quoted key closes it. */
  lemma KeyClose(chars: seq<char>, p: Pos, s: MapScan)
    requires s.state.InKey? && s.inquote && p.i < |chars| && chars[p.i] == '"'
    ensures MapLoop(chars, p, s) == MapLoop(chars, Advance(chars, p), s.(inquote := false, state := MapState.AfterKey))
  {
  }

  /** `:` after a key comes before the value. */
  lemma KeyColon(chars: seq<char>, p: Pos, s: MapScan)
    requires s.state.AfterKey? && p.i < |chars| && chars[p.i] == ':'
    ensures MapLoop(chars, p, s) == MapLoop(chars, Advance(chars, p), s.(state := MapState.BeforeValue))
  {
  }

  /** `,` after a value comes before the next key. */
  lemma EntryComma(chars: seq<char>, p: Pos, s: MapScan)
    requires s.state.AfterValue? && p.i < |chars| && chars[p.i] == ','
    ensures MapLoop(chars, p, s) == MapLoop(chars, Advance(chars, p), s.(state := MapState.BeforeKey))
  {
  }

  /** `}` after a value ends the map with the entries stored. */
  lemma MapClose(chars: seq<char>, p: Pos, s: MapScan)
    requires s.state.AfterValue? && p.i < |chars| && chars[p.i] == '}'
    ensures MapLoop(chars, p, s) == Ok((s.entries, Advance(chars, p)))
  {
  }

  /** `[` opens a list. */
  lemma ListOpen(chars: seq<char>, p: Pos)
    requires p.i < |chars| && chars[p.i] == '['
    ensures ListLoop(chars, p, ListStart) == ListLoop(chars, Advance(chars, p), ListStart.(state := ListState.BeforeValue))
  {
  }

  /** `,` after an element comes before the next one. */
  lemma ItemComma(chars: seq<char>, p: Pos, s: ListScan)
    requires s.state.AfterValue? && p.i < |chars| && chars[p.i] == ','
    ensures ListLoop(chars, p, s) == ListLoop(chars, Advance(chars, p), s.(state := ListState.BeforeValue))
  {
  }

  /** `]` after an element ends the list with the elements pushed. */
  lemma ListClose(chars: seq<char>, p: Pos, s: ListScan)
    requires s.state.AfterValue? && p.i < |chars| && chars[p.i] == ']'
    ensures ListLoop(chars, p, s) == Ok((s.items, Advance(chars, p)))
  {
  }

  // ---------------------------------------------------------------- maps

  /** The first n entry lines of a laid-out map. */
  function FirstEntries(t: Laid, indent: nat, n: nat): string
    requires t.v.DataMap? && n <= |t.o.keys|
  {
    MapEntries(t.v.entries, indent, t.o.keys, t.o.children, n)
  }

  /** Entry line j of a laid-out map. */
  function EntryText(t: Laid, indent: nat, j: nat): string
    requires t.v.DataMap? && j < |t.o.keys|
  {
    MapEntry(t.v.entries, indent, t.o.keys, t.o.children, j)
  }

  /** The entry lines of a laid-out map from line j on. */
  function EntriesFrom(t: Laid, indent: nat, j: nat): string
    requires t.v.DataMap?
    decreases |t.o.keys| - j
  {
    if j >= |t.o.keys| then "" else EntryText(t, indent, j) + EntriesFrom(t, indent, j + 1)
  }

  /** One more entry line extends the first n entry lines. */
  lemma EntriesStep(t: Laid, indent: nat, n: nat)
    requires t.v.DataMap? && n < |t.o.keys|
    ensures FirstEntries(t, indent, n + 1) == FirstEntries(t, indent, n) + EntryText(t, indent, n)
  {
  }

  /** Concatenation of text regroups freely. */
  lemma Regroup(a: string, e: string, r: string)
    ensures a + (e + r) == (a + e) + r
  {
  }

  /** The first n entry lines, then the lines from n on, are all the entry lines. */
  lemma {:induction false} EntriesSplit(t: Laid, indent: nat, n: nat)
    requires t.v.DataMap? && n <= |t.o.keys|
    ensures FirstEntries(t, indent, n) + EntriesFrom(t, indent, n) == FirstEntries(t, indent, |t.o.keys|)
    decreases |t.o.keys| - n
  {
    if n < |t.o.keys| {
      EntriesSplit(t, indent, n + 1);
      var a, e, r := FirstEntries(t, indent, n), EntryText(t, indent, n), EntriesFrom(t, indent, n + 1);
      EntriesStep(t, indent, n);
      assert EntriesFrom(t, indent, n) == e + r;
      Regroup(a, e, r);
    }
  }

  /** The entry lines from the first on are all the entry lines. */
  lemma EntriesAll(t: Laid, indent: nat)
    requires t.v.DataMap?
    ensures EntriesFrom(t, indent, 0) == MapEntries(t.v.entries, indent, t.o.keys, t.o.children, |t.o.keys|)
  {
    EntriesSplit(t, indent, 0);
    assert FirstEntries(t, indent, 0) == "";
  }

  /** The entries read back from the first j keys. */
  function ReadBackFirst(m: map<string, DataValue>, keys: seq<string>, j: nat): map<string, DataValue>
    requires j <= |keys|
  {
    map k | k in m && k in keys[..j] :: ReadBack(m[k])
  }

  /** Reading key j back adds it to the entries read before. */
  lemma ReadBackNext(m: map<string, DataValue>, keys: seq<string>, j: nat)
    requires j < |keys| && keys[j] in m
    ensures ReadBackFirst(m, keys, j)[keys[j] := ReadBack(m[keys[j]])] == ReadBackFirst(m, keys, j + 1)
  {
    assert keys[..j + 1] == keys[..j] + [keys[j]];
  }

  /** Reading back every key of an enumeration reads back the whole map. */
  lemma ReadBackAll(m: map<string, DataValue>, keys: seq<string>)
    requires IsEnumeration(keys, m.Keys)
    ensures ReadBackFirst(m, keys, |keys|) == ReadBackEntries(m)
  {
    assert keys[..|keys|] == keys;
  }

  /** A key without quotes found at a: its characters are key characters of a quoted key, and appended to the empty key they give the key. */
  lemma KeyText(chars: seq<char>, a: nat, k: string)
    requires '"' !in k && Holds(chars, a, k)
    ensures forall i :: a <= i < a + |k| ==> chars[i] != '"'
    ensures "" + chars[a..a + |k|] == k
  {
    HoldsChars(chars, a, k);
    HoldsSlice(chars, a, k);
  }

  /** Inside a quoted key, the characters of a key without quotes are taken as that key. */
  lemma KeyBody(chars: seq<char>, p: Pos, s: MapScan, k: string) returns (q: Pos)
    requires s.state.InKey? && s.inquote && s.key == "" && '"' !in k && Holds(chars, p.i, k)
    ensures q.i == p.i + |k|
    ensures MapLoop(chars, p, s) == MapLoop(chars, q, s.(key := k))
  {
    KeyText(chars, p.i, k);
    KeyRun(chars, p, s, |k|);
    q := AdvanceBy(chars, p, |k|);
  }

  /** A quoted key and a colon: the map loop takes the key as it is and stands before the value. */
  lemma KeyAt(chars: seq<char>, p: Pos, s: MapScan, k: string) returns (q: Pos)
    requires s.state.BeforeKey? && s.key == "" && '"' !in k
    requires p.i + |k| + 3 <= |chars|
    requires chars[p.i] == '"' && Holds(chars, p.i + 1, k)
    requires chars[p.i + 1 + |k|] == '"' && chars[p.i + 2 + |k|] == ':'
    ensures q.i == p.i + |k| + 3
    ensures MapLoop(chars, p, s) == MapLoop(chars, q, s.(state := MapState.BeforeValue, key := k, inquote := false))
  {
    KeyOpen(chars, p, s);
    var s1 := s.(inquote := true, state := MapState.InKey);
    var p2 := KeyBody(chars, Advance(chars, p), s1, k);
    var s2 := s1.(key := k);
    KeyClose(chars, p2, s2);
    var s3 := s2.(inquote := false, state := MapState.AfterKey);
    KeyColon(chars, Advance(chars, p2), s3);
    q := Advance(chars, Advance(chars, p2));
    assert s3.(state := MapState.BeforeValue) == s.(state := MapState.BeforeValue, key := k, inquote := false);
  }

  /** The pieces of an entry line. */
  lemma EntryPieces(chars: seq<char>, a: nat, indent: nat, k: string, r: string, sep: string)
    requires Holds(chars, a, Indent(indent) + "  \"" + k + "\":" + r + sep)
    ensures forall i :: a <= i < a + 2 * indent + 2 ==> IsSpace(chars[i])
    ensures chars[a + 2 * indent + 2] == '"' && Holds(chars, a + 2 * indent + 3, k)
    ensures chars[a + 2 * indent + 3 + |k|] == '"' && chars[a + 2 * indent + 4 + |k|] == ':'
    ensures Holds(chars, a + 2 * indent + 5 + |k|, r)
    ensures Holds(chars, a + 2 * indent + 5 + |k| + |r|, sep)
  {
    var x1 := Indent(indent) + "  \"";
    var x2 := x1 + k;
    var x3 := x2 + "\":";
    var x4 := x3 + r;
    Split(chars, a, x4, sep);
    Split(chars, a, x3, r);
    Split(chars, a, x2, "\":");
    Split(chars, a, x1, k);
    Split(chars, a, Indent(indent), "  \"");
    HoldsSpaces(chars, a, Indent(indent));
    HoldsChars(chars, a + 2 * indent, "  \"");
    HoldsChars(chars, a + |x2|, "\":");
  }

  /** The indentation and the quoted key of an entry line: the map loop stands at the value, followed by its separator. */
  lemma EntryLead(chars: seq<char>, p: Pos, s: MapScan, indent: nat, k: string, r: string, sep: string) returns (q: Pos)
    requires s.state.BeforeKey? && s.key == "" && '"' !in k
    requires Holds(chars, p.i, Indent(indent) + "  \"" + k + "\":" + r + sep)
    ensures q.i == p.i + 2 * indent + 5 + |k|
    ensures Holds(chars, q.i, r) && Holds(chars, q.i + |r|, sep)
    ensures MapLoop(chars, p, s) == MapLoop(chars, q, s.(state := MapState.BeforeValue, key := k, inquote := false))
  {
    EntryPieces(chars, p.i, indent, k, r, sep);
    var p1 := SkipInMap(chars, p, s, 2 * indent + 2);
    q := KeyAt(chars, p1, s, k);
  }

  /** After a value, a comma and a line break lead to the next key; a line break alone follows the last value. */
  lemma MapTail(chars: seq<char>, q0: Pos, s: MapScan, more: bool) returns (q: Pos)
    requires s.state.AfterValue? && Holds(chars, q0.i, Sep(more))
    ensures q.i == q0.i + |Sep(more)|
    ensures MapLoop(chars, q0, s) == MapLoop(chars, q, s.(state := if more then MapState.BeforeKey else MapState.AfterValue))
  {
    HoldsChars(chars, q0.i, Sep(more));
    if more {
      EntryComma(chars, q0, s);
      q := SkipInMap(chars, Advance(chars, q0), s.(state := MapState.BeforeKey), 2);
    } else {
      q := SkipInMap(chars, q0, s, 2);
    }
  }

  /** The map loop before a value reads a readable value and stores it read back under the key. */
  lemma ValueInMap(chars: seq<char>, p: Pos, s: MapScan, t: Laid, indent: nat, r: string, more: bool)
    returns (q: Pos, w: DataValue)
    requires s.state.BeforeValue? && r == Render(t.v, indent, t.o)
    requires Holds(chars, p.i, r) && Holds(chars, p.i + |r|, Sep(more))
    ensures q.i == p.i + |r| && w == ReadBack(t.v)
    ensures MapLoop(chars, p, s) == MapLoop(chars, q, MapScan(MapState.AfterValue, "", s.inquote, s.entries[s.key := w]))
    decreases t.v, 2, 1
  {
    SepEnds(chars, p.i + |r|, more);
    ValueAt(chars, p, t, indent);
    q := ParseValue(chars, p).value.1;
    w := ReadBack(t.v);
    StoreValue(chars, p, s, w, q);
  }

  /** A value followed by its separator: read, stored, and the loop stands before the next key or after the last value. */
  lemma ValueEntry(chars: seq<char>, p: Pos, s: MapScan, t: Laid, indent: nat, r: string, more: bool)
    returns (q: Pos)
    requires s.state.BeforeValue? && !s.inquote && r == Render(t.v, indent, t.o)
    requires Holds(chars, p.i, r) && Holds(chars, p.i + |r|, Sep(more))
    ensures q.i == p.i + |r| + |Sep(more)|
    ensures MapLoop(chars, p, s) == MapLoop(chars, q,
      MapScan(if more then MapState.BeforeKey else MapState.AfterValue, "", false, s.entries[s.key := ReadBack(t.v)]))
    decreases t.v, 2, 2
  {
    var q0, w := ValueInMap(chars, p, s, t, indent, r, more);
    q := MapTail(chars, q0, MapScan(MapState.AfterValue, "", false, s.entries[s.key := w]), more);
  }

  /**
   * One entry line: the map loop before a key reads the quoted key and the
   * value, stores the value read back under the key, and then stands before
   * the next key after a comma, or after the last value otherwise.
   */
  lemma EntryAt(chars: seq<char>, p: Pos, s: MapScan, k: string, t: Laid, indent: nat, r: string, more: bool)
    returns (q: Pos)
    requires '"' !in k && r == Render(t.v, indent + 1, t.o)
    requires s.state.BeforeKey? && s.key == ""
    requires Holds(chars, p.i, Indent(indent) + "  \"" + k + "\":" + r + Sep(more))
    ensures q.i == p.i + 2 * indent + 5 + |k| + |r| + |Sep(more)|
    ensures MapLoop(chars, p, s) == MapLoop(chars, q,
      MapScan(if more then MapState.BeforeKey else MapState.AfterValue, "", false, s.entries[k := ReadBack(t.v)]))
    decreases t.v, 3
  {
    var p1 := EntryLead(chars, p, s, indent, k, r, Sep(more));
    q := ValueEntry(chars, p1, s.(state := MapState.BeforeValue, key := k, inquote := false), t, indent + 1, r, more);
  }

  /** The indentation and the closing brace after the last value end the map with the entries stored. */
  lemma MapEnd(chars: seq<char>, q: Pos, s: MapScan, indent: nat)
    requires s.state.AfterValue? && Closes(chars, q.i, indent, '}')
    ensures MapLoop(chars, q, s).Ok? && MapLoop(chars, q, s).value.0 == s.entries
    ensures MapLoop(chars, q, s).value.1.i == q.i + 2 * indent + 1
  {
    var q1 := SkipInMap(chars, q, s, 2 * indent);
    MapClose(chars, q1, s);
  }

  /** Entry line j found at a: the line itself, then the lines after it. */
  lemma EntryLineAt(chars: seq<char>, a: nat, t: Laid, indent: nat, j: nat) returns (r: string)
    requires t.v.DataMap? && j < |t.o.keys| && Holds(chars, a, EntriesFrom(t, indent, j))
    ensures r == Render(EntryOf(t, j).v, indent + 1, EntryOf(t, j).o) && '"' !in t.o.keys[j]
    ensures Holds(chars, a, Indent(indent) + "  \"" + t.o.keys[j] + "\":" + r + Sep(|t.o.keys| - j > 1))
    ensures Holds(chars, a + 2 * indent + 5 + |t.o.keys[j]| + |r| + |Sep(|t.o.keys| - j > 1)|, EntriesFrom(t, indent, j + 1))
    ensures |EntriesFrom(t, indent, j)| == 2 * indent + 5 + |t.o.keys[j]| + |r| + |Sep(|t.o.keys| - j > 1)| + |EntriesFrom(t, indent, j + 1)|
  {
    r := EntryLine(t, indent, j);
    Split(chars, a, Indent(indent) + "  \"" + t.o.keys[j] + "\":" + r + Sep(|t.o.keys| - j > 1), EntriesFrom(t, indent, j + 1));
  }

  /**
   * The map loop before key j, with the entries read back from the keys
   * before it, reads entry line j and stores its value read back.
   */
  lemma EntryNext(chars: seq<char>, p: Pos, s: MapScan, t: Laid, indent: nat, j: nat) returns (q: Pos)
    requires t.v.DataMap? && j < |t.o.keys|
    requires s == MapScan(MapState.BeforeKey, "", false, ReadBackFirst(t.v.entries, t.o.keys, j))
    requires Holds(chars, p.i, EntriesFrom(t, indent, j))
    ensures Holds(chars, q.i, EntriesFrom(t, indent, j + 1))
    ensures q.i + |EntriesFrom(t, indent, j + 1)| == p.i + |EntriesFrom(t, indent, j)|
    ensures MapLoop(chars, p, s) == MapLoop(chars, q, MapScan(if |t.o.keys| - j > 1 then MapState.BeforeKey else MapState.AfterValue,
      "", false, ReadBackFirst(t.v.entries, t.o.keys, j + 1)))
    decreases t.v, 0, |t.o.keys| - j, 0
  {
    var r := EntryLineAt(chars, p.i, t, indent, j);
    q := EntryAt(chars, p, s, t.o.keys[j], EntryOf(t, j), indent, r, |t.o.keys| - j > 1);
    ReadBackNext(t.v.entries, t.o.keys, j);
  }

  /** After the last entry line j, the indentation and the closing brace end the map with every entry read back. */
  lemma EntriesEnd(chars: seq<char>, q: Pos, t: Laid, indent: nat, j: nat, end: nat)
    requires t.v.DataMap? && j + 1 == |t.o.keys|
    requires q.i + |EntriesFrom(t, indent, j + 1)| == end && Closes(chars, end, indent, '}')
    ensures var s := MapScan(if |t.o.keys| - j > 1 then MapState.BeforeKey else MapState.AfterValue,
      "", false, ReadBackFirst(t.v.entries, t.o.keys, j + 1));
      MapLoop(chars, q, s).Ok? && MapLoop(chars, q, s).value.0 == ReadBackEntries(t.v.entries)
      && MapLoop(chars, q, s).value.1.i == end + 2 * indent + 1
  {
    assert EntriesFrom(t, indent, j + 1) == [];
    MapEnd(chars, q, MapScan(MapState.AfterValue, "", false, ReadBackFirst(t.v.entries, t.o.keys, |t.o.keys|)), indent);
    ReadBackAll(t.v.entries, t.o.keys);
  }

  /**
   * The map loop before key j, with the entries read back from the keys
   * before it, reads the remaining entry lines and the closing brace, and
   * gives the whole map read back.
   */
  lemma {:induction false} EntriesAt(chars: seq<char>, p: Pos, s: MapScan, t: Laid, indent: nat, j: nat, end: nat)
    requires t.v.DataMap? && j < |t.o.keys|
    requires s == MapScan(MapState.BeforeKey, "", false, ReadBackFirst(t.v.entries, t.o.keys, j))
    requires Holds(chars, p.i, EntriesFrom(t, indent, j))
    requires p.i + |EntriesFrom(t, indent, j)| == end && Closes(chars, end, indent, '}')
    ensures MapLoop(chars, p, s).Ok? && MapLoop(chars, p, s).value.0 == ReadBackEntries(t.v.entries)
    ensures MapLoop(chars, p, s).value.1.i == end + 2 * indent + 1
    decreases t.v, 0, |t.o.keys| - j, 1
  {
    var q := EntryNext(chars, p, s, t, indent, j);
    var s1 := MapScan(if |t.o.keys| - j > 1 then MapState.BeforeKey else MapState.AfterValue,
      "", false, ReadBackFirst(t.v.entries, t.o.keys, j + 1));
    if |t.o.keys| - j > 1 {
      EntriesAt(chars, q, s1, t, indent, j + 1, end);
    } else {
      EntriesEnd(chars, q, t, indent, j, end);
    }
  }

  /** Entry line j of a laid-out map, followed by the lines after it. */
  lemma EntryLine(t: Laid, indent: nat, j: nat) returns (r: string)
    requires t.v.DataMap? && j < |t.o.keys|
    ensures r == Render(EntryOf(t, j).v, indent + 1, EntryOf(t, j).o) && '"' !in t.o.keys[j]
    ensures EntriesFrom(t, indent, j) == Indent(indent) + "  \"" + t.o.keys[j] + "\":" + r + Sep(|t.o.keys| - j > 1) + EntriesFrom(t, indent, j + 1)
  {
    var m, keys, kids := t.v.entries, t.o.keys, t.o.children;
    var more := |keys| - j > 1;
    r := Render(m[keys[j]], indent + 1, kids[j]);
    var x := Indent(indent) + "  \"" + keys[j] + "\":" + r;
    LineEnd(x, more);
    assert EntryText(t, indent, j) == x + Sep(more);
  }

  /** A bracketed block found at a: the opening line, the body at a + 3, then the indented closing character. */
  lemma Bracketed(chars: seq<char>, a: nat, o: string, body: string, indent: nat, c: string)
    requires |o| == 3 && IsSpace(o[1]) && IsSpace(o[2]) && |c| == 1
    requires Holds(chars, a, o + body + Indent(indent) + c)
    ensures a < |chars| && chars[a] == o[0]
    ensures forall k :: a + 1 <= k < a + 3 ==> IsSpace(chars[k])
    ensures Holds(chars, a + 3, body)
    ensures Closes(chars, a + 3 + |body|, indent, c[0])
  {
    Split(chars, a, o + body + Indent(indent), c);
    Split(chars, a, o + body, Indent(indent));
    Split(chars, a, o, body);
    HoldsChars(chars, a, o);
    HoldsSpaces(chars, a + 3 + |body|, Indent(indent));
    HoldsChars(chars, a + 3 + |body| + 2 * indent, c);
  }

  /** A readable map has an entry, and before its first line nothing has been read. */
  lemma MapStarts(t: Laid)
    requires t.v.DataMap?
    ensures 0 < |t.o.keys| && ReadBackFirst(t.v.entries, t.o.keys, 0) == map[]
  {
    var k :| k in t.v.entries;
    assert k in t.o.keys;
  }

  /** `{` and a line break open a map: the map loop stands before the first key with nothing read. */
  lemma MapOpens(chars: seq<char>, p: Pos) returns (q: Pos)
    requires p.i + 3 <= |chars| && chars[p.i] == '{'
    requires forall k :: p.i + 1 <= k < p.i + 3 ==> IsSpace(chars[k])
    ensures q.i == p.i + 3
    ensures MapLoop(chars, p, MapStart) == MapLoop(chars, q, MapScan(MapState.BeforeKey, "", false, map[]))
  {
    MapOpen(chars, p);
    q := SkipInMap(chars, Advance(chars, p), MapStart.(state := MapState.BeforeKey), 2);
  }

  /** The serialized text of a laid-out map found at p: `{`, a line break, the entry lines, then the closing line. */
  lemma MapFrame(chars: seq<char>, p: Pos, t: Laid, indent: nat)
    requires t.v.DataMap?
    requires Holds(chars, p.i, MapText(t.v.entries, indent, t.o.keys, t.o.children))
    ensures p.i + 3 <= |chars| && chars[p.i] == '{'
    ensures forall k :: p.i + 1 <= k < p.i + 3 ==> IsSpace(chars[k])
    ensures Holds(chars, p.i + 3, EntriesFrom(t, indent, 0))
    ensures Closes(chars, p.i + 3 + |EntriesFrom(t, indent, 0)|, indent, '}')
    ensures |MapText(t.v.entries, indent, t.o.keys, t.o.children)| == 3 + |EntriesFrom(t, indent, 0)| + 2 * indent + 1
  {
    var body := MapEntries(t.v.entries, indent, t.o.keys, t.o.children, |t.o.keys|);
    Bracketed(chars, p.i, "{\r\n", body, indent, "}");
    EntriesAll(t, indent);
  }

  /** An opening `{`, the line break, the entry lines and the closing line, found at p, are read back by the map loop. */
  lemma MapBody(chars: seq<char>, p: Pos, t: Laid, indent: nat)
    requires t.v.DataMap? && p.i + 3 <= |chars| && chars[p.i] == '{'
    requires forall k :: p.i + 1 <= k < p.i + 3 ==> IsSpace(chars[k])
    requires Holds(chars, p.i + 3, EntriesFrom(t, indent, 0))
    requires Closes(chars, p.i + 3 + |EntriesFrom(t, indent, 0)|, indent, '}')
    ensures MapLoop(chars, p, MapStart).Ok? && MapLoop(chars, p, MapStart).value.0 == ReadBackEntries(t.v.entries)
    ensures MapLoop(chars, p, MapStart).value.1.i == p.i + 3 + |EntriesFrom(t, indent, 0)| + 2 * indent + 1
    decreases t.v, 0, |t.o.keys| + 1, 0
  {
    var q := MapOpens(chars, p);
    MapStarts(t);
    EntriesAt(chars, q, MapScan(MapState.BeforeKey, "", false, map[]), t, indent, 0, p.i + 3 + |EntriesFrom(t, indent, 0)|);
  }

  /** The serialized text of a readable map, found at p, is read back by the map loop. */
  lemma MapAt(chars: seq<char>, p: Pos, t: Laid, indent: nat)
    requires t.v.DataMap?
    requires Holds(chars, p.i, MapText(t.v.entries, indent, t.o.keys, t.o.children))
    ensures p.i < |chars| && chars[p.i] == '{'
    ensures MapLoop(chars, p, MapStart).Ok? && MapLoop(chars, p, MapStart).value.0 == ReadBackEntries(t.v.entries)
    ensures MapLoop(chars, p, MapStart).value.1.i == p.i + |MapText(t.v.entries, indent, t.o.keys, t.o.children)|
    decreases t.v, 1, 0
  {
    MapFrame(chars, p, t, indent);
    MapBody(chars, p, t, indent);
  }

  // ---------------------------------------------------------------- lists

  /** The first n element lines of a laid-out list. */
  function FirstItems(t: Laid, indent: nat, n: nat): string
    requires t.v.DataList? && n <= |t.v.items|
  {
    ListItems(t.v.items, indent, t.o.children, n)
  }

  /** Element line j of a laid-out list. */
  function ItemText(t: Laid, indent: nat, j: nat): string
    requires t.v.DataList? && j < |t.v.items|
  {
    ListItem(t.v.items, indent, t.o.children, j)
  }

  /** The element lines of a laid-out list from line j on. */
  function ItemsFrom(t: Laid, indent: nat, j: nat): string
    requires t.v.DataList?
    decreases |t.v.items| - j
  {
    if j >= |t.v.items| then "" else ItemText(t, indent, j) + ItemsFrom(t, indent, j + 1)
  }

  /** One more element line extends the first n element lines. */
  lemma ItemsStep(t: Laid, indent: nat, n: nat)
    requires t.v.DataList? && n < |t.v.items|
    ensures FirstItems(t, indent, n + 1) == FirstItems(t, indent, n) + ItemText(t, indent, n)
  {
  }

  /** The first n element lines, then the lines from n on, are all the element lines. */
  lemma {:induction false} ItemsSplit(t: Laid, indent: nat, n: nat)
    requires t.v.DataList? && n <= |t.v.items|
    ensures FirstItems(t, indent, n) + ItemsFrom(t, indent, n) == FirstItems(t, indent, |t.v.items|)
    decreases |t.v.items| - n
  {
    if n < |t.v.items| {
      ItemsSplit(t, indent, n + 1);
      var a, e, r := FirstItems(t, indent, n), ItemText(t, indent, n), ItemsFrom(t, indent, n + 1);
      ItemsStep(t, indent, n);
      assert ItemsFrom(t, indent, n) == e + r;
      Regroup(a, e, r);
    }
  }

  /** The element lines from the first on are all the element lines. */
  lemma ItemsAll(t: Laid, indent: nat)
    requires t.v.DataList?
    ensures ItemsFrom(t, indent, 0) == ListItems(t.v.items, indent, t.o.children, |t.v.items|)
  {
    ItemsSplit(t, indent, 0);
    assert FirstItems(t, indent, 0) == "";
  }

  /** The pieces of an element line. */
  lemma ItemPieces(chars: seq<char>, a: nat, indent: nat, r: string, sep: string)
    requires Holds(chars, a, Indent(indent) + "  " + r + sep)
    ensures forall i :: a <= i < a + 2 * indent + 2 ==> IsSpace(chars[i])
    ensures Holds(chars, a + 2 * indent + 2, r)
    ensures Holds(chars, a + 2 * indent + 2 + |r|, sep)
  {
    var x1 := Indent(indent) + "  ";
    Split(chars, a, x1 + r, sep);
    Split(chars, a, x1, r);
    HoldsSpaces(chars, a, x1);
  }

  /** The indentation of an element line is skipped: the list loop stands at the element, followed by its separator. */
  lemma ItemLead(chars: seq<char>, p: Pos, s: ListScan, indent: nat, r: string, sep: string) returns (p1: Pos)
    requires Holds(chars, p.i, Indent(indent) + "  " + r + sep)
    ensures p1.i == p.i + 2 * indent + 2
    ensures Holds(chars, p1.i, r) && Holds(chars, p1.i + |r|, sep)
    ensures ListLoop(chars, p, s) == ListLoop(chars, p1, s)
  {
    ItemPieces(chars, p.i, indent, r, sep);
    p1 := SkipInList(chars, p, s, 2 * indent + 2);
  }

  /** After an element, a comma and a line break lead to the next element; a line break alone follows the last. */
  lemma ListTail(chars: seq<char>, q0: Pos, s: ListScan, more: bool) returns (q: Pos)
    requires s.state.AfterValue? && Holds(chars, q0.i, Sep(more))
    ensures q.i == q0.i + |Sep(more)|
    ensures ListLoop(chars, q0, s) == ListLoop(chars, q, s.(state := if more then ListState.BeforeValue else ListState.AfterValue))
  {
    HoldsChars(chars, q0.i, Sep(more));
    if more {
      ItemComma(chars, q0, s);
      q := SkipInList(chars, Advance(chars, q0), s.(state := ListState.BeforeValue), 2);
    } else {
      q := SkipInList(chars, q0, s, 2);
    }
  }

  /** The list loop before an element reads a readable value and pushes it read back. */
  lemma ValueInList(chars: seq<char>, p: Pos, s: ListScan, t: Laid, indent: nat, r: string, more: bool)
    returns (q: Pos, w: DataValue)
    requires s.state.BeforeValue? && r == Render(t.v, indent, t.o)
    requires Holds(chars, p.i, r) && Holds(chars, p.i + |r|, Sep(more))
    ensures q.i == p.i + |r| && w == ReadBack(t.v)
    ensures ListLoop(chars, p, s) == ListLoop(chars, q, ListScan(ListState.AfterValue, s.items + [w]))
    decreases t.v, 2, 1
  {
    SepEnds(chars, p.i + |r|, more);
    ValueAt(chars, p, t, indent);
    q := ParseValue(chars, p).value.1;
    w := ReadBack(t.v);
    PushValue(chars, p, s, w, q);
  }

  /** An element followed by its separator: read, pushed, and the loop stands before the next element or after the last. */
  lemma ValueLine(chars: seq<char>, p: Pos, s: ListScan, t: Laid, indent: nat, r: string, more: bool)
    returns (q: Pos)
    requires s.state.BeforeValue? && r == Render(t.v, indent, t.o)
    requires Holds(chars, p.i, r) && Holds(chars, p.i + |r|, Sep(more))
    ensures q.i == p.i + |r| + |Sep(more)|
    ensures ListLoop(chars, p, s) == ListLoop(chars, q,
      ListScan(if more then ListState.BeforeValue else ListState.AfterValue, s.items + [ReadBack(t.v)]))
    decreases t.v, 2, 2
  {
    var q0, w := ValueInList(chars, p, s, t, indent, r, more);
    q := ListTail(chars, q0, ListScan(ListState.AfterValue, s.items + [w]), more);
  }

  /**
   * One element line: the list loop before an element reads it, pushes it
   * read back, and then stands before the next element after a comma, or
   * after the last element otherwise.
   */
  lemma ItemAt(chars: seq<char>, p: Pos, s: ListScan, t: Laid, indent: nat, r: string, more: bool)
    returns (q: Pos)
    requires s.state.BeforeValue? && r == Render(t.v, indent + 1, t.o)
    requires Holds(chars, p.i, Indent(indent) + "  " + r + Sep(more))
    ensures q.i == p.i + 2 * indent + 2 + |r| + |Sep(more)|
    ensures ListLoop(chars, p, s) == ListLoop(chars, q,
      ListScan(if more then ListState.BeforeValue else ListState.AfterValue, s.items + [ReadBack(t.v)]))
    decreases t.v, 3
  {
    var p1 := ItemLead(chars, p, s, indent, r, Sep(more));
    q := ValueLine(chars, p1, s, t, indent + 1, r, more);
  }

  /** The indentation and the closing bracket after the last element end the list with the elements pushed. */
  lemma ListEnd(chars: seq<char>, q: Pos, s: ListScan, indent: nat)
    requires s.state.AfterValue? && Closes(chars, q.i, indent, ']')
    ensures ListLoop(chars, q, s).Ok? && ListLoop(chars, q, s).value.0 == s.items
    ensures ListLoop(chars, q, s).value.1.i == q.i + 2 * indent + 1
  {
    var q1 := SkipInList(chars, q, s, 2 * indent);
    ListClose(chars, q1, s);
  }

  /** Element line j found at a: the line itself, then the lines after it. */
  lemma ItemLineAt(chars: seq<char>, a: nat, t: Laid, indent: nat, j: nat) returns (r: string)
    requires t.v.DataList? && j < |t.v.items| && Holds(chars, a, ItemsFrom(t, indent, j))
    ensures r == Render(ItemOf(t, j).v, indent + 1, ItemOf(t, j).o)
    ensures Holds(chars, a, Indent(indent) + "  " + r + Sep(|t.v.items| - j > 1))
    ensures Holds(chars, a + 2 * indent + 2 + |r| + |Sep(|t.v.items| - j > 1)|, ItemsFrom(t, indent, j + 1))
    ensures |ItemsFrom(t, indent, j)| == 2 * indent + 2 + |r| + |Sep(|t.v.items| - j > 1)| + |ItemsFrom(t, indent, j + 1)|
  {
    r := ItemLine(t, indent, j);
    Split(chars, a, Indent(indent) + "  " + r + Sep(|t.v.items| - j > 1), ItemsFrom(t, indent, j + 1));
  }

  /**
   * The list loop before element j, with the elements before it read back,
   * reads element line j and pushes it read back.
   */
  lemma ItemNext(chars: seq<char>, p: Pos, s: ListScan, t: Laid, indent: nat, j: nat) returns (q: Pos)
    requires t.v.DataList? && j < |t.v.items|
    requires s == ListScan(ListState.BeforeValue, ReadBackItems(t.v.items, j))
    requires Holds(chars, p.i, ItemsFrom(t, indent, j))
    ensures Holds(chars, q.i, ItemsFrom(t, indent, j + 1))
    ensures q.i + |ItemsFrom(t, indent, j + 1)| == p.i + |ItemsFrom(t, indent, j)|
    ensures ListLoop(chars, p, s) == ListLoop(chars, q, ListScan(if |t.v.items| - j > 1 then ListState.BeforeValue else ListState.AfterValue,
      ReadBackItems(t.v.items, j + 1)))
    decreases t.v, 0, |t.v.items| - j, 0
  {
    var r := ItemLineAt(chars, p.i, t, indent, j);
    q := ItemAt(chars, p, s, ItemOf(t, j), indent, r, |t.v.items| - j > 1);
    ReadBackItemsNext(t.v.items, j);
  }

  /** After the last element line j, the indentation and the closing bracket end the list with every element read back. */
  lemma ItemsEnd(chars: seq<char>, q: Pos, t: Laid, indent: nat, j: nat, end: nat)
    requires t.v.DataList? && j + 1 == |t.v.items|
    requires q.i + |ItemsFrom(t, indent, j + 1)| == end && Closes(chars, end, indent, ']')
    ensures var s := ListScan(if |t.v.items| - j > 1 then ListState.BeforeValue else ListState.AfterValue, ReadBackItems(t.v.items, j + 1));
      ListLoop(chars, q, s).Ok? && ListLoop(chars, q, s).value.0 == ReadBackItems(t.v.items, |t.v.items|)
      && ListLoop(chars, q, s).value.1.i == end + 2 * indent + 1
  {
    assert ItemsFrom(t, indent, j + 1) == [];
    ListEnd(chars, q, ListScan(ListState.AfterValue, ReadBackItems(t.v.items, j + 1)), indent);
  }

  

  /**
   * The list loop before element j, with the elements before it read back,
   * reads the remaining element lines and the closing bracket, and gives
   * every element read back, in order.
   */
  lemma {:induction false} ItemsAt(chars: seq<char>, p: Pos, s: ListScan, t: Laid, indent: nat, j: nat, end: nat)
    requires t.v.DataList? && j < |t.v.items|
    requires s == ListScan(ListState.BeforeValue, ReadBackItems(t.v.items, j))
    requires Holds(chars, p.i, ItemsFrom(t, indent, j))
    requires p.i + |ItemsFrom(t, indent, j)| == end && Closes(chars, end, indent, ']')
    ensures ListLoop(chars, p, s).Ok? && ListLoop(chars, p, s).value.0 == ReadBackItems(t.v.items, |t.v.items|)
    ensures ListLoop(chars, p, s).value.1.i == end + 2 * indent + 1
    decreases t.v, 0, |t.v.items| - j, 1
  {
    var q := ItemNext(chars, p, s, t, indent, j);
    var s1 := ListScan(if |t.v.items| - j > 1 then ListState.BeforeValue else ListState.AfterValue, ReadBackItems(t.v.items, j + 1));
    if |t.v.items| - j > 1 {
      ItemsAt(chars, q, s1, t, indent, j + 1, end);
    } else {
      ItemsEnd(chars, q, t, indent, j, end);
    }
  }

  /** Element line j of a laid-out list, followed by the lines after it. */
  lemma ItemLine(t: Laid, indent: nat, j: nat) returns (r: string)
    requires t.v.DataList? && j < |t.v.items|
    ensures r == Render(ItemOf(t, j).v, indent + 1, ItemOf(t, j).o)
    ensures ItemsFrom(t, indent, j) == Indent(indent) + "  " + r + Sep(|t.v.items| - j > 1) + ItemsFrom(t, indent, j + 1)
  {
    var xs, kids := t.v.items, t.o.children;
    var more := |xs| - j > 1;
    r := Render(xs[j], indent + 1, kids[j]);
    var x := Indent(indent) + "  " + r;
    LineEnd(x, more);
    assert ItemText(t, indent, j) == x + Sep(more);
  }

  /** `[` and a line break open a list: the list loop stands before the first element with nothing read. */
  lemma ListOpens(chars: seq<char>, p: Pos) returns (q: Pos)
    requires p.i + 3 <= |chars| && chars[p.i] == '['
    requires forall k :: p.i + 1 <= k < p.i + 3 ==> IsSpace(chars[k])
    ensures q.i == p.i + 3
    ensures ListLoop(chars, p, ListStart) == ListLoop(chars, q, ListScan(ListState.BeforeValue, []))
  {
    ListOpen(chars, p);
    q := SkipInList(chars, Advance(chars, p), ListStart.(state := ListState.BeforeValue), 2);
  }

  /** The serialized text of a laid-out list found at p: `[`, a line break, the element lines, then the closing line. */
  lemma ListFrame(chars: seq<char>, p: Pos, t: Laid, indent: nat)
    requires t.v.DataList?
    requires Holds(chars, p.i, ListText(t.v.items, indent, t.o.children))
    ensures p.i + 3 <= |chars| && chars[p.i] == '['
    ensures forall k :: p.i + 1 <= k < p.i + 3 ==> IsSpace(chars[k])
    ensures Holds(chars, p.i + 3, ItemsFrom(t, indent, 0))
    ensures Closes(chars, p.i + 3 + |ItemsFrom(t, indent, 0)|, indent, ']')
    ensures |ListText(t.v.items, indent, t.o.children)| == 3 + |ItemsFrom(t, indent, 0)| + 2 * indent + 1
  {
    var body := ListItems(t.v.items, indent, t.o.children, |t.v.items|);
    Bracketed(chars, p.i, "[\r\n", body, indent, "]");
    ItemsAll(t, indent);
  }

  /** An opening `[`, the line break, the element lines and the closing line, found at p, are read back by the list loop. */
  lemma ListBody(chars: seq<char>, p: Pos, t: Laid, indent: nat)
    requires t.v.DataList? && p.i + 3 <= |chars| && chars[p.i] == '['
    requires forall k :: p.i + 1 <= k < p.i + 3 ==> IsSpace(chars[k])
    requires Holds(chars, p.i + 3, ItemsFrom(t, indent, 0))
    requires Closes(chars, p.i + 3 + |ItemsFrom(t, indent, 0)|, indent, ']')
    ensures ListLoop(chars, p, ListStart).Ok? && ListLoop(chars, p, ListStart).value.0 == ReadBackItems(t.v.items, |t.v.items|)
    ensures ListLoop(chars, p, ListStart).value.1.i == p.i + 3 + |ItemsFrom(t, indent, 0)| + 2 * indent + 1
    decreases t.v, 0, |t.v.items| + 1, 0
  {
    var q := ListOpens(chars, p);
    assert ReadBackItems(t.v.items, 0) == [];
    ItemsAt(chars, q, ListScan(ListState.BeforeValue, []), t, indent, 0, p.i + 3 + |ItemsFrom(t, indent, 0)|);
  }

  /** The serialized text of a readable list, found at p, is read back by the list loop. */
  lemma ListAt(chars: seq<char>, p: Pos, t: Laid, indent: nat)
    requires t.v.DataList?
    requires Holds(chars, p.i, ListText(t.v.items, indent, t.o.children))
    ensures p.i < |chars| && chars[p.i] == '['
    ensures ListLoop(chars, p, ListStart).Ok? && ListLoop(chars, p, ListStart).value.0 == ReadBackItems(t.v.items, |t.v.items|)
    ensures ListLoop(chars, p, ListStart).value.1.i == p.i + |ListText(t.v.items, indent, t.o.children)|
    decreases t.v, 1, 0
  {
    ListFrame(chars, p, t, indent);
    ListBody(chars, p, t, indent);
  }

  // ---------------------------------------------------------------- the round trip

  /**
   * `parse` of the serialized text of a readable tree, in any entry order,
   * gives the tree back with its dates truncated.
   */
  lemma TreeRoundTrip(v: DataValue, o: Order)
    requires Readable(v) && Fits(o, v)
    ensures ValueOf(Render(v, 0, o)) == Ok(ReadBack(v))
  {
    var text := Render(v, 0, o);
    assert text[0..|text|] == text;
    ValueAt(text, Start, Layout(v, o), 0);
  }
}
