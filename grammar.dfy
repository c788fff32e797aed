/**
 * What the recursive-descent parser computes, as functions of the input
 * characters and the reader's cursor (`Pos`).
 *
 * Each parser loop of the source is a `while` over a state enum; here each is
 * a tail-recursive function over the same state and the same buffers, one
 * character per call, so that the parser methods can be proved to compute
 * exactly these functions.
 *
 * `ParseValue`, `MapLoop` and `ListLoop` call each other. The map and list
 * parsers back up one character before handing a value to `ParseValue`, which
 * backs up the same character again before dispatching; termination is by the
 * characters left and then by a rank: 0 for a map or list that has yet to see
 * its opening bracket, 1 for `ParseValue`, 2 for every other loop state.
 */
module Grammar {
  import opened Errors
  import opened Data
  import opened SerialReaders
  import opened Numbers
  import opened Dates

  /** The characters every parser treats as whitespace. */
  predicate IsSpace(c: char) {
    c == ' ' || c == '\r' || c == '\n' || c == '\t'
  }

  datatype MapState = BeforeBrace | BeforeKey | InKey | AfterKey | BeforeValue | AfterValue

  datatype ListState = BeforeBracket | BeforeValue | AfterValue

  datatype LiteralState = BeforeValue | InValue

  /** The locals of `parse_map_from_reader` besides the reader. */
  datatype MapScan = MapScan(state: MapState, key: string, inquote: bool, entries: map<string, DataValue>)

  /** The locals of `parse_list_from_reader` besides the reader. */
  datatype ListScan = ListScan(state: ListState, items: seq<DataValue>)

  /** The locals of `parse_literal_from_reader` besides the reader and `done`. */
  datatype LiteralScan = LiteralScan(state: LiteralState, value: string, inquote: bool, escaping: bool, hasquotes: bool)

  const MapStart := MapScan(MapState.BeforeBrace, "", false, map[])
  const ListStart := ListScan(ListState.BeforeBracket, [])
  const LiteralStart := LiteralScan(LiteralState.BeforeValue, "", false, false, false)

  /** The error a message with the reader's row and column carries. */
  function ErrorAt(kind: ErrorKind, p: Pos): DataError {
    DataError(kind, At(p.row, p.col))
  }

  function MapRank(s: MapScan): nat {
    if s.state == MapState.BeforeBrace then 0 else 2
  }

  function ListRank(s: ListScan): nat {
    if s.state == ListState.BeforeBracket then 0 else 2
  }

  /**
   * `parse_from_reader`: skip whitespace, then push the first other character
   * back and parse a map at `{`, a list at `[`, and a literal at anything else.
   * On success the cursor has moved on.
   */
  function ParseValue(chars: seq<char>, p: Pos): (r: Result<(DataValue, Pos)>)
    ensures r.Ok? ==> p.i < r.value.1.i <= |chars|
    decreases |chars| - p.i, 1
  {
    if p.i >= |chars| then Err(DataError(UnexpectedEndOfString, NoLocation))
    else
      var c := chars[p.i];
      var q := Advance(chars, p);
      if IsSpace(c) then ParseValue(chars, q)
      else
        var b := Retreat(q);
        if c == '{' then AsMap(MapLoop(chars, b, MapStart))
        else if c == '[' then AsList(ListLoop(chars, b, ListStart))
        else Ok(Literal(chars, b))
  }

  /** A parsed map as a value, with the cursor after it. */
  function AsMap(r: Result<(map<string, DataValue>, Pos)>): (v: Result<(DataValue, Pos)>)
    ensures v.Ok? <==> r.Ok?
    ensures r.Ok? ==> v.value.0.DataMap? && v.value.0.entries == r.value.0 && v.value.1 == r.value.1
    ensures r.Err? ==> v.error == r.error
  {
    match r
    case Err(e) => Err(e)
    case Ok((m, q)) => Ok((DataMap(m), q))
  }

  /** A parsed list as a value, with the cursor after it. */
  function AsList(r: Result<(seq<DataValue>, Pos)>): (v: Result<(DataValue, Pos)>)
    ensures v.Ok? <==> r.Ok?
    ensures r.Ok? ==> v.value.0.DataList? && v.value.0.items == r.value.0 && v.value.1 == r.value.1
    ensures r.Err? ==> v.error == r.error
  {
    match r
    case Err(e) => Err(e)
    case Ok((xs, q)) => Ok((DataList(xs), q))
  }

  /** The rest of `parse_map_from_reader`'s loop, from cursor p in the state s. */
  function MapLoop(chars: seq<char>, p: Pos, s: MapScan): (r: Result<(map<string, DataValue>, Pos)>)
    ensures r.Ok? ==> p.i < r.value.1.i <= |chars|
    decreases |chars| - p.i, MapRank(s)
  {
    if p.i >= |chars| then Err(DataError(StringUnexpectedlyEnded, NoLocation))
    else
      var c := chars[p.i];
      var q := Advance(chars, p);
      var space := IsSpace(c);
      if s.state.BeforeBrace? then
        if space then MapLoop(chars, q, s)
        else if c == '{' then MapLoop(chars, q, s.(state := MapState.BeforeKey))
        else Err(ErrorAt(ExpectingOpenBrace, Retreat(q)))
      else if s.state.BeforeKey? then
        if space then MapLoop(chars, q, s)
        else if c == '"' then MapLoop(chars, q, s.(inquote := true, state := MapState.InKey))
        else MapLoop(chars, q, s.(key := s.key + [c], state := MapState.InKey))
      else if s.state.InKey? then
        if s.inquote then
          if c == '"' then MapLoop(chars, q, s.(inquote := false, state := MapState.AfterKey))
          else MapLoop(chars, q, s.(key := s.key + [c]))
        else if space then MapLoop(chars, q, s.(state := MapState.AfterKey))
        else if c == ':' then MapLoop(chars, q, s.(state := MapState.BeforeValue))
        else if c == '"' then Err(ErrorAt(UnexpectedQuote, q))
        else MapLoop(chars, q, s.(key := s.key + [c]))
      else if s.state.AfterKey? then
        if space then MapLoop(chars, q, s)
        else if c == ':' then MapLoop(chars, q, s.(state := MapState.BeforeValue))
        else Err(ErrorAt(UnexpectedCharacter, q))
      else if s.state.BeforeValue? then
        if space then MapLoop(chars, q, s)
        else
          match ParseValue(chars, Retreat(q))
          case Err(e) => Err(e)
          case Ok((v, q')) =>
            MapLoop(chars, q', s.(entries := s.entries[s.key := v], key := "", state := MapState.AfterValue))
      else
        if space then MapLoop(chars, q, s)
        else if c == ',' then MapLoop(chars, q, s.(state := MapState.BeforeKey))
        else if c == '}' then Ok((s.entries, q))
        else Err(ErrorAt(UnexpectedCharacter, q))
  }

  /** The rest of `parse_list_from_reader`'s loop, from cursor p in the state s. */
  function ListLoop(chars: seq<char>, p: Pos, s: ListScan): (r: Result<(seq<DataValue>, Pos)>)
    ensures r.Ok? ==> p.i < r.value.1.i <= |chars|
    decreases |chars| - p.i, ListRank(s)
  {
    if p.i >= |chars| then Err(DataError(StringUnexpectedlyEnded, NoLocation))
    else
      var c := chars[p.i];
      var q := Advance(chars, p);
      var space := IsSpace(c);
      if s.state.BeforeBracket? then
        if space then ListLoop(chars, q, s)
        else if c == '[' then ListLoop(chars, q, s.(state := ListState.BeforeValue))
        else Err(ErrorAt(ExpectedOpenBracket, Retreat(q)))
      else if s.state.BeforeValue? then
        if space then ListLoop(chars, q, s)
        else
          match ParseValue(chars, Retreat(q))
          case Err(e) => Err(e)
          case Ok((v, q')) => ListLoop(chars, q', s.(items := s.items + [v], state := ListState.AfterValue))
      else
        if space then ListLoop(chars, q, s)
        else if c == ',' then ListLoop(chars, q, s.(state := ListState.BeforeValue))
        else if c == ']' then Ok((s.items, q))
        else Err(ErrorAt(ExpectedCloseBracket, q))
  }

  /** What a backslash followed by c appends to a quoted token: nothing for an unknown escape. */
  function Unescape(c: char): (r: string)
    ensures |r| <= 1
    ensures r == [] <==> c !in "\\nrt/\""
    ensures c == '\\' || c == '/' || c == '"' ==> r == [c]
  {
    match c
    case '\\' => "\\"
    case 'n' => "\n"
    case 'r' => "\r"
    case 't' => "\t"
    case '/' => "/"
    case '"' => "\""
    case _ => ""
  }

  /** A character that ends an unquoted token (and is pushed back). */
  predicate EndsBareToken(c: char) {
    IsSpace(c) || c == '}' || c == ']' || c == ','
  }

  /**
   * The rest of `parse_literal_from_reader`'s scanning loop from cursor p in
   * the state s: the final state and cursor once the input runs out or the
   * token is done. It never fails.
   */
  function LiteralLoop(chars: seq<char>, p: Pos, s: LiteralScan): (r: (LiteralScan, Pos))
    ensures p.i <= |chars| ==> p.i <= r.1.i <= |chars|
    ensures p.i < |chars| && s.state == LiteralState.BeforeValue && !IsSpace(chars[p.i]) ==> r.1.i > p.i
    decreases |chars| - p.i
  {
    if p.i >= |chars| then (s, p)
    else
      var c := chars[p.i];
      var q := Advance(chars, p);
      if s.state.BeforeValue? then
        if IsSpace(c) then LiteralLoop(chars, q, s)
        else if c == '"' then LiteralLoop(chars, q, s.(inquote := true, hasquotes := true, state := LiteralState.InValue))
        else LiteralLoop(chars, q, s.(value := s.value + [c], state := LiteralState.InValue))
      else
        if s.inquote then
          if s.escaping then LiteralLoop(chars, q, s.(value := s.value + Unescape(c), escaping := false))
          else if c == '\\' then LiteralLoop(chars, q, s.(escaping := true))
          else if c == '"' then (s.(inquote := false), q)
          else LiteralLoop(chars, q, s.(value := s.value + [c]))
        else if EndsBareToken(c) then (s, Retreat(q))
        else LiteralLoop(chars, q, s.(value := s.value + [c]))
  }

  /**
   * The value a scanned token stands for when the null literal is spelled
   * `nullWord`: a quoted token is a date when it decodes as one and a string
   * otherwise; an unquoted token is a boolean, null, a number when it decodes
   * as one, and otherwise the string of its characters.
   */
  function ClassifyWith(value: string, hasquotes: bool, nullWord: string): (v: DataValue)
    requires nullWord != "true" && nullWord != "false"
    ensures v.String? ==> v.s == value
    ensures hasquotes ==> v.Date? || v.String?
    ensures v.Bool? <==> !hasquotes && (value == "true" || value == "false")
    ensures v.Bool? ==> v.b == (value == "true")
    ensures v.Null? <==> !hasquotes && value == nullWord
    ensures v.Number? ==> !hasquotes && NumberOf(value) == Ok(v.n)
    ensures v.Date? ==> hasquotes && DateOf(value) == Ok(v.d)
    ensures !v.DataMap? && !v.DataList? && !v.None?
  {
    if hasquotes then
      match DateOf(value)
      case Ok(d) => Date(d)
      case Err(_) => String(value)
    else if value == "true" then Bool(true)
    else if value == "false" then Bool(false)
    else if value == nullWord then Null
    else
      match NumberOf(value)
      case Ok(n) => Number(n)
      case Err(_) => String(value)
  }

  /** The classification `parse_literal_from_reader` applies: its null literal is spelled `mull`. */
  function Classify(value: string, hasquotes: bool): (v: DataValue)
    ensures v.Null? <==> !hasquotes && value == "mull"
    ensures v.String? ==> v.s == value
    ensures hasquotes ==> v.Date? || v.String?
  {
    ClassifyWith(value, hasquotes, "mull")
  }

  /** `parse_literal_from_reader`: scan one token from p, then classify it. */
  function Literal(chars: seq<char>, p: Pos): (r: (DataValue, Pos))
    ensures p.i <= |chars| ==> p.i <= r.1.i <= |chars|
    ensures p.i < |chars| && !IsSpace(chars[p.i]) ==> r.1.i > p.i
  {
    var (s, q) := LiteralLoop(chars, p, LiteralStart);
    (Classify(s.value, s.hasquotes), q)
  }

  /** `parse`: a value from the start of the text. */
  function ValueOf(s: string): Result<DataValue> {
    match ParseValue(s, Start)
    case Err(e) => Err(e)
    case Ok((v, _)) => Ok(v)
  }

  /** `parse_map`: a map from the start of the text. */
  function MapOf(s: string): Result<map<string, DataValue>> {
    match MapLoop(s, Start, MapStart)
    case Err(e) => Err(e)
    case Ok((m, _)) => Ok(m)
  }

  // ---------------------------------------------------------------- properties

  /** Input holding nothing but whitespace from p on is "Unexpected end of string". */
  lemma {:induction false} OnlySpaceLeft(chars: seq<char>, p: Pos)
    requires forall k :: p.i <= k < |chars| ==> IsSpace(chars[k])
    ensures ParseValue(chars, p) == Err(DataError(UnexpectedEndOfString, NoLocation))
    decreases |chars| - p.i
  {
    if p.i < |chars| {
      OnlySpaceLeft(chars, Advance(chars, p));
    }
  }

  /** `parse` of an empty or all-whitespace text. */
  lemma WhitespaceOnly(s: string)
    requires forall k :: 0 <= k < |s| ==> IsSpace(s[k])
    ensures ValueOf(s) == Err(DataError(UnexpectedEndOfString, NoLocation))
  {
    OnlySpaceLeft(s, Start);
  }

  /**
   * At the first character that is not whitespace, `parse_from_reader` pushes
   * that character back and hands the very same cursor to the map parser at
   * `{`, to the list parser at `[` and to the literal parser otherwise.
   */
  lemma Dispatch(chars: seq<char>, p: Pos)
    requires p.i < |chars| && !IsSpace(chars[p.i])
    ensures chars[p.i] == '{' ==> ParseValue(chars, p) == AsMap(MapLoop(chars, p, MapStart))
    ensures chars[p.i] == '[' ==> ParseValue(chars, p) == AsList(ListLoop(chars, p, ListStart))
    ensures chars[p.i] != '{' && chars[p.i] != '[' ==> ParseValue(chars, p) == Ok(Literal(chars, p))
  {
    BackUndoesNext(chars, p);
  }

  /**
   * What a successful run of the map loop from state s guarantees: the keys
   * already stored are kept, the map ends just after a `}`, and the result is
   * empty only when the loop started after a value with nothing stored, which
   * no run from `MapStart` ever reaches.
   */
  ghost predicate MapOutcome(chars: seq<char>, p: Pos, s: MapScan) {
    var r := MapLoop(chars, p, s);
    r.Ok? ==>
      && s.entries.Keys <= r.value.0.Keys
      && chars[r.value.1.i - 1] == '}'
      && (r.value.0 == map[] ==> s.state.AfterValue? && s.entries == map[])
  }

  /** Every run of the map loop, from any cursor and state, has `MapOutcome`. */
  lemma {:induction false} MapLoopResult(chars: seq<char>, p: Pos, s: MapScan)
    ensures MapOutcome(chars, p, s)
    decreases |chars| - p.i, MapRank(s), 1
  {
    if p.i < |chars| {
      var c := chars[p.i];
      var q := Advance(chars, p);
      if s.state.BeforeBrace? {
        if IsSpace(c) {
          MapLoopResult(chars, q, s);
        } else if c == '{' {
          MapLoopResult(chars, q, s.(state := MapState.BeforeKey));
        }
      } else if s.state.BeforeValue? || s.state.AfterValue? {
        MapValueResult(chars, p, s);
      } else {
        MapKeyResult(chars, p, s);
      }
    }
  }

  /** `MapLoopResult` for the states that read a key and its colon. */
  lemma {:induction false} MapKeyResult(chars: seq<char>, p: Pos, s: MapScan)
    requires p.i < |chars| && (s.state.BeforeKey? || s.state.InKey? || s.state.AfterKey?)
    ensures MapOutcome(chars, p, s)
    decreases |chars| - p.i, MapRank(s), 0
  {
    var c := chars[p.i];
    var q := Advance(chars, p);
    var space := IsSpace(c);
    if s.state.BeforeKey? {
      if space {
        MapLoopResult(chars, q, s);
      } else if c == '"' {
        MapLoopResult(chars, q, s.(inquote := true, state := MapState.InKey));
      } else {
        MapLoopResult(chars, q, s.(key := s.key + [c], state := MapState.InKey));
      }
    } else if s.state.InKey? {
      if s.inquote {
        if c == '"' {
          MapLoopResult(chars, q, s.(inquote := false, state := MapState.AfterKey));
        } else {
          MapLoopResult(chars, q, s.(key := s.key + [c]));
        }
      } else if space {
        MapLoopResult(chars, q, s.(state := MapState.AfterKey));
      } else if c == ':' {
        MapLoopResult(chars, q, s.(state := MapState.BeforeValue));
      } else if c != '"' {
        MapLoopResult(chars, q, s.(key := s.key + [c]));
      }
    } else {
      if space {
        MapLoopResult(chars, q, s);
      } else if c == ':' {
        MapLoopResult(chars, q, s.(state := MapState.BeforeValue));
      }
    }
  }

  /** `MapLoopResult` for the states before and after a value. */
  lemma {:induction false} MapValueResult(chars: seq<char>, p: Pos, s: MapScan)
    requires p.i < |chars| && (s.state.BeforeValue? || s.state.AfterValue?)
    ensures MapOutcome(chars, p, s)
    decreases |chars| - p.i, MapRank(s), 0
  {
    var c := chars[p.i];
    var q := Advance(chars, p);
    if IsSpace(c) {
      MapLoopResult(chars, q, s);
    } else if s.state.BeforeValue? {
      match ParseValue(chars, Retreat(q))
      case Err(_) =>
      case Ok((v, q')) =>
        var s' := s.(entries := s.entries[s.key := v], key := "", state := MapState.AfterValue);
        MapLoopResult(chars, q', s');
        assert s.key in s'.entries;
    } else if c == ',' {
      MapLoopResult(chars, q, s.(state := MapState.BeforeKey));
    }
  }

  /** `parse_map` never returns an empty map: `{}` is not accepted, since the `}` is read as a key character. */
  lemma MapNeverEmpty(s: string)
    ensures MapOf(s).Ok? ==> MapOf(s).value != map[]
  {
    MapLoopResult(s, Start, MapStart);
  }

  /**
   * What a successful run of the list loop from state s guarantees: the
   * values already pushed stay, in order, at the front, and the list ends
   * just after a `]`.
   */
  lemma {:induction false} ListLoopResult(chars: seq<char>, p: Pos, s: ListScan)
    ensures ListLoop(chars, p, s).Ok? ==>
      && s.items <= ListLoop(chars, p, s).value.0
      && chars[ListLoop(chars, p, s).value.1.i - 1] == ']'
    decreases |chars| - p.i, ListRank(s)
  {
    if p.i < |chars| {
      var c := chars[p.i];
      var q := Advance(chars, p);
      var space := IsSpace(c);
      if s.state.BeforeBracket? {
        if space {
          ListLoopResult(chars, q, s);
        } else if c == '[' {
          ListLoopResult(chars, q, s.(state := ListState.BeforeValue));
        }
      } else if s.state.BeforeValue? {
        if space {
          ListLoopResult(chars, q, s);
        } else {
          match ParseValue(chars, Retreat(q))
          case Err(_) =>
          case Ok((v, q')) =>
            ListLoopResult(chars, q', s.(items := s.items + [v], state := ListState.AfterValue));
        }
      } else {
        if space {
          ListLoopResult(chars, q, s);
        } else if c == ',' {
          ListLoopResult(chars, q, s.(state := ListState.BeforeValue));
        }
      }
    }
  }

  /** The cursor after n calls of `next`. */
  function AdvanceBy(chars: seq<char>, p: Pos, n: nat): (q: Pos)
    ensures p.i + n <= |chars| ==> q.i == p.i + n
    decreases n
  {
    if n == 0 then p else AdvanceBy(chars, Advance(chars, p), n - 1)
  }

  /** A character the literal scanner in state s simply appends. */
  predicate Plain(s: LiteralScan, c: char) {
    if s.inquote then c != '"' && c != '\\' else !EndsBareToken(c)
  }

  /** Inside a token, a run of n plain characters is appended to the token as it is. */
  lemma {:induction false} PlainRun(chars: seq<char>, p: Pos, s: LiteralScan, n: nat)
    requires s.state.InValue? && !s.escaping && p.i + n <= |chars|
    requires forall k :: p.i <= k < p.i + n ==> Plain(s, chars[k])
    ensures LiteralLoop(chars, p, s) == LiteralLoop(chars, AdvanceBy(chars, p, n), s.(value := s.value + chars[p.i..p.i + n]))
    decreases n
  {
    if n == 0 {
      assert s.value + chars[p.i..p.i] == s.value;
    } else {
      var q := Advance(chars, p);
      var s' := s.(value := s.value + [chars[p.i]]);
      PlainStep(chars, p, s);
      PlainRun(chars, q, s', n - 1);
      AppendSlice(s.value, chars, p.i, n);
    }
  }

  /** One plain character is appended to the token. */
  lemma PlainStep(chars: seq<char>, p: Pos, s: LiteralScan)
    requires s.state.InValue? && !s.escaping && p.i < |chars| && Plain(s, chars[p.i])
    ensures LiteralLoop(chars, p, s) == LiteralLoop(chars, Advance(chars, p), s.(value := s.value + [chars[p.i]]))
  {
  }

  lemma AppendSlice<T>(v: seq<T>, xs: seq<T>, i: nat, n: nat)
    requires 0 < n && i + n <= |xs|
    ensures v + [xs[i]] + xs[i + 1..i + n] == v + xs[i..i + n]
  {
    ConsSlice(xs, i, n);
  }

  lemma ConsSlice<T>(xs: seq<T>, i: nat, n: nat)
    requires 0 < n && i + n <= |xs|
    ensures [xs[i]] + xs[i + 1..i + n] == xs[i..i + n]
  {
  }

  /** The scanner's state after the first character of a token: an opening quote, or the token's first character. */
  function FirstScan(c: char): (s: LiteralScan)
    ensures s.state.InValue? && !s.escaping
    ensures s.inquote == s.hasquotes == (c == '"')
    ensures s.value == if c == '"' then "" else [c]
  {
    if c == '"' then LiteralScan(LiteralState.InValue, "", true, false, true)
    else LiteralScan(LiteralState.InValue, [c], false, false, false)
  }

  /** Leading whitespace aside, a token starts with its first character. */
  lemma TokenStart(chars: seq<char>, p: Pos)
    requires p.i < |chars| && !IsSpace(chars[p.i])
    ensures LiteralLoop(chars, p, LiteralStart) == LiteralLoop(chars, Advance(chars, p), FirstScan(chars[p.i]))
  {
    assert LiteralStart.value + [chars[p.i]] == [chars[p.i]];
  }

  /**
   * A quoted token whose body holds neither `"` nor a backslash is read as
   * its body, and the closing quote is consumed.
   */
  lemma QuotedToken(chars: seq<char>, p: Pos, body: string)
    requires p.i + |body| + 2 <= |chars| && chars[p.i] == '"' && chars[p.i + |body| + 1] == '"'
    requires chars[p.i + 1..p.i + |body| + 1] == body && '"' !in body && '\\' !in body
    ensures Literal(chars, p).0 == Classify(body, true)
    ensures Literal(chars, p).1.i == p.i + |body| + 2
  {
    TokenStart(chars, p);
    var q := Advance(chars, p);
    var s := FirstScan('"');
    assert forall k :: q.i <= k < q.i + |body| ==> chars[k] == body[k - q.i];
    PlainRun(chars, q, s, |body|);
    assert s.value + chars[q.i..q.i + |body|] == body;
    QuotedTokenEnd(chars, AdvanceBy(chars, q, |body|), s.(value := body));
    var token := LiteralLoop(chars, p, LiteralStart).0;
    assert token.value == body && token.hasquotes;
  }

  /** At an unescaped `"`, a quoted token is done and the quote is consumed. */
  lemma QuotedTokenEnd(chars: seq<char>, r: Pos, s: LiteralScan)
    requires s.state.InValue? && s.inquote && !s.escaping && r.i < |chars| && chars[r.i] == '"'
    ensures LiteralLoop(chars, r, s) == (s.(inquote := false), Advance(chars, r))
  {
  }

  /**
   * An unquoted token runs up to whitespace, `}`, `]`, `,` or the end of the
   * input; a terminator is pushed back, so the cursor stops just before it.
   */
  lemma BareToken(chars: seq<char>, p: Pos, n: nat)
    requires 0 < n && p.i + n <= |chars| && chars[p.i] != '"'
    requires forall k :: p.i <= k < p.i + n ==> !EndsBareToken(chars[k])
    requires p.i + n == |chars| || EndsBareToken(chars[p.i + n])
    ensures Literal(chars, p).0 == Classify(chars[p.i..p.i + n], false)
    ensures Literal(chars, p).1.i == p.i + n
  {
    assert !EndsBareToken(chars[p.i]);
    TokenStart(chars, p);
    var q := Advance(chars, p);
    var s := FirstScan(chars[p.i]);
    PlainRun(chars, q, s, n - 1);
    ConsSlice(chars, p.i, n);
    var s' := s.(value := chars[p.i..p.i + n]);
    BareTokenEnd(chars, AdvanceBy(chars, q, n - 1), s');
    var token := LiteralLoop(chars, p, LiteralStart).0;
    assert token.value == chars[p.i..p.i + n] && !token.hasquotes;
  }

  /** At the end of the input or at a terminator, an unquoted token is done and the cursor stays before the terminator. */
  lemma BareTokenEnd(chars: seq<char>, r: Pos, s: LiteralScan)
    requires s.state.InValue? && !s.inquote && r.i <= |chars|
    requires r.i == |chars| || EndsBareToken(chars[r.i])
    ensures LiteralLoop(chars, r, s).0 == s && LiteralLoop(chars, r, s).1.i == r.i
  {
  }

  /**
   * In a quoted token, a backslash and the character after it are consumed
   * together and append what `Unescape` gives for that character.
   */
  lemma EscapeStep(chars: seq<char>, p: Pos, s: LiteralScan)
    requires s.state.InValue? && s.inquote && !s.escaping
    requires p.i + 1 < |chars| && chars[p.i] == '\\'
    ensures LiteralLoop(chars, p, s)
      == LiteralLoop(chars, AdvanceBy(chars, p, 2), s.(value := s.value + Unescape(chars[p.i + 1])))
  {
  }

  /** A character a map key in state s simply takes: anything but `"` when quoted; when bare, anything but whitespace, `:` and `"`. */
  predicate KeyChar(s: MapScan, c: char) {
    if s.inquote then c != '"' else !IsSpace(c) && c != ':' && c != '"'
  }

  /** Inside a key, a run of n key characters is appended to the key as it is: there are no escapes in keys. */
  lemma {:induction false} KeyRun(chars: seq<char>, p: Pos, s: MapScan, n: nat)
    requires s.state.InKey? && p.i + n <= |chars|
    requires forall k :: p.i <= k < p.i + n ==> KeyChar(s, chars[k])
    ensures MapLoop(chars, p, s) == MapLoop(chars, AdvanceBy(chars, p, n), s.(key := s.key + chars[p.i..p.i + n]))
    decreases n
  {
    if n == 0 {
      assert s.key + chars[p.i..p.i] == s.key;
    } else {
      var q := Advance(chars, p);
      var s' := s.(key := s.key + [chars[p.i]]);
      KeyStep(chars, p, s);
      KeyRun(chars, q, s', n - 1);
      AppendSlice(s.key, chars, p.i, n);
    }
  }

  /** One key character is appended to the key. */
  lemma KeyStep(chars: seq<char>, p: Pos, s: MapScan)
    requires s.state.InKey? && p.i < |chars| && KeyChar(s, chars[p.i])
    ensures MapLoop(chars, p, s) == MapLoop(chars, Advance(chars, p), s.(key := s.key + [chars[p.i]]))
  {
  }

  /** A `"` inside a bare key is an error at the reader's position after it. */
  lemma QuoteInBareKey(chars: seq<char>, p: Pos, s: MapScan)
    requires s.state.InKey? && !s.inquote && p.i < |chars| && chars[p.i] == '"'
    ensures MapLoop(chars, p, s) == Err(ErrorAt(UnexpectedQuote, Advance(chars, p)))
  {
  }

  /**
   * Each value is stored with `put` under the key read before it, replacing
   * any earlier value for that key, and the key buffer is cleared.
   */
  lemma StoreValue(chars: seq<char>, p: Pos, s: MapScan, v: DataValue, q: Pos)
    requires s.state.BeforeValue? && p.i < |chars| && !IsSpace(chars[p.i])
    requires ParseValue(chars, p) == Ok((v, q))
    ensures MapLoop(chars, p, s)
      == MapLoop(chars, q, MapScan(MapState.AfterValue, "", s.inquote, s.entries[s.key := v]))
  {
    BackUndoesNext(chars, p);
  }

  /** Each list element is pushed at the end, after the elements before it. */
  lemma PushValue(chars: seq<char>, p: Pos, s: ListScan, v: DataValue, q: Pos)
    requires s.state.BeforeValue? && p.i < |chars| && !IsSpace(chars[p.i])
    requires ParseValue(chars, p) == Ok((v, q))
    ensures ListLoop(chars, p, s) == ListLoop(chars, q, ListScan(ListState.AfterValue, s.items + [v]))
  {
    BackUndoesNext(chars, p);
  }

  /** Whitespace is skipped in every state of the map loop except inside a key. */
  lemma {:induction false} MapSpaces(chars: seq<char>, p: Pos, s: MapScan, n: nat)
    requires !s.state.InKey? && p.i + n <= |chars|
    requires forall k :: p.i <= k < p.i + n ==> IsSpace(chars[k])
    ensures MapLoop(chars, p, s) == MapLoop(chars, AdvanceBy(chars, p, n), s)
    decreases n
  {
    if n > 0 {
      MapSpaces(chars, Advance(chars, p), s, n - 1);
    }
  }

  /** Whitespace is skipped in every state of the list loop. */
  lemma {:induction false} ListSpaces(chars: seq<char>, p: Pos, s: ListScan, n: nat)
    requires p.i + n <= |chars|
    requires forall k :: p.i <= k < p.i + n ==> IsSpace(chars[k])
    ensures ListLoop(chars, p, s) == ListLoop(chars, AdvanceBy(chars, p, n), s)
    decreases n
  {
    if n > 0 {
      ListSpaces(chars, Advance(chars, p), s, n - 1);
    }
  }

  /** The map loop that reaches the end of the input, in any state, fails with "String unexpectedly ended". */
  lemma MapEndOfInput(chars: seq<char>, p: Pos, s: MapScan)
    requires p.i >= |chars|
    ensures MapLoop(chars, p, s) == Err(DataError(StringUnexpectedlyEnded, NoLocation))
  {
  }

  /** After a key, anything but whitespace or `:` is an unexpected character, reported after reading it. */
  lemma MapAfterKeyError(chars: seq<char>, p: Pos, s: MapScan)
    requires s.state.AfterKey? && p.i < |chars|
    requires !IsSpace(chars[p.i]) && chars[p.i] != ':'
    ensures MapLoop(chars, p, s) == Err(ErrorAt(UnexpectedCharacter, Advance(chars, p)))
  {
  }

  /** After a value, anything but whitespace, `,` or `}` is an unexpected character, reported after reading it. */
  lemma MapAfterValueError(chars: seq<char>, p: Pos, s: MapScan)
    requires s.state.AfterValue? && p.i < |chars|
    requires !IsSpace(chars[p.i]) && chars[p.i] != ',' && chars[p.i] != '}'
    ensures MapLoop(chars, p, s) == Err(ErrorAt(UnexpectedCharacter, Advance(chars, p)))
  {
  }

  /** The list loop that reaches the end of the input, in any state, fails with "String unexpectedly ended". */
  lemma ListEndOfInput(chars: seq<char>, p: Pos, s: ListScan)
    requires p.i >= |chars|
    ensures ListLoop(chars, p, s) == Err(DataError(StringUnexpectedlyEnded, NoLocation))
  {
  }

  /** After an element, anything but whitespace, `,` or `]` is reported as a missing `]`, after reading it. */
  lemma ListAfterValueError(chars: seq<char>, p: Pos, s: ListScan)
    requires s.state.AfterValue? && p.i < |chars|
    requires !IsSpace(chars[p.i]) && chars[p.i] != ',' && chars[p.i] != ']'
    ensures ListLoop(chars, p, s) == Err(ErrorAt(ExpectedCloseBracket, Advance(chars, p)))
  {
  }

  /**
   * A `}` where a key is expected starts a key, like any other character
   * that is neither whitespace nor a quote; when the input ends there, the
   * map is unfinished.
   */
  lemma BraceAsKey(chars: seq<char>, p: Pos, s: MapScan)
    requires s.state.BeforeKey? && p.i < |chars| && chars[p.i] == '}'
    ensures MapLoop(chars, p, s) == MapLoop(chars, Advance(chars, p), s.(key := s.key + ['}'], state := MapState.InKey))
    ensures p.i + 1 == |chars| ==> MapLoop(chars, p, s) == Err(DataError(StringUnexpectedlyEnded, NoLocation))
  {
    if p.i + 1 == |chars| {
      assert Advance(chars, p).i == |chars|;
    }
  }

  /**
   * A `]` where an element is expected is read as a literal token and pushed
   * as an element; when the input ends there, the list is unfinished.
   */
  lemma BracketAsValue(chars: seq<char>, p: Pos, s: ListScan)
    requires s.state.BeforeValue? && p.i < |chars| && chars[p.i] == ']'
    ensures ParseValue(chars, p) == Ok(Literal(chars, p))
    ensures ListLoop(chars, p, s) == ListLoop(chars, Literal(chars, p).1, ListScan(ListState.AfterValue, s.items + [Literal(chars, p).0]))
    ensures p.i + 1 == |chars| ==> ListLoop(chars, p, s) == Err(DataError(StringUnexpectedlyEnded, NoLocation))
  {
    Dispatch(chars, p);
    var (v, q) := Literal(chars, p);
    PushValue(chars, p, s, v, q);
  }

  /** A brace, whitespace and a closing brace is not a map: the `}` is read as the first character of a key. */
  lemma EmptyBracesRejected(ws: string)
    requires forall k :: 0 <= k < |ws| ==> IsSpace(ws[k])
    ensures MapOf("{" + ws + "}") == Err(DataError(StringUnexpectedlyEnded, NoLocation))
    ensures ValueOf("{" + ws + "}") == Err(DataError(StringUnexpectedlyEnded, NoLocation))
  {
    var t := "{" + ws + "}";
    var s := MapStart.(state := MapState.BeforeKey);
    var p := Advance(t, Start);
    assert MapLoop(t, Start, MapStart) == MapLoop(t, p, s);
    assert forall k :: 1 <= k < 1 + |ws| ==> t[k] == ws[k - 1];
    MapSpaces(t, p, s, |ws|);
    BraceAsKey(t, AdvanceBy(t, p, |ws|), s);
    Dispatch(t, Start);
  }

  /** A bracket, whitespace and a closing bracket is not a list: the `]` is read as an element. */
  lemma EmptyBracketsRejected(ws: string)
    requires forall k :: 0 <= k < |ws| ==> IsSpace(ws[k])
    ensures ValueOf("[" + ws + "]") == Err(DataError(StringUnexpectedlyEnded, NoLocation))
  {
    var t := "[" + ws + "]";
    var s := ListStart.(state := ListState.BeforeValue);
    var p := Advance(t, Start);
    assert ListLoop(t, Start, ListStart) == ListLoop(t, p, s);
    assert forall k :: 1 <= k < 1 + |ws| ==> t[k] == ws[k - 1];
    ListSpaces(t, p, s, |ws|);
    BracketAsValue(t, AdvanceBy(t, p, |ws|), s);
    Dispatch(t, Start);
  }

  // ------------------------------------------------------------ the null literal

  /** A text that is one bare word of lower-case letters is read as that token. */
  lemma {:induction false} BareWord(s: string)
    requires s != [] && forall k :: 0 <= k < |s| ==> 'a' <= s[k] <= 'z'
    ensures ValueOf(s) == Ok(Classify(s, false))
  {
    Dispatch(s, Start);
    BareToken(s, Start, |s|);
    assert s[0..|s|] == s;
  }

  /** The unquoted null literal `parse_literal_from_reader` accepts is `mull`. */
  lemma MullReadsAsNull()
    ensures ValueOf("mull") == Ok(Null)
  {
    BareWord("mull");
  }

  /**
   * The text that `get_string` and `serialize` produce for `Null`, the word
   * `null`, reads back as a string: the parser's null literal is `mull`.
   */
  lemma NullReadsAsString()
    ensures ValueOf(ScalarText(Null)) == Ok(String("null"))
  {
    BareWord("null");
    LetterIsNotNumber("null");
  }
}
