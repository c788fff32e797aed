/**
 * The parser: `parse` and `parse_map` over a `SerialReader`, with the map,
 * list and literal parsers as `while` loops over their state enums.
 *
 * Each method is proved to compute the corresponding function of `Grammar`:
 * its loop keeps "the rest of the loop, from the current cursor and state,
 * gives the same result as the whole loop from where the method started".
 */
module Parsers {
  import opened Errors
  import opened Data
  import opened SerialReaders
  import opened Grammar
  import opened DataMaps
  import opened DataLists
  import Numbers
  import Dates

  /** A method's result and final cursor are what the specification gives. */
  ghost predicate Agrees<T>(r: Result<T>, spec: Result<(T, Pos)>, at: Pos) {
    match spec
    case Ok((v, q)) => r == Ok(v) && at == q
    case Err(e) => r == Err(e)
  }

  /** `parse_from_reader`. */
  method ParseFromReader(reader: SerialReader) returns (r: Result<DataValue>)
    requires reader.Valid()
    modifies reader
    ensures reader.Valid()
    ensures Agrees(r, ParseValue(reader.chars, old(reader.Position())), reader.Position())
    decreases |reader.chars| - reader.i, 1
  {
    ghost var goal := ParseValue(reader.chars, reader.Position());
    while reader.HasMore()
      invariant reader.Valid() && reader.i >= old(reader.i)
      invariant ParseValue(reader.chars, reader.Position()) == goal
      decreases |reader.chars| - reader.i
    {
      var c := reader.Next();
      var spaceequiv := c == ' ' || c == '\r' || c == '\n' || c == '\t';
      if !spaceequiv {
        reader.Back();
        if c == '{' {
          var m := ParseMapFromReader(reader);
          if m.Err? {
            return Err(m.error);
          }
          return Ok(DataValue.DataMap(m.value.entries));
        } else if c == '[' {
          var l := ParseListFromReader(reader);
          if l.Err? {
            return Err(l.error);
          }
          return Ok(DataValue.DataList(l.value.items));
        } else {
          var v := ParseLiteralFromReader(reader);
          return v;
        }
      }
    }
    return Err(DataError(UnexpectedEndOfString, NoLocation));
  }

  /** `parse_map_from_reader`: fills a new `DataMap` with `put`. */
  method ParseMapFromReader(reader: SerialReader) returns (r: Result<DataMap>)
    requires reader.Valid()
    modifies reader
    ensures reader.Valid()
    ensures var g := MapLoop(reader.chars, old(reader.Position()), MapStart);
      && (r.Ok? <==> g.Ok?)
      && (r.Err? ==> r.error == g.error)
      && (r.Ok? ==> fresh(r.value) && r.value.entries == g.value.0 && reader.Position() == g.value.1)
    decreases |reader.chars| - reader.i, 0
  {
    var state := MapState.BeforeBrace;
    var key: string := "";
    var inquote := false;
    var dataMap := new DataMap();
    ghost var goal := MapLoop(reader.chars, reader.Position(), MapStart);
    while reader.HasMore()
      invariant reader.Valid() && fresh(dataMap) && reader.i >= old(reader.i)
      invariant !state.BeforeBrace? ==> reader.i > old(reader.i)
      invariant MapLoop(reader.chars, reader.Position(), MapScan(state, key, inquote, dataMap.entries)) == goal
      decreases |reader.chars| - reader.i
    {
      var c := reader.Next();
      var spaceequiv := c == ' ' || c == '\r' || c == '\n' || c == '\t';
      if state.BeforeBrace? {
        if !spaceequiv {
          if c == '{' {
            state := MapState.BeforeKey;
          } else {
            reader.Back();
            return Err(DataError(ExpectingOpenBrace, At(reader.row, reader.col)));
          }
        }
      } else if state.BeforeKey? {
        if !spaceequiv {
          if c == '"' {
            inquote := true;
          } else {
            key := key + [c];
          }
          state := MapState.InKey;
        }
      } else if state.InKey? {
        if inquote {
          if c == '"' {
            inquote := false;
            state := MapState.AfterKey;
          } else {
            key := key + [c];
          }
        } else {
          if spaceequiv {
            state := MapState.AfterKey;
          } else if c == ':' {
            state := MapState.BeforeValue;
          } else if c == '"' {
            return Err(DataError(UnexpectedQuote, At(reader.row, reader.col)));
          } else {
            key := key + [c];
          }
        }
      } else if state.AfterKey? {
        if !spaceequiv {
          if c == ':' {
            state := MapState.BeforeValue;
          } else {
            return Err(DataError(UnexpectedCharacter, At(reader.row, reader.col)));
          }
        }
      } else if state.BeforeValue? {
        if !spaceequiv {
          reader.Back();
          var value := ParseFromReader(reader);
          if value.Err? {
            return Err(value.error);
          }
          dataMap.Put(key, value.value);
          key := "";
          state := MapState.AfterValue;
        }
      } else {
        if !spaceequiv {
          if c == ',' {
            state := MapState.BeforeKey;
          } else if c == '}' {
            return Ok(dataMap);
          } else {
            return Err(DataError(UnexpectedCharacter, At(reader.row, reader.col)));
          }
        }
      }
    }
    return Err(DataError(StringUnexpectedlyEnded, NoLocation));
  }

  /** `parse_list_from_reader`: fills a new `DataList` with `push`. */
  method ParseListFromReader(reader: SerialReader) returns (r: Result<DataList>)
    requires reader.Valid()
    modifies reader
    ensures reader.Valid()
    ensures var g := ListLoop(reader.chars, old(reader.Position()), ListStart);
      && (r.Ok? <==> g.Ok?)
      && (r.Err? ==> r.error == g.error)
      && (r.Ok? ==> fresh(r.value) && r.value.items == g.value.0 && reader.Position() == g.value.1)
    decreases |reader.chars| - reader.i, 0
  {
    var state := ListState.BeforeBracket;
    var list := new DataList();
    ghost var goal := ListLoop(reader.chars, reader.Position(), ListStart);
    while reader.HasMore()
      invariant reader.Valid() && fresh(list) && reader.i >= old(reader.i)
      invariant !state.BeforeBracket? ==> reader.i > old(reader.i)
      invariant ListLoop(reader.chars, reader.Position(), ListScan(state, list.items)) == goal
      decreases |reader.chars| - reader.i
    {
      var c := reader.Next();
      var spaceequiv := c == ' ' || c == '\r' || c == '\n' || c == '\t';
      if state.BeforeBracket? {
        if !spaceequiv {
          if c == '[' {
            state := ListState.BeforeValue;
          } else {
            reader.Back();
            return Err(DataError(ExpectedOpenBracket, At(reader.row, reader.col)));
          }
        }
      } else if state.BeforeValue? {
        if !spaceequiv {
          reader.Back();
          var value := ParseFromReader(reader);
          if value.Err? {
            return Err(value.error);
          }
          list.Push(value.value);
          state := ListState.AfterValue;
        }
      } else {
        if !spaceequiv {
          if c == ',' {
            state := ListState.BeforeValue;
          } else if c == ']' {
            return Ok(list);
          } else {
            return Err(DataError(ExpectedCloseBracket, At(reader.row, reader.col)));
          }
        }
      }
    }
    return Err(DataError(StringUnexpectedlyEnded, NoLocation));
  }

  /** `parse_literal_from_reader`: scan one token, then classify it. It never fails. */
  method ParseLiteralFromReader(reader: SerialReader) returns (r: Result<DataValue>)
    requires reader.Valid()
    modifies reader
    ensures reader.Valid()
    ensures var (v, q) := Literal(reader.chars, old(reader.Position())); r == Ok(v) && reader.Position() == q
  {
    var state := LiteralState.BeforeValue;
    var value: string := "";
    var inquote := false;
    var escaping := false;
    var hasquotes := false;
    var done := false;
    ghost var goal := LiteralLoop(reader.chars, reader.Position(), LiteralStart);
    while reader.HasMore() && !done
      invariant reader.Valid()
      invariant var s := LiteralScan(state, value, inquote, escaping, hasquotes);
        if done then (s, reader.Position()) == goal else LiteralLoop(reader.chars, reader.Position(), s) == goal
      decreases |reader.chars| - reader.i, if done then 0 else 1
    {
      var c := reader.Next();
      var spaceequiv := c == ' ' || c == '\r' || c == '\n' || c == '\t';
      if state.BeforeValue? {
        if !spaceequiv {
          if c == '"' {
            inquote := true;
            hasquotes := true;
          } else {
            value := value + [c];
          }
          state := LiteralState.InValue;
        }
      } else {
        if inquote {
          if escaping {
            ghost var before := value;
            match c {
              case '\\' => value := value + ['\\'];
              case 'n' => value := value + ['\n'];
              case 'r' => value := value + ['\r'];
              case 't' => value := value + ['\t'];
              case '/' => value := value + ['/'];
              case '"' => value := value + ['"'];
              case _ =>
            }
            assert value == before + Unescape(c);
            escaping := false;
          } else if c == '\\' {
            escaping := true;
          } else if c == '"' {
            inquote := false;
            done := true;
          } else {
            value := value + [c];
          }
        } else {
          if spaceequiv || c == '}' || c == ']' || c == ',' {
            reader.Back();
            done := true;
          } else {
            value := value + [c];
          }
        }
      }
    }
    if hasquotes {
      var dt := Dates.ParseDate(value);
      match dt
      case Ok(d) => return Ok(Date(d));
      case Err(_) => return Ok(String(value));
    } else {
      if value == "true" {
        return Ok(Bool(true));
      } else if value == "false" {
        return Ok(Bool(false));
      } else if value == "mull" {
        return Ok(Null);
      } else {
        var n := Numbers.ParseNumber(value);
        match n
        case Ok(x) => return Ok(Number(x));
        case Err(_) => return Ok(String(value));
      }
    }
  }

  /** `parse`: a value from a fresh reader over s. */
  method Parse(s: string) returns (r: Result<DataValue>)
    ensures r == ValueOf(s)
  {
    var reader := new SerialReader(s);
    var value := ParseFromReader(reader);
    if value.Err? {
      return Err(value.error);
    }
    return Ok(value.value);
  }

  /** `parse_map`: a map from a fresh reader over s. */
  method ParseMap(s: string) returns (r: Result<DataMap>)
    ensures r.Ok? <==> MapOf(s).Ok?
    ensures r.Err? ==> r.error == MapOf(s).error
    ensures r.Ok? ==> fresh(r.value) && r.value.entries == MapOf(s).value
  {
    var reader := new SerialReader(s);
    var parsed := ParseMapFromReader(reader);
    if parsed.Err? {
      return Err(parsed.error);
    }
    return Ok(parsed.value);
  }
}
