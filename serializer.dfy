/**
 * Serialization: appending the canonical text of a value to a buffer. The
 * buffer is passed in and the extended buffer returned; each method is proved
 * to append exactly `Render` of its value and nothing else, so the earlier
 * contents of the buffer are always a prefix of the result.
 */
module Serializer {
  import opened Data

  /** The indentation prefix: two spaces per level, built one level at a time. */
  method IndentString(indent: nat) returns (s: string)
    ensures s == Indent(indent)
  {
    s := "";
    for k := 0 to indent
      invariant s == Indent(k)
    {
      s := s + "  ";
    }
  }

  /** `DataValue::serialize_to_string`. */
  method SerializeValue(v: DataValue, buffer: string, indent: nat, o: Order) returns (buf: string)
    requires Fits(o, v)
    ensures buf == buffer + Render(v, indent, o)
    decreases v, 2
  {
    match v
    case String(s) =>
      buf := buffer + ("\"" + s + "\"");
    case Date(d) =>
      buf := buffer + ("\"" + DateText(d) + "\"");
    case DataMap(m) =>
      buf := SerializeMap(m, buffer, indent, o);
    case DataList(xs) =>
      buf := SerializeList(xs, buffer, indent, o);
    case _ =>
      buf := buffer + GetString(v, o);
  }

  /** `DataMap::serialize_to_string`: one line per entry, in the order o gives, counting down to the last. */
  method SerializeMap(m: map<string, DataValue>, buffer: string, indent: nat, o: Order) returns (buf: string)
    requires Fits(o, DataMap(m))
    ensures buf == buffer + MapText(m, indent, o.keys, o.children)
    decreases DataMap(m), 1
  {
    var indentStr := IndentString(indent);
    buf := buffer + "{\r\n";
    ghost var open := buf;
    EnumerationLength(o.keys, m.Keys);
    var i := |m|;
    var j := 0;
    while j < |o.keys|
      invariant 0 <= j <= |o.keys| && i == |o.keys| - j
      invariant buf == open + MapEntries(m, indent, o.keys, o.children, j)
    {
      buf := SerializeEntry(m, buf, indent, indentStr, o, j, i > 1);
      Regroup3(open, MapEntries(m, indent, o.keys, o.children, j), MapEntry(m, indent, o.keys, o.children, j));
      i := i - 1;
      j := j + 1;
    }
    buf := buf + indentStr;
    buf := buf + "}";
    Regroup5(buffer, "{\r\n", MapEntries(m, indent, o.keys, o.children, j), indentStr, "}");
  }

  /** The loop body of `DataMap::serialize_to_string`: entry line j, with a comma when more entries follow. */
  method SerializeEntry(m: map<string, DataValue>, buffer: string, indent: nat, indentStr: string, o: Order, j: nat, more: bool)
    returns (buf: string)
    requires Fits(o, DataMap(m)) && j < |o.keys|
    requires indentStr == Indent(indent) && (more <==> |o.keys| - j > 1)
    ensures buf == buffer + MapEntry(m, indent, o.keys, o.children, j)
    decreases DataMap(m), 0
  {
    var key := o.keys[j];
    buf := buffer + indentStr;
    buf := buf + "  \"";
    buf := buf + key;
    buf := buf + "\":";
    buf := SerializeValue(m[key], buf, indent + 1, o.children[j]);
    ghost var value := Render(m[key], indent + 1, o.children[j]);
    ghost var comma := if more then "," else "";
    if more {
      buf := buf + ",";
    } else {
      assert buf + comma == buf;
    }
    buf := buf + "\r\n";
    Regroup8(buffer, indentStr, "  \"", key, "\":", value, comma, "\r\n");
  }

  /** `DataList::serialize_to_string`: one line per element, in list order, counting down to the last. */
  method SerializeList(xs: seq<DataValue>, buffer: string, indent: nat, o: Order) returns (buf: string)
    requires Fits(o, DataList(xs))
    ensures buf == buffer + ListText(xs, indent, o.children)
    decreases DataList(xs), 1
  {
    var indentStr := IndentString(indent);
    buf := buffer + "[\r\n";
    ghost var open := buf;
    var i := |xs|;
    var j := 0;
    while j < |xs|
      invariant 0 <= j <= |xs| && i == |xs| - j
      invariant buf == open + ListItems(xs, indent, o.children, j)
    {
      buf := SerializeItem(xs, buf, indent, indentStr, o, j, i > 1);
      Regroup3(open, ListItems(xs, indent, o.children, j), ListItem(xs, indent, o.children, j));
      i := i - 1;
      j := j + 1;
    }
    buf := buf + indentStr;
    buf := buf + "]";
    Regroup5(buffer, "[\r\n", ListItems(xs, indent, o.children, j), indentStr, "]");
  }

  /** The loop body of `DataList::serialize_to_string`: element line j, with a comma when more elements follow. */
  method SerializeItem(xs: seq<DataValue>, buffer: string, indent: nat, indentStr: string, o: Order, j: nat, more: bool)
    returns (buf: string)
    requires Fits(o, DataList(xs)) && j < |xs|
    requires indentStr == Indent(indent) && (more <==> |xs| - j > 1)
    ensures buf == buffer + ListItem(xs, indent, o.children, j)
    decreases DataList(xs), 0
  {
    buf := buffer + indentStr;
    buf := buf + "  ";
    buf := SerializeValue(xs[j], buf, indent + 1, o.children[j]);
    ghost var value := Render(xs[j], indent + 1, o.children[j]);
    ghost var comma := if more then "," else "";
    if more {
      buf := buf + ",";
    } else {
      assert buf + comma == buf;
    }
    buf := buf + "\r\n";
    Regroup6(buffer, indentStr, "  ", value, comma, "\r\n");
  }

  /** Regrouping appended pieces (kept apart so the loops above reason about whole lines). */
  lemma Regroup3(a: string, b: string, c: string)
    ensures a + b + c == a + (b + c)
  {
  }

  lemma Regroup5(a: string, b: string, c: string, d: string, e: string)
    ensures a + b + c + d + e == a + (b + c + d + e)
  {
  }

  lemma Regroup6(a: string, b: string, c: string, d: string, e: string, f: string)
    ensures a + b + c + d + e + f == a + (b + c + d + e + f)
  {
  }

  lemma Regroup8(a: string, b: string, c: string, d: string, e: string, f: string, g: string, h: string)
    ensures a + b + c + d + e + f + g + h == a + (b + c + d + e + f + g + h)
  {
  }

  /** `get_serialized_string`: serialize into a fresh, empty buffer at level 0. */
  method GetSerializedString(v: DataValue, o: Order) returns (s: string)
    requires Fits(o, v)
    ensures s == Render(v, 0, o)
  {
    s := SerializeValue(v, "", 0, o);
  }
}
