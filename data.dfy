/**
 * The value model: `DataValue` with its `Number` and `Date` payloads, the text
 * each scalar displays as, and the canonical pretty-printed form (`Render`)
 * that serialization produces.
 *
 * Maps are unordered in the source (a hash map), so the order in which a
 * map's entries are written is not a property of the value. The order used
 * for every map inside a value is given explicitly as an `Order` that `Fits`
 * the value; nothing below assumes any particular order.
 */
module Data {
  import opened Decimal

  /**
   * A number. A float is kept as the digits it was written with (sign, whole
   * part, fraction digits): the model does no floating-point arithmetic.
   */
  datatype Number =
    | Int(i: int)
    | Float(negative: bool, whole: nat, fraction: string)
    | PositiveInfinity
    | NegativeInfinity
    | NaN

  /** Calendar and clock fields as decoded, with nanoseconds. */
  datatype DateTime = DateTime(year: nat, month: nat, day: nat, hour: nat, minute: nat, second: nat, nano: nat)

  /** A timestamp in UTC, or in local time at a fixed offset of `offset` seconds east of UTC. */
  datatype Date = DateTimeUtc(dt: DateTime) | DateTimeOffset(dt: DateTime, offset: int)

  datatype DataValue =
    | String(s: string)
    | Number(n: Number)
    | Bool(b: bool)
    | Date(d: Date)
    | DataMap(entries: map<string, DataValue>)
    | DataList(items: seq<DataValue>)
    | Null
    | None   // what a map lookup of a missing key yields; never parsed

  // ---------------------------------------------------------------- scalar text

  /** The digits of s without its trailing zeros. */
  function TrimZeros(s: string): (t: string)
    ensures t <= s
    ensures t == [] || t[|t| - 1] != '0'
    ensures forall k :: |t| <= k < |s| ==> s[k] == '0'
  {
    if s == [] || s[|s| - 1] != '0' then s else TrimZeros(s[..|s| - 1])
  }

  /**
   * Display text of a float, idealised as the exact decimal it was written
   * with: no trailing fraction zeros, and no point when the fraction is zero.
   */
  function FloatText(negative: bool, whole: nat, fraction: string): string {
    var f := TrimZeros(fraction);
    (if negative then "-" else "") + NatText(whole) + (if f == [] then "" else "." + f)
  }

  /** Display text of a number. */
  function NumberText(n: Number): string {
    match n
    case Int(i) => DecimalText(i)
    case Float(neg, w, f) => FloatText(neg, w, f)
    case PositiveInfinity => "Infinity"
    case NegativeInfinity => "-Infinity"
    case NaN => "NaN"
  }

  /** RFC 3339 offset text at minute precision; a zero offset is written `Z`. */
  function ZoneText(d: Date): string {
    if d.DateTimeUtc? || d.offset == 0 then "Z"
    else OffsetText(d.offset < 0, AbsOffset(d) / 3600, (AbsOffset(d) / 60) % 60)
  }

  /** The size of a fixed offset in seconds. */
  function AbsOffset(d: Date): nat
    requires d.DateTimeOffset?
  {
    if d.offset < 0 then -d.offset else d.offset
  }

  /** A signed `hh:mm` offset, each field padded to two digits. */
  function OffsetText(negative: bool, hours: nat, minutes: nat): string {
    (if negative then "-" else "+") + PadLeft(hours, 2) + ":" + PadLeft(minutes, 2)
  }

  /** Display text of a date: RFC 3339 in its local time, with millisecond precision. */
  function DateText(d: Date): string {
    var t := d.dt;
    PadLeft(t.year, 4) + "-" + PadLeft(t.month, 2) + "-" + PadLeft(t.day, 2)
    + "T" + PadLeft(t.hour, 2) + ":" + PadLeft(t.minute, 2) + ":" + PadLeft(t.second, 2)
    + "." + PadLeft(t.nano / 1000000, 3) + ZoneText(d)
  }

  /** `get_string` on a value that is not a container. */
  function ScalarText(v: DataValue): (r: string)
    requires !v.DataMap? && !v.DataList?
  {
    match v
    case String(s) => s
    case Number(n) => NumberText(n)
    case Bool(b) => if b then "true" else "false"
    case _ => "null"
  }

  // ---------------------------------------------------------------- entry order

  /** For every map inside a value, the order its entries are visited in. */
  datatype Order =
    | Scalar
    | MapOrder(keys: seq<string>, children: seq<Order>)
    | ListOrder(children: seq<Order>)

  predicate NoDuplicates(keys: seq<string>) {
    forall a, b :: 0 <= a < b < |keys| ==> keys[a] != keys[b]
  }

  /** keys lists every element of s exactly once. */
  predicate IsEnumeration(keys: seq<string>, s: set<string>) {
    && (forall k :: k in keys ==> k in s)
    && (forall k :: k in s ==> k in keys)
    && NoDuplicates(keys)
  }

  /** o gives an order for every map in v: a permutation of its keys, recursively. */
  predicate Fits(o: Order, v: DataValue)
    decreases v
  {
    match v
    case DataMap(m) =>
      && o.MapOrder?
      && IsEnumeration(o.keys, m.Keys)
      && |o.children| == |o.keys|
      && forall j :: 0 <= j < |o.keys| ==> Fits(o.children[j], m[o.keys[j]])
    case DataList(xs) =>
      && o.ListOrder?
      && |o.children| == |xs|
      && forall j :: 0 <= j < |xs| ==> Fits(o.children[j], xs[j])
    case _ => o.Scalar?
  }

  /** An enumeration has exactly as many elements as the set it enumerates. */
  lemma {:induction false} EnumerationLength(keys: seq<string>, s: set<string>)
    requires IsEnumeration(keys, s)
    ensures |keys| == |s|
    decreases |keys|
  {
    if keys != [] {
      var last := keys[|keys| - 1];
      var init := keys[..|keys| - 1];
      assert IsEnumeration(init, s - {last}) by {
        forall k | k in s - {last} ensures k in init {
          var a :| 0 <= a < |keys| && keys[a] == k;
          assert a != |keys| - 1;
        }
      }
      EnumerationLength(init, s - {last});
    }
  }

  /** Some enumeration of a finite set. */
  ghost function SetToSeq(s: set<string>): (keys: seq<string>)
    ensures IsEnumeration(keys, s) && |keys| == |s|
  {
    if s == {} then []
    else
      var x :| x in s;
      var rest := SetToSeq(s - {x});
      [x] + rest
  }

  /** Every value has an order, so no value is excluded from serialization. */
  ghost function SomeOrder(v: DataValue): (o: Order)
    ensures Fits(o, v)
    decreases v
  {
    match v
    case DataMap(m) =>
      var ks := SetToSeq(m.Keys);
      MapOrder(ks, seq(|ks|, j requires 0 <= j < |ks| => SomeOrder(m[ks[j]])))
    case DataList(xs) =>
      ListOrder(seq(|xs|, j requires 0 <= j < |xs| => SomeOrder(xs[j])))
    case _ => Scalar
  }

  // ---------------------------------------------------------------- serialized form

  /** The indentation of one nesting level is two spaces. */
  function Indent(level: nat): (s: string)
    ensures |s| == 2 * level && forall k :: 0 <= k < |s| ==> s[k] == ' '
  {
    seq(2 * level, _ => ' ')
  }

  /**
   * The serialized text of v at nesting level `indent`: strings and dates in
   * double quotes (no escaping), maps and lists one entry per CRLF-terminated
   * line, everything else as its `get_string` text.
   */
  function Render(v: DataValue, indent: nat, o: Order): string
    requires Fits(o, v)
    decreases v, 1, 0
  {
    match v
    case String(s) => "\"" + s + "\""
    case Date(d) => "\"" + DateText(d) + "\""
    case DataMap(m) => MapText(m, indent, o.keys, o.children)
    case DataList(xs) => ListText(xs, indent, o.children)
    case _ => ScalarText(v)
  }

  /** A map: an opening brace line, the entry lines in the order keys, the closing brace. */
  function MapText(m: map<string, DataValue>, indent: nat, keys: seq<string>, kids: seq<Order>): string
    requires IsEnumeration(keys, m.Keys) && |kids| == |keys|
    requires forall j :: 0 <= j < |keys| ==> Fits(kids[j], m[keys[j]])
    decreases DataMap(m), 0, |keys| + 1
  {
    "{\r\n" + MapEntries(m, indent, keys, kids, |keys|) + Indent(indent) + "}"
  }

  /** The first n entry lines of a map, visited in the order keys. */
  function MapEntries(m: map<string, DataValue>, indent: nat, keys: seq<string>, kids: seq<Order>, n: nat): string
    requires IsEnumeration(keys, m.Keys) && |kids| == |keys| && n <= |keys|
    requires forall j :: 0 <= j < |keys| ==> Fits(kids[j], m[keys[j]])
    decreases DataMap(m), 0, n
  {
    if n == 0 then "" else MapEntries(m, indent, keys, kids, n - 1) + MapEntry(m, indent, keys, kids, n - 1)
  }

  /** Entry line j: the key in quotes, a colon, the value one level deeper, a comma unless last. */
  function MapEntry(m: map<string, DataValue>, indent: nat, keys: seq<string>, kids: seq<Order>, j: nat): string
    requires IsEnumeration(keys, m.Keys) && |kids| == |keys| && j < |keys|
    requires forall j :: 0 <= j < |keys| ==> Fits(kids[j], m[keys[j]])
    decreases DataMap(m), 0, 0
  {
    Indent(indent) + "  \"" + keys[j] + "\":" + Render(m[keys[j]], indent + 1, kids[j])
    + (if |keys| - j > 1 then "," else "") + "\r\n"
  }

  /** A list: an opening bracket line, the element lines in order, the closing bracket. */
  function ListText(xs: seq<DataValue>, indent: nat, kids: seq<Order>): string
    requires |kids| == |xs|
    requires forall j :: 0 <= j < |xs| ==> Fits(kids[j], xs[j])
    decreases DataList(xs), 0, |xs| + 1
  {
    "[\r\n" + ListItems(xs, indent, kids, |xs|) + Indent(indent) + "]"
  }

  /** The first n element lines of a list, in list order. */
  function ListItems(xs: seq<DataValue>, indent: nat, kids: seq<Order>, n: nat): string
    requires |kids| == |xs| && n <= |xs|
    requires forall j :: 0 <= j < |xs| ==> Fits(kids[j], xs[j])
    decreases DataList(xs), 0, n
  {
    if n == 0 then "" else ListItems(xs, indent, kids, n - 1) + ListItem(xs, indent, kids, n - 1)
  }

  /** Element line j: the element one level deeper, a comma unless last. */
  function ListItem(xs: seq<DataValue>, indent: nat, kids: seq<Order>, j: nat): string
    requires |kids| == |xs| && j < |xs|
    requires forall j :: 0 <= j < |xs| ==> Fits(kids[j], xs[j])
    decreases DataList(xs), 0, 0
  {
    Indent(indent) + "  " + Render(xs[j], indent + 1, kids[j]) + (if |xs| - j > 1 then "," else "") + "\r\n"
  }

  /** `get_string`: containers give their serialized text; dates, `Null` and `None` give "null". */
  function GetString(v: DataValue, o: Order): (r: string)
    requires Fits(o, v)
    ensures v.String? ==> r == v.s
    ensures v.Bool? ==> (r == "true" <==> v.b) && (r == "false" <==> !v.b)
    ensures v.Number? ==> r == NumberText(v.n)
    ensures v.Date? || v.Null? || v.None? ==> r == "null"
    ensures v.DataMap? || v.DataList? ==> r == Render(v, 0, o)
  {
    if v.DataMap? || v.DataList? then Render(v, 0, o) else ScalarText(v)
  }
}
