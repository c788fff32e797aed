# firebusrs data format in Dafny

This project models the text data format of firebusrs: its value model, its
pretty-printing serializer and its parser.

- **Values.** A `DataValue` is one of: a string, a number, a boolean, a date,
  a map from strings to values, a list of values, `Null`, or the `None`
  sentinel that a map lookup gives for a missing key.
  - A number is a whole number, a float, or one of `Infinity`, `-Infinity` and
    `NaN`.
  - A date is a UTC timestamp or a timestamp at a fixed offset.
- **Serializer.** It writes maps and lists one entry per CRLF-terminated line,
  with two spaces of indentation per level. Strings and dates are written in
  double quotes without escaping. Every other scalar is written as its
  `get_string` text.
- **Parser.** It is a reader with row and column counters and three loops over
  explicit state enums, one each for maps, lists and literals.
  - A scanned literal is classified as a date or string (when quoted), or as a
    boolean, `mull` (null), a number or a bare string (when not quoted).
  - Two decoders handle the literal text. `parse_number` reads a sign and digits
    with an optional point. `parse_date` reads a fixed-position RFC 3339
    timestamp with an optional fraction and a `Z`, `±HH` or `±HH:MM` zone.

## How the model is built

- **Modules.** The modules follow the source files:
  - `Macros` is `macros.rs`.
  - `StringReaders` and `SerialReaders` are the two readers.
  - `Data`, `Decimal` and `Serializer` are `data.rs`.
  - `DataMaps` and `DataLists` are the two containers.
  - `Grammar`, `Parsers`, `Numbers` and `Dates` are `parsers.rs`.
  - `Errors` holds `DataError`.
  - `RoundTrips` and `TreeRoundTrips` hold the properties that join the
    serializer and the parser.
- **Readers and containers are classes.** Each reader, `DataMap` and `DataList`
  is a class whose methods update its fields.
- **Parser loops.** Each parser loop is a method with a `while` loop. It is
  proved against a recursive specification function over the input and a
  cursor: `ParseValue`, `MapLoop`, `ListLoop` and `LiteralLoop`. The loop
  invariant says that the specification of the current state equals the
  specification of the initial state.
- **Decoders.** `parse_number` and `parse_date` are methods stepping a
  `StringReader`. They are proved equal to the decoding functions `NumberOf`
  and `DateOf`.
- **Serializer.** The serializer methods append to a buffer. They are proved to
  append exactly `Render(v, indent, o)`, the canonical text.
- **Map entry order.** A Rust `HashMap` has no fixed iteration order, so `o` is
  an explicit `Order`. For every map in the tree it gives some enumeration of
  that map's keys. No lemma depends on which enumeration is used.

The main result is `TreeRoundTrips.TreeRoundTrip`. For every tree in the
readable class and every entry order, `parse` of the serialized text gives the
tree back, with dates cut to milliseconds and a zero offset read back as UTC
(`Dates.Truncated`). A tree is readable when it meets the conditions below.
Each comes with the lemma that shows why it is needed.

- Its strings hold no `"`. `RoundTrips.QuoteInStringNotReadBack` shows that
  the quote ends the token early.
- Its strings hold no backslash. `RoundTrips.BackslashInStringNotReadBack`
  shows that a backslash escapes the closing quote.
- Its strings are not dates. `RoundTrips.QuotedDate` shows that a quoted text
  that decodes as a date reads back as a `Date`.
- Its keys hold no `"`. `RoundTrips.QuoteInKeyNotReadBack` shows that the
  text is rejected.
- It holds no floats. `Numbers.FloatSignDropped` shows that a negative float
  decodes without its sign. `f64` text is not modelled at all (see "Left
  out").
- It holds no `Null` or `None`. Both are written as `null`, and
  `Grammar.NullReadsAsString` shows that `null` reads back as a string.
- None of its maps or lists is empty. `RoundTrips.EmptyMapNotReadBack` and
  `RoundTrips.EmptyListNotReadBack` show that their text does not parse.

## Model

| member | source | states |
|---|---|---|
| Macros.ToInt | src/data/parsers/macros.rs:10-14 | a decimal digit gives the value 0..9 whose digit character it is |
| Macros.DigitsAreDigits | src/data/parsers/macros.rs:34-38 | `is_digit(10)` holds exactly for the characters `0`..`9` |
| Macros.ParseErr | src/data/parsers/macros.rs:2-6 | always the "Unexpected character" error, with no position |
| Macros.AssertNumeric | src/data/parsers/macros.rs:34-38 | fails, with "Unexpected character", exactly when the character is not an ASCII digit |
| Macros.AssertSame | src/data/parsers/macros.rs:42-46 | fails, with "Unexpected character", exactly when the character differs from the expected one |
| Macros.AssertNotEnd | src/data/parsers/macros.rs:26-30 | fails, with "Unexpected character", exactly on NUL |
| StringReaders.CharAt | src/data/parsers/stringreader.rs:8-14 | the k-th read returns the k-th character, and NUL once the input is exhausted |
| StringReaders.StringReader.Next | src/data/parsers/stringreader.rs:8-14 | returns the next character in order and advances; after the end it returns NUL every time and changes nothing |
| StringReaders.NulEndsInput | src/data/parsers/stringreader.rs:11-12 | up to the first embedded NUL, reads match those of the text cut there, and NUL is returned exactly at that point, as at the end |
| StringReaders.NoNulReadInFull | src/data/parsers/stringreader.rs:8-14 | a text without NUL is read in full |
| SerialReaders.SerialReader.constructor | src/data/parsers/serialreader.rs:10-14 | the characters are the input, `len` is their count, and index, row and column start at 0 |
| SerialReaders.SerialReader.HasMore | src/data/parsers/serialreader.rs:36-38 | true exactly when `i < len` |
| SerialReaders.SerialReader.Next | src/data/parsers/serialreader.rs:16-29 | returns `chars[i]` and moves on, where a newline starts a new row at column 0 and any other character adds a column; at the end it returns a space and changes nothing |
| SerialReaders.SerialReader.Back | src/data/parsers/serialreader.rs:31-34 | index and column go down by one, and the row stays |
| SerialReaders.Advance | src/data/parsers/serialreader.rs:16-29 | the cursor after `next`, in each of its three cases |
| SerialReaders.Retreat | src/data/parsers/serialreader.rs:31-34 | the cursor after `back` |
| SerialReaders.BackUndoesNext | src/data/parsers/serialreader.rs:16-34 | `back` after a non-newline `next` restores index, row and column exactly |
| SerialReaders.BackOverNewline | src/data/parsers/serialreader.rs:16-34 | `back` after a newline restores the index but leaves the row advanced and the column at -1 (an unsigned underflow in the source) |
| Decimal.NatText | src/data.rs:41 | decimal text of a natural: digits only, no leading zero, and its digit value is the number |
| Decimal.DecimalText | src/data.rs:41 | integer display: a leading `-` exactly for negatives, followed by the digits of the magnitude |
| Decimal.PadLeft | src/data.rs:58-59 | zero-padded field: digits whose value is the number, exactly the width when the number fits |
| Data.Indent | src/data/datamap.rs:85-88 | two spaces per nesting level |
| Data.SomeOrder | src/data/datamap.rs:91 | every value has an entry order for all of its maps, so serialization covers every value |
| Data.GetString | src/data.rs:76-85 | a string's content, `true`/`false`, a number's display text, the serialized text at level 0 for a map or list, and `null` for a date, `Null` and `None` |
| Serializer.IndentString | src/data/datamap.rs:85-88 | the loop builds two spaces per level |
| Serializer.SerializeValue | src/data.rs:95-103 | appends exactly the canonical text of the value, so the old buffer is a prefix of the new one |
| Serializer.SerializeMap | src/data/datamap.rs:84-105 | appends `{` CRLF, one entry line per key in the given order, the indentation and `}` |
| Serializer.SerializeEntry | src/data/datamap.rs:92-101 | one entry line: indentation, the quoted key and a colon, the value one level deeper, a comma exactly when more entries follow, CRLF |
| Serializer.SerializeList | src/data/datalist.rs:31-50 | appends `[` CRLF, one element line per element in list order, the indentation and `]` |
| Serializer.SerializeItem | src/data/datalist.rs:39-46 | one element line: indentation and two spaces, the element one level deeper, a comma exactly when more elements follow, CRLF |
| Serializer.GetSerializedString | src/data.rs:21-25 | serializing into an empty buffer at level 0 gives exactly the canonical text |
| DataMaps.DataMap.constructor | src/data/datamap.rs:15-17 | a new map is empty |
| DataMaps.DataMap.NewWith | src/data/datamap.rs:19-29 | the loop stores `arr[i]` ↦ `arr[i+1]` for every `i < len - 1`, in order, later pairs overwriting earlier ones |
| DataMaps.NewWithSteps | src/data/datamap.rs:22 | the number of loop steps is below the length whenever it is not zero |
| DataMaps.AdjacentPairsContents | src/data/datamap.rs:19-29 | after n steps, k is a key exactly when it occurs among the first n elements, and its value is the element after its last occurrence |
| DataMaps.NewWithOverlapsPairs | src/data/datamap.rs:26 | `["a", "1", "b", "2"]` gives three entries, one of them `"1"` ↦ `"b"` |
| DataMaps.KeyValuePairsContents | src/data/datamap.rs:19-29 | stepping two at a time, k is a key exactly when it is at an even position, and its value is the element after its last even occurrence |
| DataMaps.DataMap.NewWithIntended | src/data/datamap.rs:19-29 | stepping by two stores exactly the key/value pairs |
| DataMaps.DataMap.Get | src/data/datamap.rs:31-37 | the stored value for a present key, `None` for a missing one |
| DataMaps.DataMap.GetString | src/data/datamap.rs:39-42 | `null` for a missing key, otherwise the value's `get_string` |
| DataMaps.DataMap.Put | src/data/datamap.rs:44-46 | k now maps to v, replacing any old value, and every other key is unchanged |
| DataMaps.DataMap.PutString | src/data/datamap.rs:48-50 | `put` of the string value |
| DataMaps.DataMap.PutInt | src/data/datamap.rs:52-54 | `put` of the whole number |
| DataMaps.DataMap.PutFloat | src/data/datamap.rs:56-58 | `put` of the float |
| DataMaps.DataMap.PutBool | src/data/datamap.rs:60-62 | `put` of the boolean |
| DataMaps.DataMap.PutDateUtc | src/data/datamap.rs:64-66 | `put` of the UTC date |
| DataMaps.DataMap.PutMap | src/data/datamap.rs:68-70 | `put` of the nested map's contents |
| DataMaps.DataMap.PutList | src/data/datamap.rs:72-74 | `put` of the nested list's contents |
| DataMaps.DataMap.SerializeToString | src/data/datamap.rs:84-105 | appends the map's canonical text in the given entry order |
| DataLists.DataList.constructor | src/data/datalist.rs:11-13 | a new list is empty |
| DataLists.DataList.Push | src/data/datalist.rs:15-17 | appends at the end: the length grows by one and earlier elements are unchanged |
| DataLists.DataList.PushString | src/data/datalist.rs:19-21 | appends the string value |
| DataLists.DataList.SerializeToString | src/data/datalist.rs:31-50 | appends the list's canonical text |
| Grammar.ParseValue | src/data/parsers.rs:34-48 | a successful parse moves the cursor forward and stays within the input |
| Grammar.Dispatch | src/data/parsers.rs:34-45 | at the first non-whitespace character, the same cursor goes to the map parser at `{`, the list parser at `[`, and the literal parser otherwise |
| Grammar.OnlySpaceLeft | src/data/parsers.rs:35-47 | space, CR, LF and tab up to the end give "Unexpected end of string" |
| Grammar.WhitespaceOnly | src/data/parsers.rs:22-47 | `parse` of an empty or all-whitespace text is "Unexpected end of string" |
| Grammar.MapLoop | src/data/parsers.rs:52-133 | a successful map loop moves the cursor forward within the input |
| Grammar.MapLoopResult | src/data/parsers.rs:52-133 | keys already stored are kept, a map ends right after a `}`, and the result is never empty from the start state |
| Grammar.MapNeverEmpty | src/data/parsers.rs:71-79 | `parse_map` never returns an empty map |
| Grammar.KeyRun | src/data/parsers.rs:81-99 | inside a key, quoted or bare, key characters are appended as they are, with no escapes |
| Grammar.QuoteInBareKey | src/data/parsers.rs:89-95 | a `"` in a bare key is an error carrying the reader's row and column |
| Grammar.StoreValue | src/data/parsers.rs:110-117 | each value is stored under the key read before it, replacing an earlier value, and the key is cleared |
| Grammar.MapSpaces | src/data/parsers.rs:57-129 | whitespace is skipped in every map state except inside a key |
| Grammar.BraceAsKey | src/data/parsers.rs:71-79 | a `}` anywhere a key is expected is appended to the key and the loop moves into the key; at the end of the input this leaves the map unfinished |
| Grammar.MapEndOfInput | src/data/parsers.rs:132 | the map loop that runs out of input, in any state, fails with "String unexpectedly ended" |
| Grammar.MapAfterKeyError | src/data/parsers.rs:101-108 | after a key, a character other than whitespace or `:` is an unexpected character, at the position just after it |
| Grammar.MapAfterValueError | src/data/parsers.rs:119-128 | after a value, a character other than whitespace, `,` or `}` is an unexpected character, at the position just after it |
| Grammar.EmptyBracesRejected | src/data/parsers.rs:61-79 | `{`, whitespace and `}` is not a map: "String unexpectedly ended" |
| Grammar.ListLoop | src/data/parsers.rs:137-176 | a successful list loop moves the cursor forward within the input |
| Grammar.ListLoopResult | src/data/parsers.rs:137-176 | values already pushed stay in order at the front, and a list ends right after a `]` |
| Grammar.PushValue | src/data/parsers.rs:154-160 | each value is pushed at the end, after the ones before it |
| Grammar.ListSpaces | src/data/parsers.rs:140-172 | whitespace is skipped in every list state |
| Grammar.BracketAsValue | src/data/parsers.rs:154-160 | a `]` anywhere an element is expected is read by the literal parser and pushed as an element; at the end of the input this leaves the list unfinished |
| Grammar.ListEndOfInput | src/data/parsers.rs:175 | the list loop that runs out of input, in any state, fails with "String unexpectedly ended" |
| Grammar.ListAfterValueError | src/data/parsers.rs:162-171 | after an element, a character other than whitespace, `,` or `]` gives "Expected ]", at the position just after it |
| Grammar.EmptyBracketsRejected | src/data/parsers.rs:144-160 | `[`, whitespace and `]` is not a list: "String unexpectedly ended" |
| Grammar.LiteralLoop | src/data/parsers.rs:187-233 | the scan never fails and ends within the input, no earlier than it started; from a non-space character before the token it moves forward |
| Grammar.Unescape | src/data/parsers.rs:204-214 | the escapes `\\ \n \r \t \/ \"` give one character, and any other escaped character gives nothing |
| Grammar.EscapeStep | src/data/parsers.rs:203-216 | a backslash and the character after it are consumed together and append what `Unescape` gives |
| Grammar.PlainRun | src/data/parsers.rs:220-229 | characters that neither end nor escape the token are appended as they are |
| Grammar.FirstScan | src/data/parsers.rs:191-200 | the first character opens a quoted token at `"`, and otherwise starts the token's text |
| Grammar.TokenStart | src/data/parsers.rs:191-200 | whitespace aside, a token starts at its first character |
| Grammar.QuotedToken | src/data/parsers.rs:191-222 | a quoted body without `"` or backslash is the token, and the closing quote is consumed |
| Grammar.QuotedTokenEnd | src/data/parsers.rs:217-219 | an unescaped `"` ends a quoted token and is consumed |
| Grammar.BareToken | src/data/parsers.rs:191-229 | an unquoted token runs up to whitespace, `}`, `]`, `,` or the end, and the cursor stops before the terminator |
| Grammar.BareTokenEnd | src/data/parsers.rs:224-227 | a terminator is pushed back |
| Grammar.ClassifyWith | src/data/parsers.rs:234-254 | a quoted token is a date when it decodes as one and a string otherwise; an unquoted token is a boolean exactly for `true`/`false`, null exactly for the null word, a number when it decodes, and otherwise its own string |
| Grammar.Classify | src/data/parsers.rs:234-254 | the null word is `mull`, and a quoted token is never anything but a date or a string |
| Grammar.Literal | src/data/parsers.rs:180-255 | the literal parser never fails and consumes at least the first non-space character |
| Grammar.BareWord | src/data/parsers.rs:224-229 | a text that is one lower-case word is classified as that bare token |
| Grammar.MullReadsAsNull | src/data/parsers.rs:245-246 | `mull` reads as `Null` |
| Grammar.NullReadsAsString | src/data/parsers.rs:245-251 | `null`, the text written for `Null`, reads back as the string `"null"` |
| Parsers.ParseFromReader | src/data/parsers.rs:34-48 | the result and the final cursor are those of `ParseValue` |
| Parsers.ParseMapFromReader | src/data/parsers.rs:52-133 | success, error and the filled map agree with `MapLoop` from the start state |
| Parsers.ParseListFromReader | src/data/parsers.rs:137-176 | success, error and the filled list agree with `ListLoop` from the start state |
| Parsers.ParseLiteralFromReader | src/data/parsers.rs:180-255 | never fails, and its value and cursor are those of `Literal` |
| Parsers.Parse | src/data/parsers.rs:22-26 | equals `ValueOf` of the text |
| Parsers.ParseMap | src/data/parsers.rs:28-32 | agrees with `MapOf` of the text |
| Numbers.NumberOf | src/data/parsers.rs:257-290 | its only error is "Unexpected character", and a float is never negative and has only digits after the point |
| Numbers.DigitRun | src/data/parsers.rs:271-275 | succeeds exactly on all-digit text, with the left-to-right value `10 * v + d` |
| Numbers.DecodeUnsigned | src/data/parsers.rs:266-289 | succeeds exactly when the text before the first point, and the text after it if there is one, are all digits; a success is a whole number exactly when there is no point, and a float otherwise |
| Numbers.ParseNumber | src/data/parsers.rs:257-290 | the method's result equals `NumberOf` |
| Numbers.ReadWhole | src/data/parsers.rs:271-276 | the whole-part loop accumulates the digits before the point and fails at any other character |
| Numbers.ReadFraction | src/data/parsers.rs:280-287 | the fraction loop accepts exactly a run of digits up to the end |
| Numbers.WholePartEnds | src/data/parsers.rs:271-276 | where the whole-part loop stops: at the point, at the end, or at an error |
| Numbers.LetterIsNotNumber | src/data/parsers.rs:271-273 | a text starting with a lower-case letter is not a number |
| Numbers.DecodesToFloat | src/data/parsers.rs:279-288 | a point between two digit runs gives a non-negative float |
| Numbers.SignedText | src/data/parsers.rs:258-270 | a text that is an optional `-` and then a digit is no sentinel, and is decoded after its sign |
| Numbers.DecodeText | src/data/parsers.rs:261-289 | a sign, digits and nothing gives the signed whole number; with a point and digits it gives the unsigned float |
| Numbers.NumberRoundTrip | src/data/parsers.rs:257-278 | whole numbers and the three sentinels decode from their display text to themselves |
| Numbers.EmptyIsZero | src/data/parsers.rs:266-278 | `""` and `"-"` both give `Int(0)` |
| Numbers.FloatTextDecodes | src/data/parsers.rs:279-288 | a float's text decodes to its whole part and trimmed fraction, and it has a sign exactly when the float is negative |
| Numbers.FloatSignDropped | src/data/parsers.rs:288 | a negative float's text never decodes to the negative float |
| Numbers.MinusOnePointFive | src/data/parsers.rs:288 | `-1.5` decodes as 1.5 |
| Numbers.NumberOfIntended | src/data/parsers.rs:288 | a float is negative exactly when a sign was read |
| Numbers.IntendedFloatRoundTrip | src/data/parsers.rs:279-288 | with the sign applied, every float's text decodes back to the float it displays |
| Dates.FieldAt | src/data/parsers.rs:302-353 | a fixed-width field succeeds exactly when all its characters are digits, with their positional value below 10^n |
| Dates.ReadField | src/data/parsers.rs:302-353 | the reading loop equals `FieldAt` |
| Dates.ReadSame | src/data/parsers.rs:314-315 | a separator fails exactly when the expected character is not there |
| Dates.FourDigitField | src/data/parsers.rs:302-313 | the year is `1000 a + 100 b + 10 c + d` |
| Dates.TwoDigitField | src/data/parsers.rs:316-353 | month, day, hours, minutes and seconds are `10 a + b` |
| Dates.StampFields | src/data/parsers.rs:302-353 | the six fields fit their widths, with zero nanoseconds |
| Dates.ReadStamp | src/data/parsers.rs:301-353 | succeeds exactly on `YYYY-MM-DDTHH:MM:SS` and gives its fields |
| Dates.FractionAt | src/data/parsers.rs:355-372 | a fraction's digit run must be ended by `Z`, `+` or `-` |
| Dates.ReadNanos | src/data/parsers.rs:357-372 | the fraction loop equals `FractionAt`, and stops at the zone character |
| Dates.FractionEnd | src/data/parsers.rs:357-371 | where the digit run stops decides success, and k digits of value v give `v * (10^9 / 10^k)` |
| Dates.FractionNanos | src/data/parsers.rs:358-367 | k ≤ 9 fraction digits give `v * 10^(9-k)` nanoseconds, and more give 0 |
| Dates.ZoneMinutes | src/data/parsers.rs:380-397 | hours, then either the end or `:` and minutes that end the text |
| Dates.OffsetAt | src/data/parsers.rs:374-399 | `Z` must be last and gives 0, and only `-` makes the offset negative |
| Dates.ReadOffset | src/data/parsers.rs:374-399 | the zone code equals `OffsetAt` |
| Dates.UtcZone | src/data/parsers.rs:374-377 | `Z` at the end is offset 0 |
| Dates.NumericZone | src/data/parsers.rs:378-398 | `±HH:MM` is `±(HH*60+MM)*60` seconds |
| Dates.SignedMinutes | src/data/parsers.rs:398 | m minutes are m * 60 seconds, negated only after `-` |
| Dates.AnySignIsPlus | src/data/parsers.rs:379 | without a fraction, any zone character other than `Z` and `-` reads as `+` |
| Dates.DecodeDate | src/data/parsers.rs:292-407 | its only error is "Unexpected character"; a success has the stamp's fields, and is UTC or has a non-zero offset |
| Dates.PlusZeroIsUtc | src/data/parsers.rs:401-403 | a stamp with `+00:00` reads as the UTC variant |
| Dates.DateOf | src/data/parsers.rs:292-408 | its only error is "Unexpected character" |
| Dates.ParseDate | src/data/parsers.rs:292-408 | the method's result equals `DateOf` |
| Dates.StampRoundTrip | src/data/parsers.rs:302-353 | the stamp text of in-range fields decodes to those fields, whatever follows |
| Dates.ZoneOffsetBounds | src/data.rs:58-59 | the written offset keeps the sign and is within a minute of the original, and whole minutes are kept exactly |
| Dates.ZoneRoundTrip | src/data/parsers.rs:374-399 | the zone text decodes to the offset cut to whole minutes |
| Dates.Truncated | src/data.rs:58-59 | what survives display and decoding: the nanoseconds lose less than a millisecond |
| Dates.DateRoundTrip | src/data/parsers.rs:292-408 | decoding the display text of an in-range date (whole-minute offset) gives the date at millisecond precision, with a zero offset read back as UTC |
| RoundTrips.QuotedText | src/data/parsers.rs:191-239 | a quoted text without `"` or backslash reads as one quoted token |
| RoundTrips.StringRoundTrip | src/data.rs:97 | a string without `"` or backslash that is not a date reads back as itself |
| RoundTrips.DateTextQuoteFree | src/data.rs:55-62 | a date's display text holds no quote or backslash |
| RoundTrips.QuotedDate | src/data/parsers.rs:234-237 | a quoted text that decodes as a date reads back as that date |
| RoundTrips.DateValueRoundTrip | src/data.rs:98 | an in-range date reads back truncated |
| RoundTrips.BoolRoundTrip | src/data.rs:80 | both booleans read back as themselves |
| RoundTrips.BareText | src/data/parsers.rs:224-229 | a text with no terminator that starts with no quote or bracket reads as one bare token |
| RoundTrips.BareNumber | src/data/parsers.rs:247-251 | a bare token that decodes as a number, and is not a keyword, reads as that number |
| RoundTrips.IntTextIsBare | src/data.rs:41 | an integer's text is a sign and digits, none of which ends a token |
| RoundTrips.IntValueRoundTrip | src/data.rs:41 | a whole number reads back as itself |
| RoundTrips.NumberValueRoundTrip | src/data.rs:38-47 | whole numbers and the three sentinels read back as themselves |
| RoundTrips.EmptyMapText | src/data/datamap.rs:89-104 | an empty map is written as `{` CRLF, the indentation and `}` |
| RoundTrips.EmptyListText | src/data/datalist.rs:36-49 | an empty list is written as `[` CRLF, the indentation and `]` |
| RoundTrips.EmptyMapNotReadBack | src/data/parsers.rs:71-79 | the text of an empty map does not parse: its `}` is taken for a key |
| RoundTrips.EmptyListNotReadBack | src/data/parsers.rs:154-160 | the text of an empty list does not parse: its `]` is taken for an element |
| RoundTrips.QuoteInStringNotReadBack | src/data/parsers.rs:191-222 | the string `a"b` does not read back: the inner quote ends the token |
| RoundTrips.EscapedQuoteOnly | src/data/parsers.rs:191-222 | a quote, a backslash and a quote read as the quoted token `"`: the escaped quote is kept and the token is never closed |
| RoundTrips.BackslashInStringNotReadBack | src/data/parsers.rs:202-222 | the string made of one backslash does not read back: the backslash escapes the closing quote |
| RoundTrips.QuotedKeyText | src/data/datamap.rs:92-101 | the text of a map whose one key is `a"b` is `{` CRLF, two spaces, `"a"b":true` CRLF and `}` |
| RoundTrips.QuotedKeyThenLetter | src/data/parsers.rs:81-108 | a map text whose first key is the quoted `a`, followed directly by `b`, is rejected |
| RoundTrips.QuoteInKeyNotReadBack | src/data/parsers.rs:81-108 | a map whose key holds `"` does not read back: its text is rejected |
| TreeRoundTrips.QuotedAt | src/data/parsers.rs:191-222 | a quoted text at the cursor is one quoted token, and reading stops after its closing quote |
| TreeRoundTrips.BareAt | src/data/parsers.rs:224-229 | a bare run is classified from its characters, and reading stops right after it |
| TreeRoundTrips.NumberAt | src/data/parsers.rs:247-251 | a whole number's or sentinel's text at the cursor reads back as that number |
| TreeRoundTrips.BoolAt | src/data/parsers.rs:241-244 | a boolean's text at the cursor reads back as that boolean |
| TreeRoundTrips.DateAt | src/data/parsers.rs:234-237 | a quoted in-range date at the cursor reads back truncated |
| TreeRoundTrips.ScalarAt | src/data/parsers.rs:180-255 | a readable scalar's text at the cursor reads back, and reading stops after it |
| TreeRoundTrips.KeyAt | src/data/parsers.rs:71-104 | a quoted key and colon leave the map loop before the value, holding exactly that key |
| TreeRoundTrips.EntryAt | src/data/parsers.rs:71-122 | one entry line stores the value read back under its key, and leaves the loop before the next key or after the last value |
| TreeRoundTrips.ReadBackAll | src/data/parsers.rs:114 | storing every key of an enumeration stores the whole map |
| TreeRoundTrips.EntriesAt | src/data/parsers.rs:52-133 | the remaining entry lines and the closing brace give the whole map read back |
| TreeRoundTrips.MapAt | src/data/parsers.rs:52-133 | a readable map's text, in any entry order, is read back by the map loop and reading stops after its `}` |
| TreeRoundTrips.ReadBackItemsNext | src/data/parsers.rs:158 | pushing the next element read back extends the elements read so far |
| TreeRoundTrips.ItemAt | src/data/parsers.rs:154-166 | one element line pushes the element read back |
| TreeRoundTrips.ItemsAt | src/data/parsers.rs:137-176 | the remaining element lines and the closing bracket give the whole list read back |
| TreeRoundTrips.ListAt | src/data/parsers.rs:137-176 | a readable list's text is read back by the list loop, and reading stops after its `]` |
| TreeRoundTrips.ValueAt | src/data/parsers.rs:34-48 | a readable value's text at the cursor, followed by the end or a terminator, reads back and reading stops after it |
| TreeRoundTrips.TreeRoundTrip | src/data/parsers.rs:22-26 | `parse` of the serialized text of a readable tree, in any entry order, gives the tree back with its dates truncated |

## Left out

- `src/main.rs` is a demonstration driver (clock, console output). It is not part of this model.
- Error messages are modelled as a kind plus the reader's row and column when the message embeds them. The formatted text is not modelled.
- Machine integers are unbounded: `int` and `nat` are used for `i64`, `usize` and `u8`.
  - The `u8` indent counter of `serialize_to_string` is a `nat` and does not wrap past 255 levels.
  - `usize` underflow of the reader's column is modelled as the value -1 (`SerialReaders.BackOverNewline`). Release builds instead wrap to the maximum, which the next `next` call wraps back. Debug builds panic at `self.col -= 1` (src/data/parsers/serialreader.rs:33) whenever `back` follows a `\n`, for example when a bare literal ends at a newline, as in `true\n`; the model does not capture that panic.
- SerialReaders.SerialReader.Back: requires `i > 0`. In the source, `back` at index 0 is an unsigned underflow; no parser path reaches it.
- Numbers.NumberOf: does not model `i64` overflow on digit runs longer than 18 digits, where the source panics or wraps.
- Floats: `f64` arithmetic and `to_float` are not modelled.
  - A `Float` is kept as sign, whole part and fraction digits.
  - `NumberOf` returns those digits where the source returns `int + dec`.
  - Float display (`Data.FloatText`) is the exact decimal written, not the shortest `f64` representation.
  - `TreeRoundTrips.TreeRoundTrip` therefore excludes floats.
- DataMaps.DataMap.PutFloat: takes the float as sign, whole part and fraction digits instead of an `f64`.
- Dates.DecodeDate: no calendar validation. Out-of-range fields (month 13, hour 25) decode to `Ok` here, where chrono's `with_ymd_and_hms(...).unwrap()` panics. `FixedOffset::east_opt` is not checked either.
- Dates.FractionAt: matches the source up to 18 fraction digits, where more than nine digits give 0 nanoseconds (`10^9 / 10^k` is 0). From 19 digits on, the source's `i64` counters `nano` and `nanoorder` overflow; the model keeps giving 0 and does not model that overflow.
- Date display: chrono's `to_rfc3339_opts(Millis, true)` is modelled concretely by `Data.DateText`.
  - The model writes RFC 3339 with a four-digit year, milliseconds and `Z` or `±hh:mm`.
  - Years above 9999, leap-second nanoseconds and sub-minute offsets are outside `Dates.InRange` and are not claimed to match chrono.
- Data.ZoneText: cuts a sub-minute offset down to whole minutes, where chrono rounds it to the nearest minute. `Dates.InRange` admits whole-minute offsets only, so `Dates.DateRoundTrip` and `TreeRoundTrips.TreeRoundTrip` do not depend on this.
- Map iteration order: the order of a `HashMap` is an explicit `Order` parameter. No specific order is modelled.
- Ownership moves (`put_map`, `put_list` take their argument by value) are modelled as copying the argument's contents.
- TreeRoundTrips.TreeRoundTrip: covers readable trees only.
  - Strings holding `"` or a backslash are excluded, because the serializer does not escape them.
  - Strings that decode as dates are excluded, because they read back as dates.
  - `Null` and `None` are excluded, because they are written as `null`, which reads back as a string (`Grammar.NullReadsAsString`).
  - Empty maps and lists are excluded, because they do not parse back (`RoundTrips.EmptyMapNotReadBack`, `RoundTrips.EmptyListNotReadBack`).
- `Null` and `None` are written as `null` (src/data.rs:83,101). The parser's null word is `mull` (src/data/parsers.rs:245). So `Null` does not read back (`Grammar.NullReadsAsString`).

## Findings

| source | as written | input that shows it | evidently intended | confidence | as-written member | corrected member |
|---|---|---|---|---|---|---|
| src/data/datamap.rs:26 | `new_with` advances `i` by 1, so every element but the last becomes a key | `["a", "1", "b", "2"]` gives three entries, including `"1"` ↦ `"b"` | advance by 2, so only the elements at even positions are keys | high, not executed | DataMaps.NewWithOverlapsPairs | DataMaps.KeyValuePairsContents |
| src/data/parsers.rs:288 | the point branch returns `int + dec` without applying the sign it read | `-1.5` decodes as 1.5 | negate the float when a `-` was read, as the whole-number branch does at line 277 | high, not executed | Numbers.MinusOnePointFive | Numbers.IntendedFloatRoundTrip |

The parser methods model the code as written. The corrected members stand
beside them: `DataMaps.DataMap.NewWithIntended` and `Numbers.NumberOfIntended`.
