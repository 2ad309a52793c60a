/** The one encoding signatures are computed over: JSON with sorted keys, no spaces and no floating-point numbers.

    The result is given as characters; the bytes that are signed are their UTF-8 encoding, which is one to one. */
module CanonicalJson {
  import opened Wrappers
  import opened Decimals
  import opened Hex
  import opened StringOrder

  /** The integers a JSON value holds: those of a signed or an unsigned 64-bit word. */
  type Integer64 = n: int | -0x8000_0000_0000_0000 <= n < 0x1_0000_0000_0000_0000

  /** A number that is neither is a floating-point one; its digits do not matter here. */
  datatype Scalar = Null | Bool(b: bool) | Integer(n: Integer64) | Float(digits: string) | Text(s: string)

  /** A JSON value: an object is a map, walked in the order of its keys. */
  datatype Json = Scalar(scalar: Scalar) | Array(items: seq<Json>) | Object(fields: map<string, Json>)

  /** What is handed in: a structure whose fields come in the order of its declaration. */
  datatype Document = Plain(scalar: Scalar) | List(items: seq<Document>) | Record(fields: seq<Field>)
  datatype Field = Field(key: string, value: Document)

  /** The value a document serializes to. */
  function ToValue(d: Document): Json
    decreases d
  {
    match d
    case Plain(s) => Json.Scalar(s)
    case List(items) => Array(ToValues(items))
    case Record(fields) => Object(ToFields(fields))
  }

  function ToValues(items: seq<Document>): (vs: seq<Json>)
    ensures |vs| == |items|
    decreases items
  {
    if items == [] then [] else [ToValue(items[0])] + ToValues(items[1..])
  }

  /** Fields are inserted one by one; a key given twice keeps its last value. */
  function ToFields(fields: seq<Field>): map<string, Json>
    decreases fields
  {
    if fields == [] then map[]
    else
      var last := fields[|fields| - 1];
      ToFields(fields[..|fields| - 1])[last.key := ToValue(last.value)]
  }

  // ---- the refusal of floating-point numbers ----

  /** The path of the first floating-point number, walking arrays by index and objects by key. */
  function RejectFloats(v: Json, path: string): Option<string>
    decreases v, 1
  {
    match v
    case Scalar(s) => if s.Float? then Some(if path == "" then "<root>" else path) else None
    case Array(items) => RejectItems(items, path, 0)
    case Object(fields) => RejectFields(v, SortedKeys(fields.Keys), path)
  }

  function ItemPath(path: string, index: nat): string {
    path + "[" + Decimal(index) + "]"
  }

  function FieldPath(path: string, key: string): string {
    if path == "" then key else path + "." + key
  }

  function RejectItems(items: seq<Json>, path: string, index: nat): Option<string>
    decreases items
  {
    if items == [] then None
    else
      var first := RejectFloats(items[0], ItemPath(path, index));
      if first.Some? then first else RejectItems(items[1..], path, index + 1)
  }

  function RejectFields(v: Json, keys: seq<string>, path: string): Option<string>
    requires v.Object? && forall k | k in keys :: k in v.fields
    decreases v, 0, |keys|
  {
    if keys == [] then None
    else
      var first := RejectFloats(v.fields[keys[0]], FieldPath(path, keys[0]));
      if first.Some? then first else RejectFields(v, keys[1..], path)
  }

  // ---- the encoding ----

  /** The letter after the backslash, for the characters that have one. */
  function Letter(c: char): Option<char> {
    if c == '"' then Some('"')
    else if c == '\\' then Some('\\')
    else if c as int == 8 then Some('b')
    else if c as int == 9 then Some('t')
    else if c as int == 10 then Some('n')
    else if c as int == 12 then Some('f')
    else if c as int == 13 then Some('r')
    else None
  }

  function Escape(c: char): (s: string)
    ensures |s| > 0
  {
    if Letter(c).Some? then ['\\', Letter(c).value]
    else if c < ' ' then "\\u00" + HexByte(c as int)
    else [c]
  }

  function Escaped(s: string): string {
    if s == "" then "" else Escape(s[0]) + Escaped(s[1..])
  }

  function Quote(s: string): string {
    "\"" + (Escaped(s) + "\"")
  }

  function IntegerText(n: int): string {
    if n < 0 then "-" + Decimal(-n) else Decimal(n)
  }

  function ScalarText(s: Scalar): string {
    match s
    case Null => "null"
    case Bool(b) => if b then "true" else "false"
    case Integer(n) => IntegerText(n)
    case Float(digits) => digits
    case Text(s) => Quote(s)
  }

  function Encode(v: Json): string
    decreases v, 1
  {
    match v
    case Scalar(s) => ScalarText(s)
    case Array(items) => "[" + (ItemsText(items) + "]")
    case Object(fields) => "{" + (FieldsText(v, SortedKeys(fields.Keys)) + "}")
  }

  function ItemsText(items: seq<Json>): string
    decreases items
  {
    if items == [] then ""
    else Encode(items[0]) + (if |items| == 1 then "" else "," + ItemsText(items[1..]))
  }

  function FieldsText(v: Json, keys: seq<string>): string
    requires v.Object? && forall k | k in keys :: k in v.fields
    decreases v, 0, |keys|
  {
    if keys == [] then ""
    else
      Quote(keys[0])
      + (":" + (Encode(v.fields[keys[0]]) + (if |keys| == 1 then "" else "," + FieldsText(v, keys[1..]))))
  }

  /** The canonical text of a document, or the path of a floating-point number in it. */
  function Canonical(d: Document): Result<string, string> {
    var v := ToValue(d);
    match RejectFloats(v, "")
    case Some(path) => Err(path)
    case None => Ok(Encode(v))
  }
}
