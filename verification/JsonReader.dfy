/** A reader of JSON, by the grammar of RFC 8259 less white space and fractional numbers; and that canonical text reads
    back as the value it was written for. */
module JsonReader {
  import opened Wrappers
  import opened Decimals
  import opened Hex
  import opened StringOrder
  import opened CanonicalJson
  import opened CanonicalProofs
  import opened CanonicalMeaning

  // ---- strings ----

  /** The value of a hexadecimal digit, small or capital. */
  function JsonHex(c: char): Option<nat> {
    if '0' <= c <= '9' then Some((c as int) - 48)
    else if 'a' <= c <= 'f' then Some((c as int) - 87)
    else if 'A' <= c <= 'F' then Some((c as int) - 55)
    else None
  }

  /** The character four hexadecimal digits stand for; halves of a surrogate pair are not read. */
  function FromCode(s: string): Option<char>
    requires |s| == 4
  {
    var a, b, c, d := JsonHex(s[0]), JsonHex(s[1]), JsonHex(s[2]), JsonHex(s[3]);
    if a.None? || b.None? || c.None? || d.None? then None
    else
      var n := 4096 * a.value + 256 * b.value + 16 * c.value + d.value;
      if n < 0xD800 || 0xE000 <= n < 0x1_0000 then Some(n as char) else None
  }

  /** The character a letter after a backslash stands for. */
  function Unescape(c: char): Option<char> {
    match c
    case '"' => Some('"')
    case '\\' => Some('\\')
    case '/' => Some('/')
    case 'b' => Some(8 as char)
    case 'f' => Some(12 as char)
    case 'n' => Some(10 as char)
    case 'r' => Some(13 as char)
    case 't' => Some(9 as char)
    case _ => None
  }

  function Prepend(c: char, r: Option<(string, string)>): (q: Option<(string, string)>)
    ensures q.Some? <==> r.Some?
    ensures r.Some? ==> q.value.1 == r.value.1
  {
    if r.None? then None else Some(([c] + r.value.0, r.value.1))
  }

  /** A string from behind its opening quote, and what follows its closing one. */
  function ReadString(s: string): (r: Option<(string, string)>)
    ensures r.Some? ==> |r.value.1| < |s|
    decreases |s|
  {
    if s == "" || s[0] < ' ' then None
    else if s[0] == '"' then Some(("", s[1..]))
    else if s[0] != '\\' then Prepend(s[0], ReadString(s[1..]))
    else if |s| < 2 then None
    else if s[1] != 'u' then
      var c := Unescape(s[1]);
      if c.None? then None else Prepend(c.value, ReadString(s[2..]))
    else if |s| < 6 then None
    else
      var c := FromCode(s[2..6]);
      if c.None? then None else Prepend(c.value, ReadString(s[6..]))
  }

  // ---- numbers ----

  /** A natural number without leading zeros, and what follows its digits. */
  function ReadNatural(s: string): (r: Option<(nat, string)>)
    ensures r.Some? ==> |r.value.1| < |s|
  {
    var run := DigitRun(s);
    if run == 0 || (run > 1 && s[0] == '0') then None else Some((Number(s[..run]), s[run..]))
  }

  /** An integer of 64 bits, signed or unsigned; a number with a fraction or an exponent is not read. */
  function ReadNumber(s: string): (r: Option<(Json, string)>)
    ensures r.Some? ==> |r.value.1| < |s|
  {
    var negative := s != "" && s[0] == '-';
    var digits := ReadNatural(if negative then s[1..] else s);
    if digits.None? then None
    else
      var magnitude: int, rest := digits.value.0, digits.value.1;
      var n := if negative then -magnitude else magnitude;
      if rest != "" && rest[0] in {'.', 'e', 'E'} then None
      else if -0x8000_0000_0000_0000 <= n < 0x1_0000_0000_0000_0000 then Some((Json.Scalar(Integer(n)), rest))
      else None
  }

  // ---- values ----

  predicate Begins(s: string, word: string) {
    |word| <= |s| && s[..|word|] == word
  }

  /** A value, and what follows it. */
  function ReadValue(s: string): (r: Option<(Json, string)>)
    ensures r.Some? ==> |r.value.1| < |s|
    decreases |s|, 0
  {
    if s == "" then None
    else if Begins(s, "null") then Some((Json.Scalar(Null), s[4..]))
    else if Begins(s, "true") then Some((Json.Scalar(Bool(true)), s[4..]))
    else if Begins(s, "false") then Some((Json.Scalar(Bool(false)), s[5..]))
    else if s[0] == '"' then
      var text := ReadString(s[1..]);
      if text.None? then None else Some((Json.Scalar(Text(text.value.0)), text.value.1))
    else if s[0] == '[' then
      if Begins(s[1..], "]") then Some((Array([]), s[2..]))
      else
        var items := ReadItems(s[1..]);
        if items.None? then None else Some((Array(items.value.0), items.value.1))
    else if s[0] == '{' then
      if Begins(s[1..], "}") then Some((Object(map[]), s[2..]))
      else
        var members := ReadMembers(s[1..]);
        if members.None? then None else Some((Object(members.value.0), members.value.1))
    else ReadNumber(s)
  }

  /** Items with commas between them, up to the closing bracket. */
  function ReadItems(s: string): (r: Option<(seq<Json>, string)>)
    ensures r.Some? ==> |r.value.1| < |s|
    decreases |s|, 1
  {
    var first := ReadValue(s);
    if first.None? || first.value.1 == "" then None
    else
      var v, rest := first.value.0, first.value.1;
      if rest[0] == ']' then Some(([v], rest[1..]))
      else if rest[0] == ',' then
        var more := ReadItems(rest[1..]);
        if more.None? then None else Some(([v] + more.value.0, more.value.1))
      else None
  }

  /** Members with commas between them, up to the closing brace; of two with one key the later stays. */
  function ReadMembers(s: string): (r: Option<(map<string, Json>, string)>)
    ensures r.Some? ==> |r.value.1| < |s|
    decreases |s|, 1
  {
    var key := if s != "" && s[0] == '"' then ReadString(s[1..]) else None;
    if key.None? || key.value.1 == "" || key.value.1[0] != ':' then None
    else
      var first := ReadValue(key.value.1[1..]);
      if first.None? || first.value.1 == "" then None
      else
        var k, v, rest := key.value.0, first.value.0, first.value.1;
        if rest[0] == '}' then Some((map[k := v], rest[1..]))
        else if rest[0] == ',' then
          var more := ReadMembers(rest[1..]);
          if more.None? then None
          else Some((if k in more.value.0 then more.value.0 else more.value.0[k := v], more.value.1))
        else None
  }

  /** A whole text. */
  function ReadJson(s: string): Option<Json> {
    var r := ReadValue(s);
    if r.Some? && r.value.1 == "" then Some(r.value.0) else None
  }

  // ---- strings read back ----

  lemma HexDigitReads(n: nat)
    requires n < 16
    ensures JsonHex(HexDigit(n)) == Some(n)
  {
  }

  lemma CodeReads(c: char)
    requires c < ' '
    ensures FromCode("00" + HexByte(c as int)) == Some(c)
  {
    HexDigitReads(c as int / 16);
    HexDigitReads(c as int % 16);
    assert JsonHex('0') == Some(0);
    assert c as int / 16 * 16 + c as int % 16 == c as int;
  }

  lemma EscapeReads(c: char, t: string)
    ensures ReadString(Escape(c) + t) == Prepend(c, ReadString(t))
  {
    var s := Escape(c) + t;
    if Letter(c).Some? {
      assert s[2..] == t;
    } else if c < ' ' {
      CodeReads(c);
      assert s[2..6] == "00" + HexByte(c as int) && s[6..] == t;
    } else {
      assert s[1..] == t;
    }
  }

  /** A quoted string reads back, whatever follows it. */
  lemma {:induction false} EscapedReads(s: string, r: string)
    ensures ReadString(Escaped(s) + ("\"" + r)) == Some((s, r))
  {
    if s == "" {
      assert Escaped(s) + ("\"" + r) == "\"" + r && ("\"" + r)[1..] == r;
    } else {
      Assoc(Escape(s[0]), Escaped(s[1..]), "\"" + r);
      EscapeReads(s[0], Escaped(s[1..]) + ("\"" + r));
      EscapedReads(s[1..], r);
      assert [s[0]] + s[1..] == s;
    }
  }

  lemma QuoteReads(s: string, r: string)
    ensures var q := Quote(s) + r; q[0] == '"' && ReadString(q[1..]) == Some((s, r))
  {
    QuoteSplit(s, r);
    EscapedReads(s, r);
    assert (Quote(s) + r)[1..] == Escaped(s) + ("\"" + r);
  }

  // ---- numbers read back ----

  lemma {:induction false} DecimalLeads(n: nat)
    ensures |Decimal(n)| > 1 ==> Decimal(n)[0] != '0'
  {
    if n >= 10 {
      DecimalLeads(n / 10);
      assert Decimal(n)[0] == Decimal(n / 10)[0];
    }
  }

  lemma NaturalReads(n: nat, r: string)
    requires Closes(r)
    ensures ReadNatural(Decimal(n) + r) == Some((n, r))
  {
    DecimalLeads(n);
    RunEnds(Decimal(n), r);
    NumberOfDecimal(n);
    assert (Decimal(n) + r)[..|Decimal(n)|] == Decimal(n) && (Decimal(n) + r)[|Decimal(n)|..] == r;
  }

  lemma NegativeReads(magnitude: nat, r: string)
    requires Closes(r) && 0 < magnitude <= 0x8000_0000_0000_0000
    ensures ReadNumber("-" + Decimal(magnitude) + r) == Some((Json.Scalar(Integer(0 - magnitude)), r))
  {
    var s := "-" + Decimal(magnitude) + r;
    NaturalReads(magnitude, r);
    assert s[1..] == Decimal(magnitude) + r;
    NumberReads(s, true, magnitude, r);
  }

  lemma PositiveReads(magnitude: nat, r: string)
    requires Closes(r) && magnitude < 0x1_0000_0000_0000_0000
    ensures ReadNumber(Decimal(magnitude) + r) == Some((Json.Scalar(Integer(magnitude)), r))
  {
    NaturalReads(magnitude, r);
    assert IsDigit(Decimal(magnitude)[0]);
    NumberReads(Decimal(magnitude) + r, false, magnitude, r);
  }

  lemma IntegerReads(n: Integer64, r: string)
    requires Closes(r)
    ensures ReadNumber(IntegerText(n) + r) == Some((Json.Scalar(Integer(n)), r))
  {
    if n < 0 {
      NegativeReads(-n, r);
    } else {
      PositiveReads(n, r);
    }
  }

  lemma NumberReads(s: string, negative: bool, magnitude: nat, r: string)
    requires Closes(r) && s != "" && (negative <==> s[0] == '-')
    requires ReadNatural(if negative then s[1..] else s) == Some((magnitude, r))
    requires var n: int := magnitude; -0x8000_0000_0000_0000 <= (if negative then -n else n) < 0x1_0000_0000_0000_0000
    ensures var n: int := magnitude;
            ReadNumber(s) == Some((Json.Scalar(Integer(if negative then -n else n)), r))
  {
  }

  lemma WordReads(word: string, r: string)
    ensures Begins(word + r, word) && (word + r)[|word|..] == r
  {
  }

  lemma OtherStart(s: string, word: string)
    requires s != "" && word != "" && s[0] != word[0]
    ensures !Begins(s, word)
  {
    if |word| <= |s| {
      assert s[..|word|][0] == s[0];
    }
  }

  lemma IntegerIsNoWord(n: Integer64, r: string)
    ensures var s := IntegerText(n) + r;
            s != "" && (s[0] == '-' || IsDigit(s[0]))
            && !Begins(s, "null") && !Begins(s, "true") && !Begins(s, "false")
  {
    var s := IntegerText(n) + r;
    assert s[0] == IntegerText(n)[0];
    if n >= 0 {
      assert IsDigit(Decimal(n)[0]);
    }
    OtherStart(s, "null");
    OtherStart(s, "true");
    OtherStart(s, "false");
  }

  lemma OtherIsNoWord(s: string)
    requires s != "" && s[0] in {'"', '[', '{'}
    ensures !Begins(s, "null") && !Begins(s, "true") && !Begins(s, "false")
  {
    OtherStart(s, "null");
    OtherStart(s, "true");
    OtherStart(s, "false");
  }

  lemma ScalarReads(v: Scalar, r: string)
    requires !v.Float? && Closes(r)
    ensures ReadValue(ScalarText(v) + r) == Some((Json.Scalar(v), r))
  {
    var s := ScalarText(v) + r;
    match v
    case Null => WordReads("null", r);
    case Bool(b) =>
      WordReads("true", r);
      WordReads("false", r);
      assert !b ==> s[..4][0] == 'f';
      assert b ==> s[..4][0] == 't';
    case Integer(n) =>
      IntegerReads(n, r);
      IntegerIsNoWord(n, r);
    case Text(t) =>
      QuoteReads(t, r);
      OtherIsNoWord(s);
  }

  // ---- values read back ----

  /** Every value without floating-point numbers reads back from its text, whatever may follow it in an array or object. */
  lemma {:induction false} ValueReads(v: Json, r: string)
    requires FloatFree(v) && Closes(r)
    ensures ReadValue(Encode(v) + r) == Some((v, r))
    decreases v, 1
  {
    match v
    case Scalar(s) => ScalarReads(s, r);
    case Array(items) => ArrayReads(v, r);
    case Object(fields) => ObjectReads(v, r);
  }

  lemma {:induction false} ArrayReads(v: Json, r: string)
    requires v.Array? && FloatFree(v)
    ensures ReadValue(Encode(v) + r) == Some((v, r))
    decreases v, 0
  {
    var inside := ItemsText(v.items);
    var s := Encode(v) + r;
    BracketSplit("[", inside, "]", r);
    OtherIsNoWord(s);
    assert s[1..] == inside + ("]" + r);
    if v.items == [] {
      assert inside + ("]" + r) == "]" + r && s[2..] == r;
    } else {
      ItemsStart(v.items, "]" + r);
      ItemsRead(v.items, r);
    }
  }

  lemma {:induction false} ItemsRead(items: seq<Json>, r: string)
    requires items != [] && NoFloats(items)
    ensures ReadItems(ItemsText(items) + ("]" + r)) == Some((items, r))
    decreases items
  {
    var q := "]" + r;
    ItemsSplit(items, q);
    ValueReads(items[0], AfterItem(items, q));
    if |items| == 1 {
      assert [items[0]] == items && q[1..] == r;
    } else {
      ItemsRead(items[1..], r);
      assert AfterItem(items, q)[1..] == ItemsText(items[1..]) + q;
      assert [items[0]] + items[1..] == items;
    }
  }

  /** The fields of an object that are among some keys. */
  function Among(v: Json, keys: seq<string>): (m: map<string, Json>)
    requires AllIn(keys, v)
    ensures forall k :: k in m <==> k in keys
    ensures forall k :: k in m ==> m[k] == v.fields[k]
  {
    map k | k in keys :: v.fields[k]
  }

  /** One member, its value known to read, and on with what follows. */
  lemma MemberReads(k: string, e: string, v: Json, after: string)
    requires ReadValue(e + after) == Some((v, after)) && after != ""
    ensures ReadMembers(Quote(k) + (":" + (e + after)))
         == if after[0] == '}' then Some((map[k := v], after[1..]))
            else if after[0] == ',' && ReadMembers(after[1..]).Some?
            then var (m, rest) := ReadMembers(after[1..]).value; Some((if k in m then m else m[k := v], rest))
            else None
  {
    QuoteReads(k, ":" + (e + after));
    assert (":" + (e + after))[1..] == e + after;
  }

  /** The first of some members, its value known to read. */
  predicate FirstReads(v: Json, keys: seq<string>, r: string)
    requires keys != [] && AllIn(keys, v)
  {
    var w, after := v.fields[keys[0]], AfterField(v, keys, "}" + r);
    ReadValue(Encode(w) + after) == Some((w, after))
  }

  lemma OneMember(v: Json, keys: seq<string>)
    requires |keys| == 1 && AllIn(keys, v)
    ensures Among(v, keys) == map[keys[0] := v.fields[keys[0]]]
  {
  }

  lemma LastMember(v: Json, keys: seq<string>, r: string)
    requires |keys| == 1 && AllIn(keys, v) && FirstReads(v, keys, r)
    ensures ReadMembers(FieldsText(v, keys) + ("}" + r)) == Some((Among(v, keys), r))
  {
    var q, w := "}" + r, v.fields[keys[0]];
    FieldsSplit(v, keys, q);
    MemberReads(keys[0], Encode(w), w, q);
    OneMember(v, keys);
    assert q[1..] == r;
  }

  lemma MoreMembers(v: Json, keys: seq<string>, r: string)
    requires |keys| > 1 && AllIn(keys, v) && FirstReads(v, keys, r)
    requires ReadMembers(FieldsText(v, keys[1..]) + ("}" + r)) == Some((Among(v, keys[1..]), r))
    ensures ReadMembers(FieldsText(v, keys) + ("}" + r)) == Some((Among(v, keys), r))
  {
    var q, w := "}" + r, v.fields[keys[0]];
    var after := AfterField(v, keys, q);
    FieldsSplit(v, keys, q);
    MemberReads(keys[0], Encode(w), w, after);
    assert after[1..] == FieldsText(v, keys[1..]) + q;
    OneMoreMember(v, keys);
  }

  lemma {:induction false} MembersRead(v: Json, keys: seq<string>, r: string)
    requires keys != [] && AllIn(keys, v) && FloatFree(v)
    ensures ReadMembers(FieldsText(v, keys) + ("}" + r)) == Some((Among(v, keys), r))
    decreases v, 0, |keys|
  {
    ValueReads(v.fields[keys[0]], AfterField(v, keys, "}" + r));
    if |keys| == 1 {
      LastMember(v, keys, r);
    } else {
      MembersRead(v, keys[1..], r);
      MoreMembers(v, keys, r);
    }
  }

  lemma OneMoreMember(v: Json, keys: seq<string>)
    requires keys != [] && AllIn(keys, v)
    ensures var rest := Among(v, keys[1..]);
            Among(v, keys) == if keys[0] in rest then rest else rest[keys[0] := v.fields[keys[0]]]
  {
    assert forall k :: k in keys <==> k == keys[0] || k in keys[1..];
  }

  lemma {:induction false} ObjectReads(v: Json, r: string)
    requires v.Object? && FloatFree(v)
    ensures ReadValue(Encode(v) + r) == Some((v, r))
    decreases v, 0
  {
    var keys := SortedKeys(v.fields.Keys);
    var inside, s := FieldsText(v, keys), Encode(v) + r;
    BracketSplit("{", inside, "}", r);
    OtherIsNoWord(s);
    assert s[1..] == inside + ("}" + r);
    if keys == [] {
      assert inside + ("}" + r) == "}" + r && s[2..] == r;
      assert forall k :: k in v.fields ==> k in keys;
      assert v.fields == map[];
    } else {
      FieldsSplit(v, keys, "}" + r);
      assert s[1] == '"';
      MembersRead(v, keys, r);
      assert Among(v, keys) == v.fields;
    }
  }

  /** Canonical text reads back: as JSON, it says the value it was written for. */
  lemma ReadsBack(v: Json)
    requires FloatFree(v)
    ensures ReadJson(Encode(v)) == Some(v)
  {
    ValueReads(v, "");
    assert Encode(v) + "" == Encode(v);
  }

  // ---- what a document means ----

  predicate LastOfItsKey(fields: seq<Field>, i: nat)
    requires i < |fields|
  {
    forall j :: i < j < |fields| ==> fields[j].key != fields[i].key
  }

  /** The value has the document's scalars, its lists item by item, and its fields by name, the last of each name. */
  ghost predicate Means(d: Document, v: Json) {
    match d
    case Plain(s) => v == Json.Scalar(s)
    case List(items) => v.Array? && |v.items| == |items| && forall i :: 0 <= i < |items| ==> Means(items[i], v.items[i])
    case Record(fields) =>
      && v.Object? && (forall k :: k in v.fields <==> HasKey(fields, k))
      && forall i :: 0 <= i < |fields| && LastOfItsKey(fields, i) ==>
           fields[i].key in v.fields && Means(fields[i].value, v.fields[fields[i].key])
  }

  lemma {:induction false} LastStays(fields: seq<Field>, i: nat)
    requires i < |fields| && LastOfItsKey(fields, i)
    ensures fields[i].key in ToFields(fields) && ToFields(fields)[fields[i].key] == ToValue(fields[i].value)
    decreases |fields|
  {
    var n := |fields| - 1;
    if i < n {
      assert fields[n].key != fields[i].key;
      assert forall j :: 0 <= j < n ==> fields[..n][j] == fields[j];
      LastStays(fields[..n], i);
    }
  }

  lemma {:induction false} ValueMeans(d: Document)
    ensures Means(d, ToValue(d))
  {
    match d
    case Plain(s) =>
    case List(items) =>
      forall i | 0 <= i < |items| ensures Means(items[i], ToValues(items)[i]) {
        ValuesAt(items, i);
        ValueMeans(items[i]);
      }
    case Record(fields) =>
      forall k ensures k in ToFields(fields) <==> HasKey(fields, k) {
        FieldKeys(fields, k);
      }
      forall i | 0 <= i < |fields| && LastOfItsKey(fields, i)
        ensures fields[i].key in ToFields(fields) && Means(fields[i].value, ToFields(fields)[fields[i].key])
      {
        LastStays(fields, i);
        ValueMeans(fields[i].value);
      }
  }

  /** What is signed says what was handed in: the canonical text of a document reads as a value the document means. */
  lemma CanonicalSays(d: Document)
    requires Canonical(d).Ok?
    ensures ReadJson(Canonical(d).value).Some? && Means(d, ReadJson(Canonical(d).value).value)
  {
    RefusedExactly(ToValue(d), "");
    ReadsBack(ToValue(d));
    ValueMeans(d);
  }
}
