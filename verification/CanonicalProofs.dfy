/** Canonical JSON is refused exactly for floating-point numbers, does not depend on the order of fields, and never
    writes two values alike. */
module CanonicalProofs {
  import opened Wrappers
  import opened Decimals
  import opened Hex
  import opened StringOrder
  import opened CanonicalJson

  // ---- refusal ----

  predicate HasFloat(v: Json) {
    match v
    case Scalar(s) => s.Float?
    case Array(items) => exists i :: 0 <= i < |items| && HasFloat(items[i])
    case Object(fields) => exists k :: k in fields && HasFloat(fields[k])
  }

  datatype Step = At(index: nat) | Under(key: string)

  /** Whether following the steps from a value ends at a floating-point number. */
  predicate LeadsToFloat(v: Json, steps: seq<Step>)
    decreases |steps|
  {
    if steps == [] then v.Scalar? && v.scalar.Float?
    else match steps[0]
      case At(i) => v.Array? && i < |v.items| && LeadsToFloat(v.items[i], steps[1..])
      case Under(k) => v.Object? && k in v.fields && LeadsToFloat(v.fields[k], steps[1..])
  }

  /** The dotted path of some steps, on from a path. */
  function PathOf(path: string, steps: seq<Step>): string
    decreases |steps|
  {
    if steps == [] then path
    else match steps[0]
      case At(i) => PathOf(path + "[" + Decimal(i) + "]", steps[1..])
      case Under(k) => PathOf(if path == "" then k else path + "." + k, steps[1..])
  }

  function Shown(path: string): string {
    if path == "" then "<root>" else path
  }

  /** A value is refused exactly when a floating-point number occurs anywhere in it. */
  lemma {:induction false} RefusedExactly(v: Json, path: string)
    ensures RejectFloats(v, path).Some? <==> HasFloat(v)
    decreases v, 1
  {
    match v
    case Scalar(s) =>
    case Array(items) => RefusedItems(items, path, 0);
    case Object(fields) => RefusedFields(v, SortedKeys(fields.Keys), path);
  }

  lemma {:induction false} RefusedItems(items: seq<Json>, path: string, index: nat)
    ensures RejectItems(items, path, index).Some? <==> exists i :: 0 <= i < |items| && HasFloat(items[i])
    decreases items
  {
    if items != [] {
      RefusedExactly(items[0], ItemPath(path, index));
      RefusedItems(items[1..], path, index + 1);
      assert forall i :: 1 <= i < |items| ==> items[i] == items[1..][i - 1];
    }
  }

  lemma {:induction false} RefusedFields(v: Json, keys: seq<string>, path: string)
    requires v.Object? && forall k | k in keys :: k in v.fields
    ensures RejectFields(v, keys, path).Some? <==> exists k :: k in keys && HasFloat(v.fields[k])
    decreases v, 0, |keys|
  {
    if keys != [] {
      RefusedExactly(v.fields[keys[0]], FieldPath(path, keys[0]));
      RefusedFields(v, keys[1..], path);
      assert forall k :: k in keys <==> k == keys[0] || k in keys[1..];
    }
  }

  /** One place comes before another in a walk by index and by key. */
  predicate Earlier(a: seq<Step>, b: seq<Step>)
    decreases |a|
  {
    a != [] && b != []
    && if a[0] == b[0] then Earlier(a[1..], b[1..])
       else match a[0]
         case At(i) => b[0].At? && i < b[0].index
         case Under(k) => b[0].Under? && Less(k, b[0].key)
  }

  lemma {:induction false} LeadsMeansHas(v: Json, steps: seq<Step>)
    requires LeadsToFloat(v, steps)
    ensures HasFloat(v)
    decreases |steps|
  {
    if steps != [] {
      match steps[0]
      case At(i) => LeadsMeansHas(v.items[i], steps[1..]);
      case Under(k) => LeadsMeansHas(v.fields[k], steps[1..]);
    }
  }

  /** No place of a floating-point number comes before this one. */
  ghost predicate FirstFloat(v: Json, steps: seq<Step>) {
    LeadsToFloat(v, steps) && forall other: seq<Step> :: LeadsToFloat(v, other) ==> !Earlier(other, steps)
  }

  lemma FirstInArray(v: Json, i: nat, rest: seq<Step>)
    requires v.Array? && i < |v.items| && FirstFloat(v.items[i], rest)
    requires forall j :: 0 <= j < i ==> !HasFloat(v.items[j])
    ensures FirstFloat(v, [At(i)] + rest)
  {
    var steps := [At(i)] + rest;
    assert steps[1..] == rest;
    forall other: seq<Step> | LeadsToFloat(v, other) ensures !Earlier(other, steps) {
      if other[0].index < i {
        LeadsMeansHas(v.items[other[0].index], other[1..]);
      }
    }
  }

  lemma FirstInObject(v: Json, k: string, rest: seq<Step>)
    requires v.Object? && k in v.fields && FirstFloat(v.fields[k], rest)
    requires forall l :: l in v.fields && Less(l, k) ==> !HasFloat(v.fields[l])
    ensures FirstFloat(v, [Under(k)] + rest)
  {
    var steps := [Under(k)] + rest;
    assert steps[1..] == rest;
    forall other: seq<Step> | LeadsToFloat(v, other) ensures !Earlier(other, steps) {
      if Less(other[0].key, k) {
        LeadsMeansHas(v.fields[other[0].key], other[1..]);
      }
    }
  }

  /** The path a refusal names is that of the first floating-point number, by index and by key. */
  lemma {:induction false} RefusalNamesAFloat(v: Json, path: string) returns (steps: seq<Step>)
    requires RejectFloats(v, path).Some?
    ensures FirstFloat(v, steps) && RejectFloats(v, path) == Some(Shown(PathOf(path, steps)))
    decreases v, 1
  {
    match v
    case Scalar(s) =>
      steps := [];
    case Array(items) =>
      var i, rest := RefusedItem(items, path, 0);
      steps := [At(i)] + rest;
      assert steps[1..] == rest;
      FirstInArray(v, i, rest);
    case Object(fields) =>
      var keys := SortedKeys(fields.Keys);
      var k, rest := RefusedField(v, keys, path);
      steps := [Under(k)] + rest;
      assert steps[1..] == rest;
      FirstInObject(v, k, rest);
  }

  lemma {:induction false} RefusedItem(items: seq<Json>, path: string, index: nat) returns (i: nat, rest: seq<Step>)
    requires RejectItems(items, path, index).Some?
    ensures index <= i < index + |items| && FirstFloat(items[i - index], rest)
    ensures forall j :: 0 <= j < i - index ==> !HasFloat(items[j])
    ensures RejectItems(items, path, index) == Some(Shown(PathOf(ItemPath(path, i), rest)))
    decreases items
  {
    RefusedExactly(items[0], ItemPath(path, index));
    if RejectFloats(items[0], ItemPath(path, index)).Some? {
      i := index;
      rest := RefusalNamesAFloat(items[0], ItemPath(path, index));
    } else {
      i, rest := RefusedItem(items[1..], path, index + 1);
      assert forall j :: 1 <= j < i - index ==> items[j] == items[1..][j - 1];
    }
  }

  lemma {:induction false} RefusedField(v: Json, keys: seq<string>, path: string) returns (k: string, rest: seq<Step>)
    requires v.Object? && forall k | k in keys :: k in v.fields
    requires Sorted(keys) && RejectFields(v, keys, path).Some?
    ensures k in keys && FirstFloat(v.fields[k], rest)
    ensures forall l :: l in keys && Less(l, k) ==> !HasFloat(v.fields[l])
    ensures RejectFields(v, keys, path) == Some(Shown(PathOf(FieldPath(path, k), rest)))
    decreases v, 0, |keys|
  {
    RefusedExactly(v.fields[keys[0]], FieldPath(path, keys[0]));
    if RejectFloats(v.fields[keys[0]], FieldPath(path, keys[0])).Some? {
      k := keys[0];
      rest := RefusalNamesAFloat(v.fields[k], FieldPath(path, k));
      forall l | l in keys ensures !Less(l, k) {
        LeastFirst(keys, l);
      }
    } else {
      k, rest := RefusedField(v, keys[1..], path);
      assert forall l :: l in keys <==> l == keys[0] || l in keys[1..];
    }
  }

  lemma LeastFirst(keys: seq<string>, l: string)
    requires Sorted(keys) && l in keys
    ensures !Less(l, keys[0])
  {
    var i :| 0 <= i < |keys| && keys[i] == l;
    if i == 0 {
      LessIrreflexive(l);
    } else {
      LessAsymmetric(keys[0], l);
    }
  }

  // ---- strings ----

  lemma EscapeStarts(c: char)
    ensures Escape(c)[0] != '"'
    ensures Escape(c)[0] == '\\' <==> |Escape(c)| > 1
    ensures |Escape(c)| > 1 ==> (Escape(c)[1] == 'u' <==> |Escape(c)| == 6)
  {
  }

  lemma SameEscape(a: char, b: char)
    requires Escape(a) == Escape(b)
    ensures a == b
  {
    EscapeStarts(a);
    EscapeStarts(b);
    if |Escape(a)| == 6 {
      assert Escape(a)[4..] == HexByte(a as int) && Escape(b)[4..] == HexByte(b as int);
      HexByteInjective(a as int, b as int);
    } else if |Escape(a)| == 2 {
      assert Escape(a)[1] == Escape(b)[1];
    } else {
      assert Escape(a)[0] == Escape(b)[0];
    }
  }

  lemma EscapeUnambiguous(a: char, b: char, r: string, t: string)
    requires Escape(a) + r == Escape(b) + t
    ensures a == b && r == t
  {
    EscapeStarts(a);
    EscapeStarts(b);
    var x := Escape(a) + r;
    assert x[0] == Escape(a)[0] == Escape(b)[0];
    assert |Escape(a)| > 1 ==> x[1] == Escape(a)[1] == Escape(b)[1];
    EscapeLengths(a);
    EscapeLengths(b);
    SameLengthSplit(Escape(a), Escape(b), r, t);
    SameEscape(a, b);
  }

  lemma EscapeLengths(c: char)
    ensures |Escape(c)| in {1, 2, 6}
  {
  }

  lemma SameLengthSplit(a: string, b: string, r: string, t: string)
    requires a + r == b + t && |a| == |b|
    ensures a == b && r == t
  {
    assert a == (a + r)[..|a|] && b == (b + t)[..|b|];
    assert r == (a + r)[|a|..] && t == (b + t)[|b|..];
  }

  lemma Assoc(a: string, b: string, c: string)
    ensures (a + b) + c == a + (b + c)
  {
  }

  predicate StartsWith(q: string, c: char) {
    q != "" && q[0] == c
  }

  lemma EscapedStarts(s: string, q: string)
    requires StartsWith(q, '"')
    ensures StartsWith(Escaped(s) + q, '"') <==> s == ""
  {
    if s != "" {
      EscapeStarts(s[0]);
    }
  }

  /** A quoted string ends where its closing quote does, whatever follows. */
  lemma {:induction false} EscapedUnambiguous(a: string, b: string, q: string, p: string)
    requires StartsWith(q, '"') && StartsWith(p, '"')
    requires Escaped(a) + q == Escaped(b) + p
    ensures a == b && q == p
  {
    EscapedStarts(a, q);
    EscapedStarts(b, p);
    if a == "" {
      assert Escaped(a) + q == q && Escaped(b) + p == p;
    } else {
      Assoc(Escape(a[0]), Escaped(a[1..]), q);
      Assoc(Escape(b[0]), Escaped(b[1..]), p);
      EscapeUnambiguous(a[0], b[0], Escaped(a[1..]) + q, Escaped(b[1..]) + p);
      EscapedUnambiguous(a[1..], b[1..], q, p);
      assert a == [a[0]] + a[1..] && b == [b[0]] + b[1..];
    }
  }

  lemma QuoteSplit(s: string, r: string)
    ensures Quote(s) + r == "\"" + (Escaped(s) + ("\"" + r))
  {
    Assoc("\"", Escaped(s) + "\"", r);
    Assoc(Escaped(s), "\"", r);
  }

  lemma QuoteUnambiguous(a: string, b: string, r: string, t: string)
    requires Quote(a) + r == Quote(b) + t
    ensures a == b && r == t
  {
    QuoteSplit(a, r);
    QuoteSplit(b, t);
    SameLengthSplit("\"", "\"", Escaped(a) + ("\"" + r), Escaped(b) + ("\"" + t));
    EscapedUnambiguous(a, b, "\"" + r, "\"" + t);
    SameLengthSplit("\"", "\"", r, t);
  }

  // ---- scalars ----

  /** What may follow a value: nothing, or the end or the next member of what holds it. */
  predicate Closes(r: string) {
    r == "" || r[0] in {',', ']', '}'}
  }

  lemma DigitsRunOn(a: string, b: string, r: string, t: string)
    requires AllDigits(b) && a + r == b + t && |a| < |b|
    ensures !Closes(r)
  {
    assert r != "" && r[0] == (b + t)[|a|] == b[|a|];
  }

  lemma DigitsUnambiguous(a: string, b: string, r: string, t: string)
    requires AllDigits(a) && AllDigits(b) && Closes(r) && Closes(t)
    requires a + r == b + t
    ensures a == b && r == t
  {
    if |a| < |b| {
      DigitsRunOn(a, b, r, t);
    } else if |b| < |a| {
      DigitsRunOn(b, a, t, r);
    } else {
      SameLengthSplit(a, b, r, t);
    }
  }

  lemma NaturalsUnambiguous(a: nat, b: nat, r: string, t: string)
    requires Closes(r) && Closes(t) && Decimal(a) + r == Decimal(b) + t
    ensures a == b && r == t
  {
    DigitsUnambiguous(Decimal(a), Decimal(b), r, t);
    DecimalInjective(a, b);
  }

  lemma SignFirst(n: int, r: string)
    ensures StartsWith(IntegerText(n) + r, '-') <==> n < 0
  {
    if n >= 0 {
      assert IsDigit(Decimal(n)[0]);
    }
  }

  lemma IntegersUnambiguous(a: int, b: int, r: string, t: string)
    requires Closes(r) && Closes(t) && IntegerText(a) + r == IntegerText(b) + t
    ensures a == b && r == t
  {
    SignFirst(a, r);
    SignFirst(b, t);
    if a < 0 {
      Assoc("-", Decimal(-a), r);
      Assoc("-", Decimal(-b), t);
      SameLengthSplit("-", "-", Decimal(-a) + r, Decimal(-b) + t);
      NaturalsUnambiguous(-a, -b, r, t);
    } else {
      NaturalsUnambiguous(a, b, r, t);
    }
  }

  /** The kinds of value, told apart by their first character. */
  function Kind(v: Json): nat {
    match v
    case Scalar(Null) => 0
    case Scalar(Bool(b)) => if b then 1 else 2
    case Scalar(Integer(n)) => 3
    case Scalar(Float(d)) => 4
    case Scalar(Text(s)) => 5
    case Array(items) => 6
    case Object(fields) => 7
  }

  function KindOf(c: char): nat {
    if c == 'n' then 0 else if c == 't' then 1 else if c == 'f' then 2
    else if c == '"' then 5 else if c == '[' then 6 else if c == '{' then 7 else 3
  }

  predicate FloatFree(v: Json) {
    !HasFloat(v)
  }

  lemma FirstCharacter(v: Json)
    requires FloatFree(v)
    ensures Encode(v) != "" && KindOf(Encode(v)[0]) == Kind(v)
    ensures Encode(v)[0] !in {',', ']', '}'}
  {
  }

  lemma SameKind(v: Json, w: Json, r: string, t: string)
    requires FloatFree(v) && FloatFree(w) && Encode(v) + r == Encode(w) + t
    ensures Kind(v) == Kind(w)
  {
    FirstCharacter(v);
    FirstCharacter(w);
    assert (Encode(v) + r)[0] == Encode(v)[0] && (Encode(w) + t)[0] == Encode(w)[0];
  }

  lemma ScalarsUnambiguous(v: Json, w: Json, r: string, t: string)
    requires v.Scalar? && w.Scalar? && Kind(v) == Kind(w) && FloatFree(v)
    requires Closes(r) && Closes(t) && Encode(v) + r == Encode(w) + t
    ensures v == w && r == t
  {
    match v.scalar
    case Integer(n) => IntegersUnambiguous(n, w.scalar.n, r, t);
    case Text(s) => QuoteUnambiguous(s, w.scalar.s, r, t);
    case Null => SameLengthSplit(Encode(v), Encode(w), r, t);
    case Bool(b) => SameLengthSplit(Encode(v), Encode(w), r, t);
  }

  // ---- values ----

  /** No encoding is the beginning of another, given what may follow. */
  lemma {:induction false} EncodeUnambiguous(v: Json, w: Json, r: string, t: string)
    requires FloatFree(v) && FloatFree(w) && Closes(r) && Closes(t)
    requires Encode(v) + r == Encode(w) + t
    ensures v == w && r == t
    decreases v, 1
  {
    SameKind(v, w, r, t);
    match v
    case Scalar(s) => ScalarsUnambiguous(v, w, r, t);
    case Array(items) => ArraysUnambiguous(v, w, r, t);
    case Object(fields) => ObjectsUnambiguous(v, w, r, t);
  }

  lemma BracketSplit(open: string, inside: string, close: string, r: string)
    ensures open + (inside + close) + r == open + (inside + (close + r))
  {
    Assoc(open, inside + close, r);
    Assoc(inside, close, r);
  }

  lemma {:induction false} ArraysUnambiguous(v: Json, w: Json, r: string, t: string)
    requires v.Array? && w.Array? && FloatFree(v) && FloatFree(w)
    requires Encode(v) + r == Encode(w) + t
    ensures v == w && r == t
    decreases v, 0
  {
    var a, b := ItemsText(v.items), ItemsText(w.items);
    BracketSplit("[", a, "]", r);
    BracketSplit("[", b, "]", t);
    SameLengthSplit("[", "[", a + ("]" + r), b + ("]" + t));
    ItemsUnambiguous(v.items, w.items, "]" + r, "]" + t);
    SameLengthSplit("]", "]", r, t);
  }

  predicate NoFloats(items: seq<Json>) {
    forall i :: 0 <= i < |items| ==> FloatFree(items[i])
  }

  /** What follows the first item of an array. */
  function AfterItem(items: seq<Json>, q: string): string
    requires items != []
  {
    if |items| == 1 then q else "," + (ItemsText(items[1..]) + q)
  }

  lemma ItemsSplit(items: seq<Json>, q: string)
    requires items != [] && StartsWith(q, ']')
    ensures ItemsText(items) + q == Encode(items[0]) + AfterItem(items, q)
    ensures Closes(AfterItem(items, q))
  {
    var more := if |items| == 1 then "" else "," + ItemsText(items[1..]);
    Assoc(Encode(items[0]), more, q);
    if |items| == 1 {
      assert more + q == q;
    } else {
      Assoc(",", ItemsText(items[1..]), q);
    }
  }

  lemma ItemsStart(items: seq<Json>, q: string)
    requires NoFloats(items) && StartsWith(q, ']')
    ensures StartsWith(ItemsText(items) + q, ']') <==> items == []
  {
    if items != [] {
      ItemsSplit(items, q);
      FirstCharacter(items[0]);
    }
  }

  lemma {:induction false} ItemsUnambiguous(a: seq<Json>, b: seq<Json>, q: string, p: string)
    requires NoFloats(a) && NoFloats(b) && StartsWith(q, ']') && StartsWith(p, ']')
    requires ItemsText(a) + q == ItemsText(b) + p
    ensures a == b && q == p
    decreases a
  {
    ItemsStart(a, q);
    ItemsStart(b, p);
    if a == [] {
      assert ItemsText(a) + q == q && ItemsText(b) + p == p;
    } else {
      ItemsSplit(a, q);
      ItemsSplit(b, p);
      EncodeUnambiguous(a[0], b[0], AfterItem(a, q), AfterItem(b, p));
      OtherItems(a, b, q, p);
      assert a == [a[0]] + a[1..] && b == [b[0]] + b[1..];
    }
  }

  lemma {:induction false} OtherItems(a: seq<Json>, b: seq<Json>, q: string, p: string)
    requires a != [] && b != [] && NoFloats(a) && NoFloats(b) && StartsWith(q, ']') && StartsWith(p, ']')
    requires AfterItem(a, q) == AfterItem(b, p)
    ensures a[1..] == b[1..] && q == p
    decreases a, 0
  {
    if |a| > 1 && |b| > 1 {
      SameLengthSplit(",", ",", ItemsText(a[1..]) + q, ItemsText(b[1..]) + p);
      ItemsUnambiguous(a[1..], b[1..], q, p);
    }
  }

  lemma {:induction false} ObjectsUnambiguous(v: Json, w: Json, r: string, t: string)
    requires v.Object? && w.Object? && FloatFree(v) && FloatFree(w)
    requires Encode(v) + r == Encode(w) + t
    ensures v == w && r == t
    decreases v, 0
  {
    var ks, ls := SortedKeys(v.fields.Keys), SortedKeys(w.fields.Keys);
    var a, b := FieldsText(v, ks), FieldsText(w, ls);
    BracketSplit("{", a, "}", r);
    BracketSplit("{", b, "}", t);
    SameLengthSplit("{", "{", a + ("}" + r), b + ("}" + t));
    FieldsUnambiguous(v, w, ks, ls, "}" + r, "}" + t);
    SameLengthSplit("}", "}", r, t);
    SameFields(v.fields, w.fields, ks);
  }

  lemma SameFields(m: map<string, Json>, n: map<string, Json>, keys: seq<string>)
    requires forall k :: k in keys <==> k in m
    requires forall k :: k in keys <==> k in n
    requires forall k | k in keys :: m[k] == n[k]
    ensures m == n
  {
    assert forall k :: k in m <==> k in n;
  }

  predicate AllIn(keys: seq<string>, v: Json) {
    v.Object? && forall k | k in keys :: k in v.fields
  }

  /** What follows the first field of an object. */
  function AfterField(v: Json, keys: seq<string>, q: string): string
    requires keys != [] && AllIn(keys, v)
  {
    if |keys| == 1 then q else "," + (FieldsText(v, keys[1..]) + q)
  }

  lemma FieldsSplit(v: Json, keys: seq<string>, q: string)
    requires keys != [] && AllIn(keys, v) && StartsWith(q, '}')
    ensures FieldsText(v, keys) + q == Quote(keys[0]) + (":" + (Encode(v.fields[keys[0]]) + AfterField(v, keys, q)))
    ensures Closes(AfterField(v, keys, q))
  {
    var more := if |keys| == 1 then "" else "," + FieldsText(v, keys[1..]);
    var e := Encode(v.fields[keys[0]]);
    Assoc(Quote(keys[0]), ":" + (e + more), q);
    Assoc(":", e + more, q);
    Assoc(e, more, q);
    if |keys| == 1 {
      assert more + q == q;
    } else {
      Assoc(",", FieldsText(v, keys[1..]), q);
    }
  }

  lemma FieldsStart(v: Json, keys: seq<string>, q: string)
    requires AllIn(keys, v) && StartsWith(q, '}')
    ensures StartsWith(FieldsText(v, keys) + q, '}') <==> keys == []
  {
    if keys != [] {
      FieldsSplit(v, keys, q);
      assert Quote(keys[0])[0] == '"';
    }
  }

  lemma {:induction false} FieldsUnambiguous(
      v: Json, w: Json, ks: seq<string>, ls: seq<string>, q: string, p: string)
    requires AllIn(ks, v) && AllIn(ls, w) && FloatFree(v) && FloatFree(w)
    requires StartsWith(q, '}') && StartsWith(p, '}')
    requires FieldsText(v, ks) + q == FieldsText(w, ls) + p
    ensures ks == ls && q == p && forall k :: k in ks ==> v.fields[k] == w.fields[k]
    decreases v, 0, |ks|, 1
  {
    FieldsStart(v, ks, q);
    FieldsStart(w, ls, p);
    if ks == [] {
      assert FieldsText(v, ks) + q == q && FieldsText(w, ls) + p == p;
    } else {
      FirstField(v, w, ks, ls, q, p);
      OtherFields(v, w, ks, ls, q, p);
      assert ks == [ks[0]] + ks[1..] && ls == [ls[0]] + ls[1..];
    }
  }

  lemma {:induction false} OtherFields(v: Json, w: Json, ks: seq<string>, ls: seq<string>, q: string, p: string)
    requires ks != [] && ls != [] && AllIn(ks, v) && AllIn(ls, w) && FloatFree(v) && FloatFree(w)
    requires StartsWith(q, '}') && StartsWith(p, '}')
    requires AfterField(v, ks, q) == AfterField(w, ls, p)
    ensures ks[1..] == ls[1..] && q == p && forall k :: k in ks[1..] ==> v.fields[k] == w.fields[k]
    decreases v, 0, |ks|, 0
  {
    if |ks| > 1 && |ls| > 1 {
      SameLengthSplit(",", ",", FieldsText(v, ks[1..]) + q, FieldsText(w, ls[1..]) + p);
      FieldsUnambiguous(v, w, ks[1..], ls[1..], q, p);
    }
  }

  lemma {:induction false} FirstField(v: Json, w: Json, ks: seq<string>, ls: seq<string>, q: string, p: string)
    requires ks != [] && ls != [] && AllIn(ks, v) && AllIn(ls, w) && FloatFree(v) && FloatFree(w)
    requires StartsWith(q, '}') && StartsWith(p, '}')
    requires FieldsText(v, ks) + q == FieldsText(w, ls) + p
    ensures ks[0] == ls[0] && v.fields[ks[0]] == w.fields[ls[0]] && AfterField(v, ks, q) == AfterField(w, ls, p)
    decreases v, 0, 0
  {
    var k, l := ks[0], ls[0];
    FieldsSplit(v, ks, q);
    FieldsSplit(w, ls, p);
    var x, y := Encode(v.fields[k]) + AfterField(v, ks, q), Encode(w.fields[l]) + AfterField(w, ls, p);
    QuoteUnambiguous(k, l, ":" + x, ":" + y);
    SameLengthSplit(":", ":", x, y);
    EncodeUnambiguous(v.fields[k], w.fields[l], AfterField(v, ks, q), AfterField(w, ls, p));
  }

  /** Two values are never written alike. */
  lemma EncodeInjective(v: Json, w: Json)
    requires FloatFree(v) && FloatFree(w) && Encode(v) == Encode(w)
    ensures v == w
  {
    assert Encode(v) + "" == Encode(v) && Encode(w) + "" == Encode(w);
    EncodeUnambiguous(v, w, "", "");
  }
}
