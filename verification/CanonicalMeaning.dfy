/** What the canonical text of a document says: it does not depend on the order of fields, and determines everything
    else. */
module CanonicalMeaning {
  import opened Wrappers
  import opened Decimals
  import opened Hex
  import opened StringOrder
  import opened CanonicalJson
  import opened CanonicalProofs

  predicate DistinctKeys(fields: seq<Field>) {
    forall i, j :: 0 <= i < j < |fields| ==> fields[i].key != fields[j].key
  }

  /** No structure names a field twice. */
  predicate Distinct(d: Document) {
    match d
    case Plain(s) => true
    case List(items) => forall i :: 0 <= i < |items| ==> Distinct(items[i])
    case Record(fields) => DistinctKeys(fields) && forall i :: 0 <= i < |fields| ==> Distinct(fields[i].value)
  }

  predicate HasKey(fields: seq<Field>, k: string) {
    exists i :: 0 <= i < |fields| && fields[i].key == k
  }

  /** The same document, but for the order of fields, at any depth. */
  ghost predicate Reordered(a: Document, b: Document) {
    match a
    case Plain(s) => b == a
    case List(items) => b.List? && |b.items| == |items| && forall i :: 0 <= i < |items| ==> Reordered(items[i], b.items[i])
    case Record(fields) =>
      && b.Record?
      && (forall k :: HasKey(fields, k) <==> HasKey(b.fields, k))
      && forall i, j :: 0 <= i < |fields| && 0 <= j < |b.fields| && fields[i].key == b.fields[j].key ==>
                          Reordered(fields[i].value, b.fields[j].value)
  }

  lemma {:induction false} ValuesAt(items: seq<Document>, i: nat)
    requires i < |items|
    ensures ToValues(items)[i] == ToValue(items[i])
  {
    if i > 0 {
      ValuesAt(items[1..], i - 1);
    }
  }

  lemma {:induction false} FieldKeys(fields: seq<Field>, k: string)
    ensures k in ToFields(fields) <==> HasKey(fields, k)
  {
    if fields != [] {
      var n := |fields| - 1;
      FieldKeys(fields[..n], k);
      assert HasKey(fields, k) <==> HasKey(fields[..n], k) || fields[n].key == k;
    }
  }

  lemma {:induction false} FieldAt(fields: seq<Field>, i: nat)
    requires i < |fields| && DistinctKeys(fields)
    ensures fields[i].key in ToFields(fields) && ToFields(fields)[fields[i].key] == ToValue(fields[i].value)
  {
    var n := |fields| - 1;
    if i < n {
      FieldAt(fields[..n], i);
    }
  }

  /** Two documents serialize to the same value exactly when they differ only in the order of fields. */
  lemma {:induction false} SameValueExactlyWhen(a: Document, b: Document)
    requires Distinct(a) && Distinct(b)
    ensures ToValue(a) == ToValue(b) <==> Reordered(a, b)
  {
    match a
    case Plain(s) =>
    case List(items) =>
      if b.List? {
        SameItems(items, b.items);
      }
    case Record(fields) =>
      if b.Record? {
        SameRecords(fields, b.fields);
      }
  }

  lemma {:induction false} SameItems(a: seq<Document>, b: seq<Document>)
    requires forall i :: 0 <= i < |a| ==> Distinct(a[i])
    requires forall i :: 0 <= i < |b| ==> Distinct(b[i])
    ensures ToValues(a) == ToValues(b) <==> |a| == |b| && forall i :: 0 <= i < |a| ==> Reordered(a[i], b[i])
    decreases a, 0
  {
    if |a| == |b| {
      forall i | 0 <= i < |a|
        ensures ToValues(a)[i] == ToValues(b)[i] <==> Reordered(a[i], b[i])
      {
        ValuesAt(a, i);
        ValuesAt(b, i);
        SameValueExactlyWhen(a[i], b[i]);
      }
    }
  }

  ghost predicate FieldsReordered(a: seq<Field>, b: seq<Field>) {
    && (forall k :: HasKey(a, k) <==> HasKey(b, k))
    && forall i, j :: 0 <= i < |a| && 0 <= j < |b| && a[i].key == b[j].key ==> Reordered(a[i].value, b[j].value)
  }

  lemma {:induction false} SameRecords(a: seq<Field>, b: seq<Field>)
    requires DistinctKeys(a) && forall i :: 0 <= i < |a| ==> Distinct(a[i].value)
    requires DistinctKeys(b) && forall i :: 0 <= i < |b| ==> Distinct(b[i].value)
    ensures ToFields(a) == ToFields(b) <==> FieldsReordered(a, b)
    decreases a, 0
  {
    var m, n := ToFields(a), ToFields(b);
    forall k
      ensures k in m <==> HasKey(a, k)
      ensures k in n <==> HasKey(b, k)
    {
      FieldKeys(a, k);
      FieldKeys(b, k);
    }
    forall i, j | 0 <= i < |a| && 0 <= j < |b| && a[i].key == b[j].key
      ensures m[a[i].key] == n[b[j].key] <==> Reordered(a[i].value, b[j].value)
    {
      FieldAt(a, i);
      FieldAt(b, j);
      SameValueExactlyWhen(a[i].value, b[j].value);
    }
    if FieldsReordered(a, b) {
      forall k | k in m
        ensures k in n && m[k] == n[k]
      {
        var i :| 0 <= i < |a| && a[i].key == k;
        assert HasKey(b, k);
        var j :| 0 <= j < |b| && b[j].key == k;
      }
      assert forall k :: k in n ==> k in m;
      assert m == n;
    }
  }

  // ---- floats in documents ----

  predicate DocumentHasFloat(d: Document) {
    match d
    case Plain(s) => s.Float?
    case List(items) => exists i :: 0 <= i < |items| && DocumentHasFloat(items[i])
    case Record(fields) => exists i :: 0 <= i < |fields| && DocumentHasFloat(fields[i].value)
  }

  lemma {:induction false} FloatsKept(d: Document)
    requires Distinct(d)
    ensures HasFloat(ToValue(d)) <==> DocumentHasFloat(d)
  {
    match d
    case Plain(s) =>
    case List(items) =>
      forall i | 0 <= i < |items|
        ensures HasFloat(ToValues(items)[i]) <==> DocumentHasFloat(items[i])
      {
        ValuesAt(items, i);
        FloatsKept(items[i]);
      }
    case Record(fields) => FieldFloatsKept(fields);
  }

  lemma {:induction false} FieldFloatsKept(fields: seq<Field>)
    requires DistinctKeys(fields) && forall i :: 0 <= i < |fields| ==> Distinct(fields[i].value)
    ensures HasFloat(Object(ToFields(fields))) <==> DocumentHasFloat(Record(fields))
    decreases fields, 0
  {
    var m := ToFields(fields);
    forall i | 0 <= i < |fields|
      ensures fields[i].key in m && (HasFloat(m[fields[i].key]) <==> DocumentHasFloat(fields[i].value))
    {
      FieldAt(fields, i);
      FloatsKept(fields[i].value);
    }
    if HasFloat(Object(m)) {
      var k :| k in m && HasFloat(m[k]);
      FieldKeys(fields, k);
      var i :| 0 <= i < |fields| && fields[i].key == k;
      assert DocumentHasFloat(fields[i].value);
    }
    if DocumentHasFloat(Record(fields)) {
      var i :| 0 <= i < |fields| && DocumentHasFloat(fields[i].value);
      assert HasFloat(m[fields[i].key]);
    }
  }

  /** A document is refused exactly when a floating-point number occurs anywhere in it. */
  lemma CanonicalRefusedExactly(d: Document)
    requires Distinct(d)
    ensures Canonical(d).Err? <==> DocumentHasFloat(d)
  {
    RefusedExactly(ToValue(d), "");
    FloatsKept(d);
  }

  /** The order of fields changes neither the text nor a refusal and the path it names. */
  lemma FieldOrderIrrelevant(a: Document, b: Document)
    requires Distinct(a) && Distinct(b) && Reordered(a, b)
    ensures Canonical(a) == Canonical(b)
  {
    SameValueExactlyWhen(a, b);
  }

  /** Two encodable documents have the same text exactly when they differ only in the order of fields. */
  lemma SameTextExactlyWhen(a: Document, b: Document)
    requires Distinct(a) && Distinct(b) && Canonical(a).Ok? && Canonical(b).Ok?
    ensures Canonical(a) == Canonical(b) <==> Reordered(a, b)
  {
    SameValueExactlyWhen(a, b);
    if Canonical(a) == Canonical(b) {
      RefusedExactly(ToValue(a), "");
      RefusedExactly(ToValue(b), "");
      EncodeInjective(ToValue(a), ToValue(b));
    }
  }

  // ---- the form of the text ----

  function Member(v: Json, k: string): string
    requires v.Object? && k in v.fields
  {
    Quote(k) + (":" + Encode(v.fields[k]))
  }

  /** Members each followed by a comma. */
  function Led(v: Json, keys: seq<string>): string
    requires AllIn(keys, v)
  {
    if keys == [] then "" else Member(v, keys[0]) + ("," + Led(v, keys[1..]))
  }

  /** Members each led by a comma. */
  function Trailed(v: Json, keys: seq<string>): string
    requires AllIn(keys, v)
  {
    if keys == [] then "" else "," + (Member(v, keys[0]) + Trailed(v, keys[1..]))
  }

  lemma MemberFirst(v: Json, keys: seq<string>, more: string)
    requires AllIn(keys, v) && keys != []
    requires more == if |keys| == 1 then "" else "," + FieldsText(v, keys[1..])
    ensures FieldsText(v, keys) == Member(v, keys[0]) + more
  {
    Assoc(Quote(keys[0]), ":" + Encode(v.fields[keys[0]]), more);
    Assoc(":", Encode(v.fields[keys[0]]), more);
  }

  lemma {:induction false} FirstThenTrailed(v: Json, keys: seq<string>)
    requires AllIn(keys, v) && keys != []
    ensures FieldsText(v, keys) == Member(v, keys[0]) + Trailed(v, keys[1..])
  {
    var more := if |keys| == 1 then "" else "," + FieldsText(v, keys[1..]);
    MemberFirst(v, keys, more);
    if |keys| > 1 {
      FirstThenTrailed(v, keys[1..]);
    }
  }

  lemma {:induction false} MemberPlaced(v: Json, lower: seq<string>, k: string, upper: seq<string>)
    requires v.Object? && AllIn(lower + [k] + upper, v) && AllIn(lower, v) && k in v.fields && AllIn(upper, v)
    ensures FieldsText(v, lower + [k] + upper) == Led(v, lower) + (Member(v, k) + Trailed(v, upper))
  {
    var keys := lower + [k] + upper;
    if lower == [] {
      assert keys[1..] == upper;
      FirstThenTrailed(v, keys);
    } else {
      assert keys[1..] == lower[1..] + [k] + upper;
      MemberFirst(v, keys, "," + FieldsText(v, keys[1..]));
      MemberPlaced(v, lower[1..], k, upper);
      Joined(Member(v, keys[0]), Led(v, lower[1..]), Member(v, k) + Trailed(v, upper));
    }
  }

  lemma Joined(first: string, b: string, rest: string)
    ensures first + ("," + (b + rest)) == (first + ("," + b)) + rest
  {
    Assoc(",", b, rest);
    Assoc(first, "," + b, rest);
  }

  /** In the text of an object, each member stands after exactly the members of smaller keys and before exactly those
      of larger keys, each of them once, in ascending order. */
  lemma KeysAscend(v: Json, k: string) returns (lower: seq<string>, upper: seq<string>)
    requires v.Object? && k in v.fields
    ensures Sorted(lower) && Sorted(upper)
    ensures forall l :: l in lower <==> l in v.fields && Less(l, k)
    ensures forall l :: l in upper <==> l in v.fields && Less(k, l)
    ensures AllIn(lower, v) && AllIn(upper, v)
    ensures Encode(v) == "{" + (Led(v, lower) + (Member(v, k) + Trailed(v, upper))) + "}"
  {
    var keys := SortedKeys(v.fields.Keys);
    lower, upper := SplitAt(keys, k);
    assert forall l :: l in lower + [k] + upper ==> l in keys;
    MemberPlaced(v, lower, k, upper);
  }

  /** A sorted list is what is smaller than one of its elements, the element, and what is larger. */
  lemma SplitAt(keys: seq<string>, k: string) returns (lower: seq<string>, upper: seq<string>)
    requires Sorted(keys) && k in keys
    ensures keys == lower + [k] + upper && Sorted(lower) && Sorted(upper)
    ensures forall l :: l in lower <==> l in keys && Less(l, k)
    ensures forall l :: l in upper <==> l in keys && Less(k, l)
  {
    var i :| 0 <= i < |keys| && keys[i] == k;
    lower, upper := keys[..i], keys[i + 1..];
    forall l | l in keys ensures (l in lower <==> Less(l, k)) && (l in upper <==> Less(k, l)) {
      SideOf(keys, i, l);
    }
  }

  lemma SideOf(keys: seq<string>, i: nat, l: string)
    requires Sorted(keys) && i < |keys| && l in keys
    ensures l in keys[..i] <==> Less(l, keys[i])
    ensures l in keys[i + 1..] <==> Less(keys[i], l)
  {
    var j :| 0 <= j < |keys| && keys[j] == l;
    if j < i {
      assert l == keys[..i][j];
      LessAsymmetric(l, keys[i]);
    } else if j > i {
      assert l == keys[i + 1..][j - i - 1];
      LessAsymmetric(keys[i], l);
    } else {
      LessIrreflexive(l);
    }
  }

  /** No line ends, no NUL: nothing below a space is ever written raw. */
  predicate Printable(s: string) {
    forall i :: 0 <= i < |s| ==> s[i] >= ' '
  }

  lemma {:induction false} EscapedPrintable(s: string)
    ensures Printable(Escaped(s))
  {
    if s != "" {
      EscapedPrintable(s[1..]);
      assert Printable(Escape(s[0]));
    }
  }

  lemma ScalarPrintable(s: Scalar)
    requires !s.Float?
    ensures Printable(ScalarText(s))
  {
    if s.Text? {
      EscapedPrintable(s.s);
    }
  }

  lemma {:induction false} EncodePrintable(v: Json)
    requires FloatFree(v)
    ensures Printable(Encode(v))
    decreases v, 1
  {
    match v
    case Scalar(s) => ScalarPrintable(s);
    case Array(items) => ItemsPrintable(items);
    case Object(fields) => FieldsPrintable(v, SortedKeys(fields.Keys));
  }

  lemma {:induction false} ItemsPrintable(items: seq<Json>)
    requires NoFloats(items)
    ensures Printable(ItemsText(items))
    decreases items
  {
    if items != [] {
      EncodePrintable(items[0]);
      ItemsPrintable(items[1..]);
    }
  }

  lemma {:induction false} FieldsPrintable(v: Json, keys: seq<string>)
    requires AllIn(keys, v) && FloatFree(v)
    ensures Printable(FieldsText(v, keys))
    decreases v, 0, |keys|
  {
    if keys != [] {
      EscapedPrintable(keys[0]);
      EncodePrintable(v.fields[keys[0]]);
      FieldsPrintable(v, keys[1..]);
    }
  }

  /** Canonical text holds no control character. */
  lemma CanonicalPrintable(d: Document)
    requires Canonical(d).Ok?
    ensures Printable(Canonical(d).value)
  {
    RefusedExactly(ToValue(d), "");
    EncodePrintable(ToValue(d));
  }
}
