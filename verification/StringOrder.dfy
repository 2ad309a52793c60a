/** The order in which a `BTreeMap<String, _>` and a `BTreeSet<String>` are walked: strings compare
    character by character, which for Unicode scalar values is the order of their UTF-8 bytes. */
module StringOrder {

  predicate Less(a: string, b: string) {
    b != [] && (a == [] || a[0] < b[0] || (a[0] == b[0] && Less(a[1..], b[1..])))
  }

  predicate Sorted(s: seq<string>) {
    forall i, j :: 0 <= i < j < |s| ==> Less(s[i], s[j])
  }

  /** Two strings first differ at a place, and the first has the smaller character there. */
  predicate SmallerAt(a: string, b: string, k: nat) {
    k < |a| && k < |b| && a[..k] == b[..k] && a[k] < b[k]
  }

  lemma SmallerNext(a: string, b: string, k: nat)
    requires a != [] && b != [] && a[0] == b[0]
    ensures SmallerAt(a, b, k + 1) <==> SmallerAt(a[1..], b[1..], k)
  {
    if k + 1 < |a| && k + 1 < |b| {
      assert a[..k + 1] == [a[0]] + a[1..][..k] && b[..k + 1] == [b[0]] + b[1..][..k];
      assert a[1..][..k] == a[..k + 1][1..] && b[1..][..k] == b[..k + 1][1..];
    }
  }

  ghost predicate Smaller(a: string, b: string) {
    exists k: nat :: SmallerAt(a, b, k)
  }

  lemma SmallerBehind(a: string, b: string)
    requires a != [] && b != [] && a[0] == b[0]
    ensures Smaller(a, b) <==> Smaller(a[1..], b[1..])
  {
    if k: nat :| SmallerAt(a[1..], b[1..], k) {
      SmallerNext(a, b, k);
    }
    if k: nat :| SmallerAt(a, b, k) {
      SmallerNext(a, b, k - 1);
    }
  }

  lemma SmallerFirst(a: string, b: string)
    requires a != [] && b != [] && a[0] != b[0]
    ensures Smaller(a, b) <==> a[0] < b[0]
  {
    if a[0] < b[0] {
      assert SmallerAt(a, b, 0);
    }
    forall k: nat | k > 0 ensures !SmallerAt(a, b, k) {
      DifferAtOnce(a, b, k);
    }
  }

  lemma DifferAtOnce(a: string, b: string, k: nat)
    requires a != [] && b != [] && a[0] != b[0] && k > 0
    ensures !SmallerAt(a, b, k)
  {
    if k < |a| && k < |b| {
      assert a[..k][0] != b[..k][0];
    }
  }

  /** One string comes before another if it is a proper beginning of it, or has the smaller character where they first
      differ. */
  lemma {:induction false} LessExactlyWhen(a: string, b: string)
    ensures Less(a, b) <==> a < b || Smaller(a, b)
  {
    if a != [] && b != [] {
      if a[0] == b[0] {
        LessExactlyWhen(a[1..], b[1..]);
        SmallerBehind(a, b);
        LongerNext(a, b);
      } else {
        SmallerFirst(a, b);
      }
    }
  }

  lemma LongerNext(a: string, b: string)
    requires a != [] && b != [] && a[0] == b[0]
    ensures a < b <==> a[1..] < b[1..]
  {
    assert a == [a[0]] + a[1..] && b == [b[0]] + b[1..];
  }

  lemma {:induction false} LessIrreflexive(a: string)
    ensures !Less(a, a)
  {
    if a != [] {
      LessIrreflexive(a[1..]);
    }
  }

  lemma {:induction false} LessTransitive(a: string, b: string, c: string)
    requires Less(a, b) && Less(b, c)
    ensures Less(a, c)
  {
    if a != [] && a[0] == b[0] == c[0] {
      LessTransitive(a[1..], b[1..], c[1..]);
    }
  }

  lemma {:induction false} LessTotal(a: string, b: string)
    ensures a == b || Less(a, b) || Less(b, a)
  {
    if a != [] && b != [] && a[0] == b[0] {
      LessTotal(a[1..], b[1..]);
      assert a == [a[0]] + a[1..] && b == [b[0]] + b[1..];
    }
  }

  lemma LessAsymmetric(a: string, b: string)
    requires Less(a, b)
    ensures !Less(b, a)
  {
    if Less(b, a) {
      LessTransitive(a, b, a);
      LessIrreflexive(a);
    }
  }

  predicate IsLeast(k: string, ks: set<string>) {
    k in ks && forall j :: j in ks && j != k ==> Less(k, j)
  }

  lemma {:induction false} LeastExists(ks: set<string>)
    requires ks != {}
    ensures exists k :: IsLeast(k, ks)
    decreases |ks|
  {
    var x :| x in ks;
    if ks == {x} {
      assert IsLeast(x, ks);
    } else {
      LeastExists(ks - {x});
      var k :| IsLeast(k, ks - {x});
      LessTotal(x, k);
      if Less(x, k) {
        forall j | j in ks && j != x ensures Less(x, j) {
          if j != k {
            LessTransitive(x, k, j);
          }
        }
        assert IsLeast(x, ks);
      } else {
        assert IsLeast(k, ks);
      }
    }
  }

  lemma LeastUnique(k: string, j: string, ks: set<string>)
    requires IsLeast(k, ks) && IsLeast(j, ks)
    ensures k == j
  {
    if k != j {
      LessAsymmetric(k, j);
    }
  }

  function Least(ks: set<string>): (k: string)
    requires ks != {}
    ensures IsLeast(k, ks)
  {
    LeastExists(ks);
    assert forall k, j :: IsLeast(k, ks) && IsLeast(j, ks) ==> k == j by {
      forall k, j | IsLeast(k, ks) && IsLeast(j, ks) ensures k == j {
        LeastUnique(k, j, ks);
      }
    }
    var k :| k in ks && IsLeast(k, ks);
    k
  }

  /** The keys of a sorted map, in the order its iterator yields them. */
  function SortedKeys(ks: set<string>): (s: seq<string>)
    ensures Sorted(s)
    ensures forall k :: k in s <==> k in ks
    decreases |ks|
  {
    if ks == {} then [] else
      var k := Least(ks);
      var rest := SortedKeys(ks - {k});
      assert forall j :: 0 <= j < |rest| ==> rest[j] in rest && Less(k, rest[j]);
      [k] + rest
  }

  lemma SortedDistinct(s: seq<string>)
    requires Sorted(s)
    ensures forall i, j :: 0 <= i < j < |s| ==> s[i] != s[j]
  {
    forall i, j | 0 <= i < j < |s| ensures s[i] != s[j] {
      LessIrreflexive(s[i]);
    }
  }

  /** A sorted list is determined by its elements, so two maps with the same keys are walked alike. */
  lemma {:induction false} SortedUnique(a: seq<string>, b: seq<string>)
    requires Sorted(a) && Sorted(b)
    requires forall k :: k in a <==> k in b
    ensures a == b
  {
    if a == [] {
      assert forall i :: 0 <= i < |b| ==> b[i] in b;
    } else {
      assert a[0] in b;
      assert b[0] in b;
      if a[0] != b[0] {
        LessAsymmetric(a[0], b[0]);
        assert false;
      }
      SortedDistinct(a);
      SortedDistinct(b);
      forall k ensures k in a[1..] <==> k in b[1..] {
        assert k in a <==> k == a[0] || k in a[1..];
        assert k in b <==> k == b[0] || k in b[1..];
      }
      SortedUnique(a[1..], b[1..]);
      assert a == [a[0]] + a[1..] && b == [b[0]] + b[1..];
    }
  }
}
