/** The order a pass sends in: urgent first, then oldest, then lowest id, cut to the budget. */
module OutboxOrder {
  import opened Wrappers
  import opened OutboxModel
  import opened OutboxQueue

  predicate StrictlyOrdered(entries: seq<Entry>, order: seq<nat>)
    requires Indices(entries, order)
  {
    forall i, j :: 0 <= i < j < |order| ==> Before(entries[order[i]], entries[order[j]])
  }

  predicate Distinct(order: seq<nat>) {
    forall i, j :: 0 <= i < j < |order| ==> order[i] != order[j]
  }

  lemma BeforeTransitive(a: Entry, b: Entry, c: Entry)
    requires Before(a, b) && Before(b, c)
    ensures Before(a, c)
  {
  }

  lemma {:induction false} PlaceMembers(entries: seq<Entry>, x: nat, order: seq<nat>)
    requires Indices(entries, order) && x < |entries|
    ensures Indices(entries, Place(entries, x, order))
    ensures |Place(entries, x, order)| == |order| + 1
    ensures forall y :: y in Place(entries, x, order) <==> y == x || y in order
  {
    if order != [] {
      assert order == order[..|order| - 1] + [order[|order| - 1]];
      PlaceMembers(entries, x, order[..|order| - 1]);
    }
  }

  lemma {:induction false} PlaceOrdered(entries: seq<Entry>, x: nat, order: seq<nat>, bound: nat)
    requires StrictIds(entries, bound) && Indices(entries, order) && x < |entries| && x !in order
    requires StrictlyOrdered(entries, order)
    ensures Indices(entries, Place(entries, x, order))
    ensures StrictlyOrdered(entries, Place(entries, x, order))
  {
    PlaceMembers(entries, x, order);
    if order != [] {
      var front, l := order[..|order| - 1], order[|order| - 1];
      assert l in order;
      if Before(entries[l], entries[x]) {
        forall i | 0 <= i < |order| ensures Before(entries[order[i]], entries[x]) {
          if i < |order| - 1 {
            BeforeTransitive(entries[order[i]], entries[l], entries[x]);
          }
        }
      } else {
        PlaceMembers(entries, x, front);
        PlaceOrdered(entries, x, front, bound);
        var placed := Place(entries, x, front);
        forall i | 0 <= i < |placed| ensures Before(entries[placed[i]], entries[l]) {
          assert placed[i] in placed;
          if placed[i] != x {
            var j :| 0 <= j < |front| && front[j] == placed[i];
            assert order[j] == front[j];
          }
        }
      }
    }
  }

  lemma {:induction false} SortOrdered(entries: seq<Entry>, due: seq<nat>, bound: nat)
    requires StrictIds(entries, bound) && Indices(entries, due) && Distinct(due)
    ensures StrictlyOrdered(entries, SortByKey(entries, due))
    ensures |SortByKey(entries, due)| == |due|
    ensures forall y :: y in SortByKey(entries, due) <==> y in due
  {
    if due != [] {
      var front, x := due[..|due| - 1], due[|due| - 1];
      SortOrdered(entries, front, bound);
      assert forall i :: 0 <= i < |front| ==> front[i] != x;
      assert due == front + [x];
      PlaceMembers(entries, x, SortByKey(entries, front));
      PlaceOrdered(entries, x, SortByKey(entries, front), bound);
    }
  }

  /** The due entries, each once, as they lie in the queue. */
  lemma {:induction false} DueExactly(entries: seq<Entry>, now: nat)
    ensures forall x: nat :: x in DueIndices(entries, now) <==> x < |entries| && entries[x].notBefore <= now
    ensures Distinct(DueIndices(entries, now))
  {
    if entries != [] {
      var n := |entries| - 1;
      DueExactly(entries[..n], now);
    }
  }

  /** A pass visits distinct due entries in strictly increasing key order. */
  lemma SendOrderOrdered(entries: seq<Entry>, now: nat, budget: nat, bound: nat)
    requires StrictIds(entries, bound)
    ensures StrictlyOrdered(entries, SendOrder(entries, now, budget))
    ensures Distinct(SendOrder(entries, now, budget))
    ensures |SendOrder(entries, now, budget)| <= budget
    ensures forall x :: x in SendOrder(entries, now, budget) ==> x < |entries| && entries[x].notBefore <= now
  {
    var due := DueIndices(entries, now);
    DueExactly(entries, now);
    SortOrdered(entries, due, bound);
    var sorted := SortByKey(entries, due);
    var order := SendOrder(entries, now, budget);
    assert forall i :: 0 <= i < |order| ==> order[i] == sorted[i];
    forall x | x in order ensures x in due {
      var i :| 0 <= i < |order| && order[i] == x;
      assert sorted[i] in sorted;
    }
    forall i, j | 0 <= i < j < |order| ensures order[i] != order[j] {
      assert Before(entries[order[i]], entries[order[j]]);
    }
  }

  /** The budget goes to the most urgent: a due entry left out comes after every entry taken,
      and nothing due is left out while the budget lasts. */
  lemma BudgetTakesTheFirst(entries: seq<Entry>, now: nat, budget: nat, bound: nat, x: nat)
    requires StrictIds(entries, bound) && x < |entries| && entries[x].notBefore <= now
    requires x !in SendOrder(entries, now, budget)
    ensures |SendOrder(entries, now, budget)| == budget
    ensures forall y :: y in SendOrder(entries, now, budget) ==> Before(entries[y], entries[x])
  {
    var due := DueIndices(entries, now);
    DueExactly(entries, now);
    SortOrdered(entries, due, bound);
    var sorted := SortByKey(entries, due);
    var order := SendOrder(entries, now, budget);
    assert x in sorted;
    var k :| 0 <= k < |sorted| && sorted[k] == x;
    assert k >= |order| by {
      assert forall i :: 0 <= i < |order| ==> order[i] in order && order[i] == sorted[i];
    }
    forall y | y in order ensures Before(entries[y], entries[x]) {
      var i :| 0 <= i < |order| && order[i] == y;
      assert sorted[i] == y;
    }
  }

  /** Two strictly ordered lists of the same entries are the same list: the result does not depend on
      how the sort is carried out. */
  lemma {:induction false} OrderUnique(entries: seq<Entry>, a: seq<nat>, b: seq<nat>)
    requires Indices(entries, a) && Indices(entries, b)
    requires StrictlyOrdered(entries, a) && StrictlyOrdered(entries, b)
    requires |a| == |b| && forall x :: x in a <==> x in b
    ensures a == b
  {
    if a != [] {
      assert forall k :: 0 < k < |a| ==> Before(entries[a[0]], entries[a[k]]) && Before(entries[b[0]], entries[b[k]]);
      assert a[0] in b && b[0] in a;
      var i :| 0 <= i < |b| && b[i] == a[0];
      var j :| 0 <= j < |a| && a[j] == b[0];
      assert i == 0;
      forall x ensures x in a[1..] <==> x in b[1..] {
        assert x in a <==> x == a[0] || x in a[1..];
        assert x in b <==> x == b[0] || x in b[1..];
      }
      OrderUnique(entries, a[1..], b[1..]);
      assert a == [a[0]] + a[1..] && b == [b[0]] + b[1..];
    }
  }
}
