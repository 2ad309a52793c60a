/** Sync among any number of devices: what each comes to hold after any exchanges, in any order. */
module RosterGossip {
  import opened Wrappers
  import opened RosterModel
  import opened RosterInvariants
  import opened RosterSync

  /** One device sends another its sync. */
  datatype Exchange = Exchange(from: nat, to: nat)

  predicate Among(xs: seq<Exchange>, n: nat) {
    forall i :: 0 <= i < |xs| ==> xs[i].from < n && xs[i].to < n
  }

  function Told(c: Platform, family: seq<Roster>, x: Exchange): seq<Roster>
    requires x.from < |family| && x.to < |family|
  {
    family[x.to := ReceiveSync(c, family[x.to], Sync(c, family[x.from]), family[x.from].selfId).0]
  }

  function After(c: Platform, family: seq<Roster>, xs: seq<Exchange>): (after: seq<Roster>)
    requires Among(xs, |family|)
    ensures |after| == |family|
  {
    if xs == [] then family else Told(c, After(c, family, xs[..|xs| - 1]), xs[|xs| - 1])
  }

  /** Whose views have reached a device, its own among them: directly, or through others. */
  function Heard(xs: seq<Exchange>, n: nat, j: nat): (heard: set<nat>)
    requires Among(xs, n) && j < n
    ensures j in heard && forall i :: i in heard ==> i < n
  {
    if xs == [] then {j} else
      var front, last := xs[..|xs| - 1], xs[|xs| - 1];
      Heard(front, n, j) + if last.to == j then Heard(front, n, last.from) else {}
  }

  /** Members of one family, each of which holds itself and all the others active. */
  ghost predicate Mutual(family: seq<Roster>) {
    && (forall i :: 0 <= i < |family| ==> Inv(family[i]))
    && (forall i, j :: 0 <= i < |family| && 0 <= j < |family| ==> IsActive(family[j], family[i].selfId))
  }

  /** A further device all of them know. */
  predicate Shared(family: seq<Roster>, d: DeviceId) {
    forall i :: 0 <= i < |family| ==> d in family[i].devices && d != family[i].selfId
  }

  // ---- one exchange ----

  /** A sync from `a` takes out no one `a` holds active. */
  lemma ActiveKept(c: Platform, a: Roster, b: Roster, d: DeviceId)
    requires Inv(a) && Inv(b) && IsActive(b, a.selfId) && IsActive(a, d) && IsActive(b, d)
    ensures var q := ReceiveSync(c, b, Sync(c, a), a.selfId).0; Inv(q) && q.selfId == b.selfId && IsActive(q, d)
  {
    SyncAcceptedExactlyWhen(c, b, Sync(c, a), a.selfId);
    SyncEffect(c, b, Sync(c, a), a.selfId, d);
    SyncDevicesReport(a, d);
    SyncSound(c, b, Sync(c, a), a.selfId);
  }

  lemma MutualKept(c: Platform, family: seq<Roster>, x: Exchange)
    requires Mutual(family) && x.from < |family| && x.to < |family|
    ensures var q := Told(c, family, x);
            Mutual(q) && forall i :: 0 <= i < |family| ==> q[i].selfId == family[i].selfId
  {
    var q, a, b := Told(c, family, x), family[x.from], family[x.to];
    ActiveKept(c, a, b, a.selfId);
    forall i | 0 <= i < |family| ensures IsActive(q[x.to], family[i].selfId) {
      ActiveKept(c, a, b, family[i].selfId);
    }
  }

  lemma {:induction false} AllMutual(c: Platform, family: seq<Roster>, xs: seq<Exchange>)
    requires Mutual(family) && Among(xs, |family|)
    ensures var q := After(c, family, xs);
            Mutual(q) && forall i :: 0 <= i < |family| ==> q[i].selfId == family[i].selfId
  {
    if xs != [] {
      var front := xs[..|xs| - 1];
      AllMutual(c, family, front);
      MutualKept(c, After(c, family, front), xs[|xs| - 1]);
    }
  }

  // ---- what has been heard is what is held ----

  predicate ActiveWithAll(family: seq<Roster>, heard: set<nat>, d: DeviceId) {
    forall i :: i in heard ==> i < |family| && IsActive(family[i], d)
  }

  predicate LargestEpoch(family: seq<Roster>, heard: set<nat>, e: nat) {
    && (forall i :: i in heard ==> i < |family| && family[i].epoch <= e)
    && exists i :: i in heard && i < |family| && family[i].epoch == e
  }

  /** The device is active here exactly if it was with everyone heard from, and the epoch is the largest of theirs. */
  predicate HoldsWhatWasHeard(family: seq<Roster>, heard: set<nat>, r: Roster, d: DeviceId) {
    d in r.devices && (IsActive(r, d) <==> ActiveWithAll(family, heard, d)) && LargestEpoch(family, heard, r.epoch)
  }

  lemma ActiveUnion(family: seq<Roster>, a: set<nat>, b: set<nat>, d: DeviceId)
    ensures ActiveWithAll(family, a + b, d) <==> ActiveWithAll(family, a, d) && ActiveWithAll(family, b, d)
  {
  }

  lemma LargestUnion(family: seq<Roster>, a: set<nat>, b: set<nat>, e: nat, f: nat)
    requires LargestEpoch(family, a, e) && LargestEpoch(family, b, f)
    ensures LargestEpoch(family, a + b, Max(e, f))
  {
    var i :| i in a && i < |family| && family[i].epoch == e;
    var j :| j in b && j < |family| && family[j].epoch == f;
    assert i in a + b && j in a + b;
  }

  lemma HeardTogether(
    c: Platform, family: seq<Roster>, a: Roster, b: Roster, heardByA: set<nat>, heardByB: set<nat>, d: DeviceId)
    requires HoldsWhatWasHeard(family, heardByA, a, d) && HoldsWhatWasHeard(family, heardByB, b, d)
    requires Inv(a) && Inv(b) && IsActive(b, a.selfId) && d != b.selfId
    ensures HoldsWhatWasHeard(family, heardByB + heardByA, ReceiveSync(c, b, Sync(c, a), a.selfId).0, d)
  {
    HalfExchange(c, a, b, d);
    ActiveUnion(family, heardByB, heardByA, d);
    LargestUnion(family, heardByB, heardByA, b.epoch, a.epoch);
  }

  lemma HeldNext(
    c: Platform, family: seq<Roster>, now: seq<Roster>, x: Exchange, heardBySender: set<nat>, heard: set<nat>, d: DeviceId)
    requires Mutual(now) && x.from < |now| && x.to < |now| && d != now[x.to].selfId
    requires HoldsWhatWasHeard(family, heardBySender, now[x.from], d) && HoldsWhatWasHeard(family, heard, now[x.to], d)
    ensures HoldsWhatWasHeard(family, heard + heardBySender, Told(c, now, x)[x.to], d)
  {
    HeardTogether(c, family, now[x.from], now[x.to], heardBySender, heard, d);
  }

  lemma HeardAfter(xs: seq<Exchange>, n: nat, j: nat)
    requires xs != [] && Among(xs, n) && j < n
    ensures var front, last := xs[..|xs| - 1], xs[|xs| - 1];
            Heard(xs, n, j) == if last.to == j then Heard(front, n, j) + Heard(front, n, last.from) else Heard(front, n, j)
  {
  }

  lemma AfterNext(c: Platform, family: seq<Roster>, xs: seq<Exchange>, j: nat)
    requires xs != [] && Among(xs, |family|) && j < |family|
    ensures var before, last := After(c, family, xs[..|xs| - 1]), xs[|xs| - 1];
            After(c, family, xs)[j] == if last.to == j then Told(c, before, last)[j] else before[j]
  {
  }

  /** Gossip. Among any number of members who hold each other active, after any exchanges, each device's epoch is the
      largest of those it has heard from, itself included, and it holds a further device active exactly if all of those
      did at the start. */
  lemma {:induction false} HeldIsHeard(c: Platform, family: seq<Roster>, xs: seq<Exchange>, j: nat, d: DeviceId)
    requires Mutual(family) && Shared(family, d) && Among(xs, |family|) && j < |family|
    ensures HoldsWhatWasHeard(family, Heard(xs, |family|, j), After(c, family, xs)[j], d)
  {
    if xs == [] {
      HeardNothing(family, j, d);
    } else {
      var front, last := xs[..|xs| - 1], xs[|xs| - 1];
      HeldIsHeard(c, family, front, j, d);
      HeardAfter(xs, |family|, j);
      AfterNext(c, family, xs, j);
      if last.to == j {
        HeldIsHeard(c, family, front, last.from, d);
        AllMutual(c, family, front);
        HeldNext(c, family, After(c, family, front), last, Heard(front, |family|, last.from), Heard(front, |family|, j), d);
      }
    }
  }

  lemma HeardNothing(family: seq<Roster>, j: nat, d: DeviceId)
    requires j < |family| && d in family[j].devices
    ensures HoldsWhatWasHeard(family, {j}, family[j], d)
  {
    assert j in {j};
  }

  lemma OneLargest(family: seq<Roster>, heard: set<nat>, e: nat, f: nat)
    requires LargestEpoch(family, heard, e) && LargestEpoch(family, heard, f)
    ensures e == f
  {
  }

  /** Two members that have heard from the same members agree. */
  lemma HeardAlikeAgree(c: Platform, family: seq<Roster>, xs: seq<Exchange>, j: nat, k: nat, d: DeviceId)
    requires Mutual(family) && Shared(family, d) && Among(xs, |family|) && j < |family| && k < |family|
    requires Heard(xs, |family|, j) == Heard(xs, |family|, k)
    ensures var q := After(c, family, xs); q[j].epoch == q[k].epoch && (IsActive(q[j], d) <==> IsActive(q[k], d))
  {
    HeldIsHeard(c, family, xs, j, d);
    HeldIsHeard(c, family, xs, k, d);
    var q := After(c, family, xs);
    OneLargest(family, Heard(xs, |family|, j), q[j].epoch, q[k].epoch);
  }

  // ---- everyone hears from everyone ----

  function Everyone(n: nat): (all: set<nat>)
    ensures forall i: nat :: i in all <==> i < n
  {
    if n == 0 then {} else Everyone(n - 1) + {n - 1}
  }

  /** All the others tell the first; then the first tells the others. */
  function Gather(m: nat): seq<Exchange> {
    if m == 0 then [] else Gather(m - 1) + [Exchange(m - 1, 0)]
  }

  function Spread(m: nat): seq<Exchange> {
    if m == 0 then [] else Spread(m - 1) + [Exchange(0, m - 1)]
  }

  function Rounds(n: nat): seq<Exchange> {
    Gather(n) + Spread(n)
  }

  lemma HeardAppend(xs: seq<Exchange>, x: Exchange, n: nat, j: nat)
    requires Among(xs, n) && x.from < n && x.to < n && j < n
    ensures Among(xs + [x], n)
    ensures Heard(xs + [x], n, j) == Heard(xs, n, j) + if x.to == j then Heard(xs, n, x.from) else {}
  {
    assert (xs + [x])[..|xs|] == xs;
  }

  lemma {:induction false} FirstHearsAll(m: nat, n: nat)
    requires m <= n && n > 0
    ensures Among(Gather(m), n) && Everyone(m) <= Heard(Gather(m), n, 0)
  {
    if m > 0 {
      FirstHearsAll(m - 1, n);
      HeardAppend(Gather(m - 1), Exchange(m - 1, 0), n, 0);
      assert m - 1 in Heard(Gather(m - 1), n, m - 1);
    }
  }

  lemma AllIsAll(heard: set<nat>, n: nat)
    requires Everyone(n) <= heard && forall i :: i in heard ==> i < n
    ensures heard == Everyone(n)
  {
  }

  lemma FirstKnowsAll(n: nat)
    requires n > 0
    ensures Among(Gather(n), n) && Heard(Gather(n), n, 0) == Everyone(n)
  {
    FirstHearsAll(n, n);
    AllIsAll(Heard(Gather(n), n, 0), n);
  }

  /** Being told by one who has heard from all is hearing from all. */
  lemma ToldAll(xs: seq<Exchange>, x: Exchange, n: nat, j: nat)
    requires Among(xs, n) && x.from < n && x.to < n && j < n && Heard(xs, n, x.from) == Everyone(n)
    ensures Among(xs + [x], n)
    ensures Heard(xs + [x], n, j) == if x.to == j then Everyone(n) else Heard(xs, n, j)
  {
    HeardAppend(xs, x, n, j);
    if x.to == j {
      AllIsAll(Heard(xs + [x], n, j), n);
    }
  }

  lemma {:induction false} OthersHearAll(m: nat, n: nat, j: nat)
    requires m <= n && n > 0 && j < n
    ensures Among(Gather(n) + Spread(m), n)
    ensures j < m || j == 0 ==> Heard(Gather(n) + Spread(m), n, j) == Everyone(n)
  {
    if m == 0 {
      FirstKnowsAll(n);
      assert Gather(n) + Spread(0) == Gather(n);
    } else {
      OthersHearAll(m - 1, n, j);
      OthersHearAll(m - 1, n, 0);
      SpreadNext(m, n);
      ToldAll(Gather(n) + Spread(m - 1), Exchange(0, m - 1), n, j);
    }
  }

  lemma SpreadNext(m: nat, n: nat)
    requires m > 0
    ensures Gather(n) + Spread(m) == Gather(n) + Spread(m - 1) + [Exchange(0, m - 1)]
  {
  }

  /** After two rounds of a family of any size all members agree: on the largest epoch, and on every further device,
      which is active where everyone held it active before, and nowhere else. */
  lemma RoundsConverge(c: Platform, family: seq<Roster>, j: nat, d: DeviceId)
    requires Mutual(family) && Shared(family, d) && j < |family|
    ensures Among(Rounds(|family|), |family|)
    ensures HoldsWhatWasHeard(family, Everyone(|family|), After(c, family, Rounds(|family|))[j], d)
  {
    OthersHearAll(|family|, |family|, j);
    HeldIsHeard(c, family, Rounds(|family|), j, d);
  }
}
