/** Runs from a founded family on which the exceptions to the size cap and to the permanence of keys occur. */
module RosterWitness {
  import opened Wrappers
  import opened Decimals
  import opened RosterModel
  import opened RosterInvariants
  import opened RosterProvenance
  import Churn
  import ChurnBudget

  /** A platform to which every key is usable, every signature good, and every signed time unreadable. */
  ghost predicate Trusting(c: Platform) {
    && (forall k :: c.usable(k)) && (forall k, m :: c.vouchVerifies(k, m)) && (forall t :: c.readTime(t) == None)
  }

  function Lenient(): Platform {
    Platform(k => true, (k, m) => true, (k, m) => true, (epoch, devices) => "", text => None)
  }

  lemma TrustingExists()
    ensures Trusting(Lenient())
  {
  }

  function Id(i: nat): DeviceId {
    "d" + Decimal(i)
  }

  lemma IdsApart(i: nat, j: nat)
    ensures Id(i) == Id(j) <==> i == j
  {
    if Id(i) == Id(j) {
      assert Id(i)[1..] == Decimal(i) && Id(j)[1..] == Decimal(j);
      DecimalInjective(i, j);
    }
  }

  function Someone(d: DeviceId, key: string): Subject {
    Subject(d, key, "", "", "", "")
  }

  function VouchFor(d: DeviceId, key: string): Introduce {
    Introduce(Someone(d, key), 0, "")
  }

  /** Each member vouches for five: devices one to five are the founder's, six to ten the first's, and so on. */
  function Recruit(n: nat, now: int): Step
    requires n > 0
  {
    DoIntroduce(VouchFor(Id(n), "k"), Id((n - 1) / 5), now)
  }

  function Recruits(n: nat, now: int): seq<Step> {
    if n == 0 then [] else Recruits(n - 1, now) + [Recruit(n, now)]
  }

  /** How many vouches of the `j`-th device are among the first `n`. */
  function Vouches(n: nat, j: nat): nat {
    if n < 5 * j then 0 else Min(n - 5 * j, 5)
  }

  ghost predicate Members(r: Roster, n: nat) {
    && (forall i: nat :: i <= n ==> IsActive(r, Id(i)))
    && (forall d :: d in r.devices ==> exists i: nat :: i <= n && d == Id(i))
  }

  ghost predicate Budgets(log: Churn.Log, n: nat, now: int) {
    forall j: nat :: Churn.CountInWindow(log, Id(j), now) == Vouches(n, j)
  }

  /** The founder and `n` others, all active, each having used as much of its budget as it vouched for. */
  ghost predicate Grown(r: Roster, n: nat, now: int) {
    && r.tombstones == map[] && ActiveCount(r) == n + 1 && Members(r, n) && Budgets(r.churn, n, now)
  }

  // ---- one more member ----

  lemma RecordedCount(log: Churn.Log, signer: string, now: int, k: string)
    requires now >= 0
    ensures Churn.CountInWindow(Churn.Recorded(log, signer, now, now), k, now)
         == Churn.CountInWindow(log, k, now) + if k == signer then 1 else 0
  {
    if k == signer {
      ChurnBudget.RecordedCounts(log, k, now, now);
    }
  }

  lemma VouchesStep(n: nat, j: nat)
    ensures Vouches(n, n / 5) < 5
    ensures Vouches(n + 1, j) == Vouches(n, j) + if j == n / 5 then 1 else 0
  {
  }

  lemma BudgetsStep(log: Churn.Log, n: nat, now: int)
    requires Budgets(log, n, now) && now >= 0
    ensures Budgets(Churn.Recorded(log, Id(n / 5), now, now), n + 1, now)
  {
    forall j: nat
      ensures Churn.CountInWindow(Churn.Recorded(log, Id(n / 5), now, now), Id(j), now) == Vouches(n + 1, j)
    {
      RecordedCount(log, Id(n / 5), now, Id(j));
      VouchesStep(n, j);
      IdsApart(j, n / 5);
    }
  }

  lemma NotMember(r: Roster, n: nat, i: nat)
    requires Members(r, n) && i > n
    ensures Id(i) !in r.devices
  {
    if Id(i) in r.devices {
      var j: nat :| j <= n && Id(i) == Id(j);
      IdsApart(i, j);
    }
  }

  lemma MembersStep(r: Roster, n: nat, log: Churn.Log, introducer: DeviceId)
    requires Members(r, n)
    ensures Members(Admit(r.(churn := log), Someone(Id(n + 1), "k"), introducer), n + 1)
  {
    var q := Admit(r.(churn := log), Someone(Id(n + 1), "k"), introducer);
    forall d | d in q.devices ensures exists i: nat :: i <= n + 1 && d == Id(i) {
      if d != Id(n + 1) {
        var i: nat :| i <= n && d == Id(i);
        assert i <= n + 1;
      }
    }
  }

  /** A stranger vouched for by a member with budget left, below the cap, is admitted. */
  lemma Admits(c: Platform, r: Roster, d: DeviceId, key: string, introducer: DeviceId, now: int)
    requires Trusting(c) && r.tombstones == map[] && IsActive(r, introducer) && d !in r.devices
    requires ActiveCount(r) < MAX_ACTIVE_DEVICES && Churn.CountInWindow(r.churn, introducer, now) < 5
    ensures Next(c, r, DoIntroduce(VouchFor(d, key), introducer, now)).0
         == Admit(r.(churn := Churn.Recorded(r.churn, introducer, now, now)), Someone(d, key), introducer)
  {
  }

  /** One vouched for by a member whose budget is used up is held. */
  lemma Holds(c: Platform, r: Roster, d: DeviceId, key: string, introducer: DeviceId, now: int)
    requires Trusting(c) && r.tombstones == map[] && IsActive(r, introducer) && d !in r.devices
    requires ActiveCount(r) < MAX_ACTIVE_DEVICES && Churn.CountInWindow(r.churn, introducer, now) == 5
    ensures Next(c, r, DoIntroduce(VouchFor(d, key), introducer, now)).0
         == r.(held := r.held[d := Held(VouchFor(d, key), introducer, 5)])
  {
  }

  lemma AdmittedGrows(r: Roster, n: nat, introducer: DeviceId, now: int)
    requires Grown(r, n, now) && introducer == Id(n / 5) && now >= 0
    ensures Grown(Admit(r.(churn := Churn.Recorded(r.churn, introducer, now, now)), Someone(Id(n + 1), "k"), introducer),
                  n + 1, now)
  {
    var log := Churn.Recorded(r.churn, introducer, now, now);
    NotMember(r, n, n + 1);
    BudgetsStep(r.churn, n, now);
    MembersStep(r, n, log, introducer);
    AdmitCount(r, Admit(r.(churn := log), Someone(Id(n + 1), "k"), introducer), Id(n + 1));
  }

  lemma RecruitGrows(c: Platform, r: Roster, n: nat, now: int)
    requires Trusting(c) && Grown(r, n, now) && n < 19 && now >= 0
    ensures var q := Next(c, r, Recruit(n + 1, now)).0; Grown(q, n + 1, now) && q.held == r.held
  {
    RecruitAdmitted(c, r, n, now);
    AdmittedGrows(r, n, Id(n / 5), now);
  }

  lemma RecruitAdmitted(c: Platform, r: Roster, n: nat, now: int)
    requires Trusting(c) && Grown(r, n, now) && n < 19 && now >= 0
    ensures Next(c, r, Recruit(n + 1, now)).0
         == Admit(r.(churn := Churn.Recorded(r.churn, Id(n / 5), now, now)), Someone(Id(n + 1), "k"), Id(n / 5))
  {
    NotMember(r, n, n + 1);
    VouchesStep(n, n / 5);
    assert IsActive(r, Id(n / 5));
    Admits(c, r, Id(n + 1), "k", Id(n / 5), now);
  }

  lemma RunAppend(c: Platform, start: Roster, steps: seq<Step>, step: Step)
    ensures Run(c, start, steps + [step]) == Next(c, Run(c, start, steps), step).0
  {
    assert (steps + [step])[..|steps|] == steps;
  }

  function Founder(): Roster {
    Found(Someone(Id(0), "k"))
  }

  lemma FounderGrown(now: int)
    ensures Grown(Founder(), 0, now)
  {
    assert ActiveSet(Founder()) == {Id(0)};
    assert Members(Founder(), 0);
  }

  lemma {:induction false} RecruitsGrow(c: Platform, n: nat, now: int)
    requires Trusting(c) && n <= 19 && now >= 0
    ensures Grown(Run(c, Founder(), Recruits(n, now)), n, now)
  {
    if n == 0 {
      FounderGrown(now);
    } else {
      RecruitsGrow(c, n - 1, now);
      RecruitGrows(c, Run(c, Founder(), Recruits(n - 1, now)), n - 1, now);
      RunAppend(c, Founder(), Recruits(n - 1, now), Recruit(n, now));
    }
  }

  lemma Outsider(r: Roster, n: nat)
    requires Members(r, n)
    ensures "x" !in r.devices
  {
    forall i: nat ensures Id(i) != "x" {
      IdStarts(i);
    }
  }

  lemma IdStarts(i: nat)
    ensures Id(i)[0] == 'd'
  {
  }

  // ---- the size cap ----

  /** Eighteen join, the founder's sixth vouch of the day is held, a nineteenth joins, and the held one is approved. */
  function CapRun(now: int): seq<Step> {
    Recruits(18, now) + [DoIntroduce(VouchFor("x", "k"), Id(0), now)] + [Recruit(19, now)] + [DoApprove("x")]
  }

  lemma ApprovedJoins(r: Roster, d: DeviceId, m: Introduce, introducer: DeviceId, n: nat)
    requires d in r.held && r.held[d] == Held(m, introducer, n) && m.subject.deviceId == d
    requires IsActive(r, introducer) && d !in r.tombstones && !IsActive(r, d)
    ensures ActiveCount(ApproveHeld(r, d).0) == ActiveCount(r) + 1
  {
    AdmitCount(r, ApproveHeld(r, d).0, d);
  }

  /** After the founder's five vouches a sixth is held, and nothing else changes. */
  lemma SixthIsHeld(c: Platform, r: Roster, n: nat, key: string, now: int)
    requires Trusting(c) && Grown(r, n, now) && 5 <= n < 19
    ensures var q := Next(c, r, DoIntroduce(VouchFor("x", key), Id(0), now)).0;
            Grown(q, n, now) && "x" in q.held && q.held["x"] == Held(VouchFor("x", key), Id(0), 5)
  {
    Outsider(r, n);
    assert IsActive(r, Id(0)) && Vouches(n, 0) == 5;
    Holds(c, r, "x", key, Id(0), now);
    HoldingGrown(r, Next(c, r, DoIntroduce(VouchFor("x", key), Id(0), now)).0, n, now);
  }

  lemma FullWithOneHeld(c: Platform, now: int)
    requires Trusting(c) && now >= 0
    ensures var steps := CapRun(now);
            var full := Run(c, Founder(), steps[..|steps| - 1]);
            && Grown(full, 19, now) && "x" in full.held && full.held["x"] == Held(VouchFor("x", "k"), Id(0), 5)
  {
    var steps, hold, join := Recruits(18, now), DoIntroduce(VouchFor("x", "k"), Id(0), now), Recruit(19, now);
    RecruitsGrow(c, 18, now);
    SixthIsHeld(c, Run(c, Founder(), steps), 18, "k", now);
    RunAppend(c, Founder(), steps, hold);
    RecruitGrows(c, Run(c, Founder(), steps + [hold]), 18, now);
    RunAppend(c, Founder(), steps + [hold], join);
    assert CapRun(now)[..|CapRun(now)| - 1] == steps + [hold] + [join];
  }

  /** The founded family has twenty-one active devices. */
  lemma CapIsBroken(c: Platform, now: int)
    requires Trusting(c) && now >= 0
    ensures ActiveCount(Run(c, Founder(), CapRun(now))) == 21
  {
    var front := CapRun(now)[..|CapRun(now)| - 1];
    var full := Run(c, Founder(), front);
    FullWithOneHeld(c, now);
    Outsider(full, 19);
    ApprovedJoins(full, "x", VouchFor("x", "k"), Id(0), 5);
    RunAppend(c, Founder(), front, DoApprove("x"));
    assert CapRun(now) == front + [DoApprove("x")];
  }

  lemma HoldingGrown(r: Roster, q: Roster, n: nat, now: int)
    requires Grown(r, n, now) && q == r.(held := q.held)
    ensures Grown(q, n, now)
  {
    assert ActiveSet(q) == ActiveSet(r);
  }

  // ---- identity keys ----

  /** Five join, the founder's sixth vouch of the day is held, another member's vouch for the same device, with another
      key, is taken, and the held one is approved. */
  function KeyRun(now: int): seq<Step> {
    Recruits(5, now) + [DoIntroduce(VouchFor("x", "old"), Id(0), now)]
    + [DoIntroduce(VouchFor("x", "new"), Id(1), now)] + [DoApprove("x")]
  }

  /** A held vouch naming one key, and a record under another: approval puts the record under the first. */
  lemma ApprovalSwaps(c: Platform, r: Roster, now: int) returns (before: Roster)
    requires Trusting(c) && Grown(r, 5, now)
    requires "x" in r.held && r.held["x"] == Held(VouchFor("x", "old"), Id(0), 5)
    ensures before == Next(c, r, DoIntroduce(VouchFor("x", "new"), Id(1), now)).0
    ensures IsActive(before, "x") && before.devices["x"].identityPk == "new"
    ensures var after := ApproveHeld(before, "x").0; IsActive(after, "x") && after.devices["x"].identityPk == "old"
  {
    Outsider(r, 5);
    assert Vouches(5, 1) == 0 && IsActive(r, Id(1)) && IsActive(r, Id(0));
    Admits(c, r, "x", "new", Id(1), now);
    before := Next(c, r, DoIntroduce(VouchFor("x", "new"), Id(1), now)).0;
    IdStarts(0);
    assert IsActive(before, Id(0));
  }

  /** The device, active all along since the second vouch, has changed keys. */
  lemma KeyIsChanged(c: Platform, now: int)
    requires Trusting(c) && now >= 0
    ensures var steps := KeyRun(now);
            var before, after := Run(c, Founder(), steps[..|steps| - 1]), Run(c, Founder(), steps);
            && IsActive(before, "x") && before.devices["x"].identityPk == "new"
            && IsActive(after, "x") && after.devices["x"].identityPk == "old"
  {
    var steps := Recruits(5, now);
    var hold, take := DoIntroduce(VouchFor("x", "old"), Id(0), now), DoIntroduce(VouchFor("x", "new"), Id(1), now);
    RecruitsGrow(c, 5, now);
    SixthIsHeld(c, Run(c, Founder(), steps), 5, "old", now);
    RunAppend(c, Founder(), steps, hold);
    var before := ApprovalSwaps(c, Run(c, Founder(), steps + [hold]), now);
    RunAppend(c, Founder(), steps + [hold], take);
    RunAppend(c, Founder(), steps + [hold] + [take], DoApprove("x"));
    assert KeyRun(now)[..|KeyRun(now)| - 1] == steps + [hold] + [take];
  }
}
