/** A founded family in which one member's nineteen vouches of a day, all signed with an old time, are all taken. */
module RosterBudgetWitness {
  import opened Wrappers
  import opened RosterModel
  import opened RosterInvariants
  import opened RosterProvenance
  import opened RosterWitness
  import opened ChurnBudget
  import opened RosterBudget
  import Churn

  /** Every key is usable, every vouch verifies, and every time reads as the first second of 1970. */
  ghost predicate Backdating(c: Platform) {
    && (forall k :: c.usable(k)) && (forall k, m :: c.vouchVerifies(k, m)) && (forall t :: c.readTime(t) == Some(0))
  }

  function LongAgo(): Platform {
    Platform(k => true, (k, m) => true, (k, m) => true, (epoch, devices) => "", text => Some(0))
  }

  lemma BackdatingExists()
    ensures Backdating(LongAgo())
  {
  }

  function Gathering(n: nat, now: int): Step {
    DoIntroduce(VouchFor(Id(n), "k"), Id(0), now)
  }

  /** The founder vouches for one device after another, all at one time. */
  function Gatherings(n: nat, now: int): seq<Step> {
    if n == 0 then [] else Gatherings(n - 1, now) + [Gathering(n, now)]
  }

  /** The founder and `n` others, all active, no one held, and none of it on the founder's count. */
  ghost predicate Gathered(r: Roster, n: nat, now: int) {
    && r.tombstones == map[] && r.held == map[] && ActiveCount(r) == n + 1 && Members(r, n)
    && Churn.CountInWindow(r.churn, Id(0), now) == 0
  }

  lemma OldVouchAdmitted(c: Platform, r: Roster, n: nat, now: int)
    requires Backdating(c) && Gathered(r, n, now) && n < 19
    ensures ReceiveIntroduce(c, r, VouchFor(Id(n + 1), "k"), Id(0), now)
         == (Admit(r.(churn := Churn.Recorded(r.churn, Id(0), 0, now)), Someone(Id(n + 1), "k"), Id(0)),
             Applied(Admitted, JoinedLedger(Someone(Id(n + 1), "k"), Id(0))))
  {
    NotMember(r, n, n + 1);
    assert IsActive(r, Id(0));
  }

  lemma OneMoreGathered(r: Roster, n: nat, now: int)
    requires Gathered(r, n, now) && now > Churn.CHURN_WINDOW
    ensures Gathered(Admit(r.(churn := Churn.Recorded(r.churn, Id(0), 0, now)), Someone(Id(n + 1), "k"), Id(0)), n + 1, now)
  {
    var log := Churn.Recorded(r.churn, Id(0), 0, now);
    NotMember(r, n, n + 1);
    RecordedCounts(r.churn, Id(0), 0, now);
    MembersStep(r, n, log, Id(0));
    AdmitCount(r, Admit(r.(churn := log), Someone(Id(n + 1), "k"), Id(0)), Id(n + 1));
  }

  lemma GatheringStep(c: Platform, r: Roster, n: nat, now: int)
    requires Backdating(c) && Gathered(r, n, now) && n < 19 && now > Churn.CHURN_WINDOW
    ensures Gathered(Next(c, r, Gathering(n + 1, now)).0, n + 1, now)
    ensures AdmitsFor(c, r, Gathering(n + 1, now), Id(0))
  {
    OldVouchAdmitted(c, r, n, now);
    OneMoreGathered(r, n, now);
  }

  lemma FounderGathered(now: int)
    ensures Gathered(Founder(), 0, now)
  {
    FounderGrown(now);
    assert Vouches(0, 0) == 0;
  }

  lemma AdmissionsAppend(c: Platform, start: Roster, steps: seq<Step>, step: Step, introducer: DeviceId, since: int)
    requires AdmitsFor(c, Run(c, start, steps), step, introducer) && step.now >= since
    ensures Admissions(c, start, steps + [step], introducer, since) == Admissions(c, start, steps, introducer, since) + 1
  {
    assert (steps + [step])[..|steps|] == steps;
  }

  lemma GatheringNext(c: Platform, start: Roster, steps: seq<Step>, n: nat, now: int)
    requires Backdating(c) && n < 19 && now > Churn.CHURN_WINDOW && Gathered(Run(c, start, steps), n, now)
    ensures var more := steps + [Gathering(n + 1, now)];
            && Gathered(Run(c, start, more), n + 1, now)
            && Admissions(c, start, more, Id(0), now - Churn.CHURN_WINDOW)
                 == Admissions(c, start, steps, Id(0), now - Churn.CHURN_WINDOW) + 1
  {
    GatheringStep(c, Run(c, start, steps), n, now);
    RunAppend(c, start, steps, Gathering(n + 1, now));
    AdmissionsAppend(c, start, steps, Gathering(n + 1, now), Id(0), now - Churn.CHURN_WINDOW);
  }

  /** Up to the size cap, all of the founder's vouches are taken at one moment, without asking, and its count stays at
      nothing. */
  lemma {:induction false} FounderGathers(c: Platform, n: nat, now: int)
    requires Backdating(c) && n <= 19 && now > Churn.CHURN_WINDOW
    ensures var steps := Gatherings(n, now);
            && Gathered(Run(c, Founder(), steps), n, now)
            && Admissions(c, Founder(), steps, Id(0), now - Churn.CHURN_WINDOW) == n
  {
    if n == 0 {
      FounderGathered(now);
    } else {
      FounderGathers(c, n - 1, now);
      GatheringNext(c, Founder(), Gatherings(n - 1, now), n - 1, now);
    }
  }
}
