/** Runs from a founded family in which two removals, received in one order or the other, leave different rosters. */
module RosterOrderWitness {
  import opened Wrappers
  import opened RosterModel
  import opened RosterInvariants
  import opened RosterCommute
  import opened RosterOrder
  import opened RosterWitness
  import Churn

  ghost predicate Believing(c: Platform) {
    Trusting(c) && forall k, m :: c.removalVerifies(k, m)
  }

  lemma BelievingExists()
    ensures Believing(Lenient())
  {
  }

  function Eviction(d: DeviceId, epoch: nat): Remove {
    Remove(d, RemovedByMember, "", epoch, "")
  }

  /** The founder and three others. */
  lemma FourMembers(c: Platform, now: int)
    requires Trusting(c) && now >= 0
    ensures var r := Run(c, Founder(), Recruits(3, now));
            && Inv(r) && r.selfId == Id(0) && r.epoch == 0 && r.tombstones == map[]
            && IsActive(r, Id(1)) && IsActive(r, Id(2)) && IsActive(r, Id(3))
  {
    RecruitsGrow(c, 3, now);
    FoundInv(Someone(Id(0), "k"));
    ReachableInv(c, Founder(), Recruits(3, now));
    RecruitsKeepEpoch(c, 3, now);
  }

  lemma {:induction false} RecruitsKeepEpoch(c: Platform, n: nat, now: int)
    ensures Run(c, Founder(), Recruits(n, now)).epoch == 0
  {
    if n > 0 {
      RecruitsKeepEpoch(c, n - 1, now);
      RunAppend(c, Founder(), Recruits(n - 1, now), Recruit(n, now));
      VouchKeepsEpoch(c, Run(c, Founder(), Recruits(n - 1, now)), Recruit(n, now));
    }
  }

  lemma VouchKeepsEpoch(c: Platform, r: Roster, step: Step)
    requires step.DoIntroduce?
    ensures Next(c, r, step).0.epoch == r.epoch
  {
  }

  lemma TwoMore(c: Platform, steps: seq<Step>, m1: Remove, r1: DeviceId, m2: Remove, r2: DeviceId, now: int)
    ensures Run(c, Founder(), steps + [DoReceiveRemove(m1, r1, now)] + [DoReceiveRemove(m2, r2, now)])
         == Both(c, Run(c, Founder(), steps), m1, r1, m2, r2, now)
  {
    RunAppend(c, Founder(), steps, DoReceiveRemove(m1, r1, now));
    RunAppend(c, Founder(), steps + [DoReceiveRemove(m1, r1, now)], DoReceiveRemove(m2, r2, now));
  }

  /** The first evicts the second, the second evicts the third: the third stays if the first is heard first. */
  lemma ThirdStaysOrNot(c: Platform, r: Roster, first: DeviceId, second: DeviceId, third: DeviceId, now: int)
    requires Believing(c) && Inv(r) && r.tombstones == map[] && IsActive(r, first) && IsActive(r, second)
    requires IsActive(r, third) && r.selfId != second && r.selfId != third && second != third && first != third
    ensures IsActive(Both(c, r, Eviction(second, 1), first, Eviction(third, 1), second, now), third)
    ensures !IsActive(Both(c, r, Eviction(third, 1), second, Eviction(second, 1), first, now), third)
  {
    RemoveParts(c, r, Eviction(second, 1), first, now);
    SignerBuried(c, r, Eviction(second, 1), first, Eviction(third, 1), second, now);
    RemoveParts(c, r, Eviction(third, 1), second, now);
    RemoveParts(c, ReceiveRemove(c, r, Eviction(third, 1), second, now).0, Eviction(second, 1), first, now);
  }

  lemma MemberLostOrKept(c: Platform, now: int)
    requires Believing(c) && now >= 0
    ensures var steps := Recruits(3, now);
            var one, two := DoReceiveRemove(Eviction(Id(2), 1), Id(1), now), DoReceiveRemove(Eviction(Id(3), 1), Id(2), now);
            && IsActive(Run(c, Founder(), steps + [one] + [two]), Id(3))
            && !IsActive(Run(c, Founder(), steps + [two] + [one]), Id(3))
  {
    FourMembers(c, now);
    IdsApart(0, 2);
    IdsApart(0, 3);
    IdsApart(2, 3);
    IdsApart(1, 3);
    TwoMore(c, Recruits(3, now), Eviction(Id(2), 1), Id(1), Eviction(Id(3), 1), Id(2), now);
    TwoMore(c, Recruits(3, now), Eviction(Id(3), 1), Id(2), Eviction(Id(2), 1), Id(1), now);
    ThirdStaysOrNot(c, Run(c, Founder(), Recruits(3, now)), Id(1), Id(2), Id(3), now);
  }

  /** Two members evict a third under epochs one and two: the roster comes out at whichever is heard first. */
  lemma EpochTells(c: Platform, now: int)
    requires Believing(c) && now >= 0
    ensures var steps := Recruits(3, now);
            var one, two := DoReceiveRemove(Eviction(Id(3), 1), Id(1), now), DoReceiveRemove(Eviction(Id(3), 2), Id(2), now);
            && Run(c, Founder(), steps + [one] + [two]).epoch == 1
            && Run(c, Founder(), steps + [two] + [one]).epoch == 2
  {
    FourMembers(c, now);
    IdsApart(0, 3);
    TwoMore(c, Recruits(3, now), Eviction(Id(3), 1), Id(1), Eviction(Id(3), 2), Id(2), now);
    TwoMore(c, Recruits(3, now), Eviction(Id(3), 2), Id(2), Eviction(Id(3), 1), Id(1), now);
    FirstEpochStays(c, Run(c, Founder(), Recruits(3, now)), Eviction(Id(3), 1), Id(1), Eviction(Id(3), 2), Id(2), now);
    FirstEpochStays(c, Run(c, Founder(), Recruits(3, now)), Eviction(Id(3), 2), Id(2), Eviction(Id(3), 1), Id(1), now);
  }

  lemma FirstEpochStays(c: Platform, r: Roster, m1: Remove, r1: DeviceId, m2: Remove, r2: DeviceId, now: int)
    requires m1.subject == m2.subject != r.selfId && Buries(c, r, m1, r1)
    ensures Both(c, r, m1, r1, m2, r2, now).epoch == Max(r.epoch, m1.epoch)
  {
    RemoveParts(c, r, m1, r1, now);
    RemoveParts(c, ReceiveRemove(c, r, m1, r1, now).0, m2, r2, now);
  }
}
