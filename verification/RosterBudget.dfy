/** The churn budget over whole runs of a roster: which events its steps record, how many admissions the budget lets an
    introducer have in a day of the device's own clock, and what early times in vouches do to that. */
module RosterBudget {
  import opened Wrappers
  import opened RosterModel
  import opened RosterInvariants
  import opened Churn
  import opened ChurnBudget

  // ---- the log is that of the steps' events ----

  /** A change of someone else counts against its signer. */
  function Counted(c: Platform, signer: DeviceId, subject: DeviceId, text: string, now: int): seq<Event> {
    if subject == signer then [] else [Record(signer, TimestampOr(c, text, now), now)]
  }

  function ReportEvents(r: Roster, rep: SyncDevice): seq<Event> {
    if rep.deviceId in r.devices && rep.state == Removed && rep.deviceId != r.selfId && rep.deviceId !in r.tombstones
    then [Forget(rep.deviceId)] else []
  }

  function MergeEvents(r: Roster, reported: seq<SyncDevice>, epoch: nat, sender: DeviceId): seq<Event> {
    if reported == [] then [] else
      var n := |reported| - 1;
      MergeEvents(r, reported[..n], epoch, sender) + ReportEvents(MergeAll(r, reported[..n], epoch, sender).r, reported[n])
  }

  /** A record for each admission without approval and each removal of another; a signer is forgotten when buried. */
  function EventsOf(c: Platform, r: Roster, step: Step): seq<Event> {
    match step
    case DoIntroduce(m, introducer, now) =>
      if ReceiveIntroduce(c, r, m, introducer, now).1.outcome == Admitted
      then [Record(introducer, TimestampOr(c, m.subject.joinedAt, now), now)] else []
    case DoRemoveOwn(subject, _, removedAt, now) =>
      if IsActive(r, r.selfId) then Counted(c, r.selfId, subject, removedAt, now) + [Forget(subject)] else []
    case DoReceiveRemove(m, remover, now) =>
      var outcome := ReceiveRemove(c, r, m, remover, now).1.outcome;
      if outcome == RemovalApplied then Counted(c, remover, m.subject, m.removedAt, now) + [Forget(m.subject)]
      else if outcome == AlreadyRemoved then Counted(c, remover, m.subject, m.removedAt, now)
      else []
    case DoSync(m, sender) =>
      if ReceiveSync(c, r, m, sender).1.outcome.Merged? then MergeEvents(r, m.devices, m.epoch, sender) else []
    case _ => []
  }

  function RunEvents(c: Platform, start: Roster, steps: seq<Step>): seq<Event> {
    if steps == [] then [] else
      var front := steps[..|steps| - 1];
      RunEvents(c, start, front) + EventsOf(c, Run(c, start, front), steps[|steps| - 1])
  }

  function LogOn(log: Log, events: seq<Event>): Log {
    if events == [] then log else Logged(LogOn(log, events[..|events| - 1]), events[|events| - 1])
  }

  lemma LogOnOne(log: Log, more: seq<Event>, e: Event)
    ensures LogOn(log, more + [e]) == Logged(LogOn(log, more), e)
  {
    assert (more + [e])[..|more|] == more;
  }

  lemma LogOnFew(log: Log, counted: seq<Event>, e: Event)
    requires |counted| <= 1
    ensures LogOn(log, counted) == if counted == [] then log else Logged(log, counted[0])
    ensures LogOn(log, counted + [e]) == Logged(LogOn(log, counted), e)
  {
    LogOnOne(log, counted, e);
    if counted != [] {
      LogOnOne(log, [], counted[0]);
      assert counted == [] + [counted[0]];
    }
  }

  lemma {:induction false} LogAfterAppend(past: seq<Event>, more: seq<Event>)
    ensures LogAfter(past + more) == LogOn(LogAfter(past), more)
  {
    if more == [] {
      assert past + more == past;
    } else {
      var n := |more| - 1;
      LogAfterAppend(past, more[..n]);
      assert (past + more)[..|past + more| - 1] == past + more[..n];
    }
  }

  lemma {:induction false} LogOnAppend(log: Log, a: seq<Event>, b: seq<Event>)
    ensures LogOn(log, a + b) == LogOn(LogOn(log, a), b)
  {
    if b == [] {
      assert a + b == a;
    } else {
      var n := |b| - 1;
      LogOnAppend(log, a, b[..n]);
      assert (a + b)[..|a + b| - 1] == a + b[..n];
    }
  }

  lemma ReportLogs(g: Merge, rep: SyncDevice, epoch: nat, sender: DeviceId)
    ensures MergeOne(g, rep, epoch, sender).r.churn == LogOn(g.r.churn, ReportEvents(g.r, rep))
  {
    LogOnFew(g.r.churn, [], Forget(rep.deviceId));
    assert [] + [Forget(rep.deviceId)] == [Forget(rep.deviceId)];
  }

  lemma {:induction false} MergeLogs(r: Roster, reported: seq<SyncDevice>, epoch: nat, sender: DeviceId)
    ensures MergeAll(r, reported, epoch, sender).r.churn == LogOn(r.churn, MergeEvents(r, reported, epoch, sender))
  {
    if reported != [] {
      var n := |reported| - 1;
      var g := MergeAll(r, reported[..n], epoch, sender);
      MergeLogs(r, reported[..n], epoch, sender);
      ReportLogs(g, reported[n], epoch, sender);
      LogOnAppend(r.churn, MergeEvents(r, reported[..n], epoch, sender), ReportEvents(g.r, reported[n]));
    }
  }

  lemma {:induction false} ListLogsNothing(r: Roster, listed: seq<ServerDevice>)
    ensures ReconcileAll(r, listed).r.churn == r.churn
  {
    if listed != [] {
      ListLogsNothing(r, listed[..|listed| - 1]);
    }
  }

  lemma IntroduceLogs(c: Platform, r: Roster, m: Introduce, introducer: DeviceId, now: int)
    ensures ReceiveIntroduce(c, r, m, introducer, now).0.churn
         == LogOn(r.churn, EventsOf(c, r, DoIntroduce(m, introducer, now)))
  {
    LogOnFew(r.churn, EventsOf(c, r, DoIntroduce(m, introducer, now)), Forget(introducer));
  }

  lemma RemoveOwnLogs(c: Platform, r: Roster, subject: DeviceId, reason: RemovalReason, removedAt: string, now: int)
    ensures RemoveOwn(c, r, subject, reason, removedAt, now).0.churn
         == LogOn(r.churn, EventsOf(c, r, DoRemoveOwn(subject, reason, removedAt, now)))
  {
    LogOnFew(r.churn, Counted(c, r.selfId, subject, removedAt, now), Forget(subject));
  }

  lemma ReceiveRemoveLogs(c: Platform, r: Roster, m: Remove, remover: DeviceId, now: int)
    ensures ReceiveRemove(c, r, m, remover, now).0.churn
         == LogOn(r.churn, EventsOf(c, r, DoReceiveRemove(m, remover, now)))
  {
    var counted := Counted(c, remover, m.subject, m.removedAt, now);
    LogOnFew(r.churn, counted, Forget(m.subject));
    RemovalLogs(c, r.churn, m, remover, now);
    RemovalChurn(c, r, m, remover, now);
  }

  lemma RemovalLogs(c: Platform, log: Log, m: Remove, remover: DeviceId, now: int)
    ensures ChurnOfRemoval(c, log, m, remover, now) == LogOn(log, Counted(c, remover, m.subject, m.removedAt, now))
  {
    LogOnFew(log, Counted(c, remover, m.subject, m.removedAt, now), Forget(m.subject));
  }

  lemma RemovalChurn(c: Platform, r: Roster, m: Remove, remover: DeviceId, now: int)
    ensures var (q, a) := ReceiveRemove(c, r, m, remover, now);
            q.churn == if a.outcome == RemovalApplied then Forgotten(ChurnOfRemoval(c, r.churn, m, remover, now), m.subject)
                       else if a.outcome == AlreadyRemoved then ChurnOfRemoval(c, r.churn, m, remover, now)
                       else r.churn
  {
    if m.subject == r.selfId {
      SelfRemovalChurn(c, r, m, remover);
    } else {
      OtherRemovalChurn(c, r, m, remover, now);
    }
  }

  lemma SelfRemovalChurn(c: Platform, r: Roster, m: Remove, remover: DeviceId)
    ensures var (q, a) := ReceiveRemovalOfSelf(c, r, m, remover);
            q.churn == r.churn && a.outcome != RemovalApplied && a.outcome != AlreadyRemoved
  {
  }

  lemma OtherRemovalChurn(c: Platform, r: Roster, m: Remove, remover: DeviceId, now: int)
    requires m.subject != r.selfId
    ensures var (q, a) := ReceiveRemove(c, r, m, remover, now);
            || (a.outcome == RemovalApplied
                && q.churn == Forgotten(ChurnOfRemoval(c, r.churn, m, remover, now), m.subject))
            || (a.outcome == AlreadyRemoved && q.churn == ChurnOfRemoval(c, r.churn, m, remover, now))
            || (a.outcome.RefusedRemoval? && q.churn == r.churn)
  {
  }

  lemma SyncLogs(c: Platform, r: Roster, m: SyncMessage, sender: DeviceId)
    ensures ReceiveSync(c, r, m, sender).0.churn == LogOn(r.churn, EventsOf(c, r, DoSync(m, sender)))
  {
    SyncChurn(c, r, m, sender);
    if ReceiveSync(c, r, m, sender).1.outcome.Merged? {
      MergeLogs(r, m.devices, m.epoch, sender);
    }
  }

  lemma SyncChurn(c: Platform, r: Roster, m: SyncMessage, sender: DeviceId)
    ensures var (q, a) := ReceiveSync(c, r, m, sender);
            q.churn == if a.outcome.Merged? then MergeAll(r, m.devices, m.epoch, sender).r.churn else r.churn
  {
  }

  /** Approving, denying, relabelling and the server's list are not counted. */
  lemma QuietLogs(c: Platform, r: Roster, step: Step)
    requires step.DoApprove? || step.DoDeny? || step.DoLabels? || step.DoReconcile?
    ensures EventsOf(c, r, step) == [] && Next(c, r, step).0.churn == r.churn
  {
    if step.DoReconcile? {
      ListLogsNothing(r, step.listed);
    }
  }

  lemma StepLogs(c: Platform, r: Roster, step: Step)
    ensures Next(c, r, step).0.churn == LogOn(r.churn, EventsOf(c, r, step))
  {
    match step
    case DoIntroduce(m, introducer, now) => IntroduceLogs(c, r, m, introducer, now);
    case DoRemoveOwn(subject, reason, removedAt, now) => RemoveOwnLogs(c, r, subject, reason, removedAt, now);
    case DoReceiveRemove(m, remover, now) => ReceiveRemoveLogs(c, r, m, remover, now);
    case DoSync(m, sender) => SyncLogs(c, r, m, sender);
    case _ => QuietLogs(c, r, step);
  }

  /** The churn log of any run is that of the events its steps made, in order. */
  lemma {:induction false} RunLogs(c: Platform, start: Roster, steps: seq<Step>)
    requires start.churn == map[]
    ensures Run(c, start, steps).churn == LogAfter(RunEvents(c, start, steps))
  {
    if steps != [] {
      var front := steps[..|steps| - 1];
      var r := Run(c, start, front);
      RunLogs(c, start, front);
      StepLogs(c, r, steps[|steps| - 1]);
      LogAfterAppend(RunEvents(c, start, front), EventsOf(c, r, steps[|steps| - 1]));
    }
  }

  // ---- whoever is active has never been forgotten ----

  lemma {:induction false} MergeForgetsBuried(
    r: Roster, reported: seq<SyncDevice>, epoch: nat, sender: DeviceId, d: DeviceId)
    requires Forget(d) in MergeEvents(r, reported, epoch, sender)
    ensures d in MergeAll(r, reported, epoch, sender).r.tombstones
  {
    var n := |reported| - 1;
    var g := MergeAll(r, reported[..n], epoch, sender);
    if Forget(d) in MergeEvents(r, reported[..n], epoch, sender) {
      MergeForgetsBuried(r, reported[..n], epoch, sender, d);
    }
    MergeOneBuries(g, reported[n], epoch, sender, d);
  }

  lemma MergeOneBuries(g: Merge, rep: SyncDevice, epoch: nat, sender: DeviceId, d: DeviceId)
    ensures Forget(d) in ReportEvents(g.r, rep) || d in g.r.tombstones ==>
              d in MergeOne(g, rep, epoch, sender).r.tombstones
  {
  }

  lemma ForgottenIsBuried(c: Platform, r: Roster, step: Step, d: DeviceId)
    requires Forget(d) in EventsOf(c, r, step)
    ensures d in Next(c, r, step).0.tombstones
  {
    match step
    case DoSync(m, sender) => MergeForgetsBuried(r, m.devices, m.epoch, sender, d);
    case DoRemoveOwn(subject, reason, removedAt, now) => OwnRemovalBuries(c, r, subject, reason, removedAt, now);
    case DoReceiveRemove(m, remover, now) => RemovalBuries(c, r, m, remover, now);
    case _ =>
  }

  lemma OwnRemovalBuries(c: Platform, r: Roster, subject: DeviceId, reason: RemovalReason, removedAt: string, now: int)
    ensures IsActive(r, r.selfId) ==> subject in RemoveOwn(c, r, subject, reason, removedAt, now).0.tombstones
  {
  }

  lemma RemovalBuries(c: Platform, r: Roster, m: Remove, remover: DeviceId, now: int)
    ensures var (q, a) := ReceiveRemove(c, r, m, remover, now); a.outcome == RemovalApplied ==> m.subject in q.tombstones
  {
  }

  lemma {:induction false} RunForgetsBuried(c: Platform, start: Roster, steps: seq<Step>, d: DeviceId)
    requires Inv(start) && Forget(d) in RunEvents(c, start, steps)
    ensures d in Run(c, start, steps).tombstones
  {
    var front, step := steps[..|steps| - 1], steps[|steps| - 1];
    var r := Run(c, start, front);
    if Forget(d) in RunEvents(c, start, front) {
      RunForgetsBuried(c, start, front, d);
      ReachableInv(c, start, front);
      StepSound(c, r, step);
    } else {
      ForgottenIsBuried(c, r, step, d);
    }
  }

  lemma ActiveNeverForgotten(c: Platform, start: Roster, steps: seq<Step>, d: DeviceId)
    requires Inv(start) && IsActive(Run(c, start, steps), d)
    ensures Forget(d) !in RunEvents(c, start, steps)
  {
    ReachableInv(c, start, steps);
    if Forget(d) in RunEvents(c, start, steps) {
      RunForgetsBuried(c, start, steps, d);
    }
  }

  // ---- the device's own clock ----

  function TimeOf(step: Step): Option<int> {
    match step
    case DoIntroduce(_, _, now) => Some(now)
    case DoRemoveOwn(_, _, _, now) => Some(now)
    case DoReceiveRemove(_, _, now) => Some(now)
    case _ => None
  }

  /** The clock shows no time before 1970, and none later than `now`. */
  predicate ClockWithin(steps: seq<Step>, now: int) {
    now >= 0 && forall i :: 0 <= i < |steps| && TimeOf(steps[i]).Some? ==> 0 <= TimeOf(steps[i]).value <= now
  }

  predicate ClockForward(steps: seq<Step>) {
    forall i, j :: 0 <= i < j < |steps| && TimeOf(steps[i]).Some? && TimeOf(steps[j]).Some? ==>
      TimeOf(steps[i]).value <= TimeOf(steps[j]).value
  }

  predicate RecordedWithin(events: seq<Event>, now: int) {
    forall i :: 0 <= i < |events| && events[i].Record? ==> 0 <= events[i].now <= now
  }

  lemma {:induction false} MergeOnlyForgets(r: Roster, reported: seq<SyncDevice>, epoch: nat, sender: DeviceId)
    ensures forall e :: e in MergeEvents(r, reported, epoch, sender) ==> e.Forget?
  {
    if reported != [] {
      MergeOnlyForgets(r, reported[..|reported| - 1], epoch, sender);
    }
  }

  lemma StepClock(c: Platform, r: Roster, step: Step, now: int)
    requires TimeOf(step).Some? ==> 0 <= TimeOf(step).value <= now
    ensures RecordedWithin(EventsOf(c, r, step), now)
  {
    if step.DoSync? {
      MergeOnlyForgets(r, step.sync.devices, step.sync.epoch, step.sender);
      assert forall i :: 0 <= i < |EventsOf(c, r, step)| ==> EventsOf(c, r, step)[i] in EventsOf(c, r, step);
    }
  }

  lemma {:induction false} RunClock(c: Platform, start: Roster, steps: seq<Step>, now: int)
    requires ClockWithin(steps, now)
    ensures RecordedWithin(RunEvents(c, start, steps), now)
  {
    if steps != [] {
      var front := steps[..|steps| - 1];
      assert forall i :: 0 <= i < |front| ==> front[i] == steps[i];
      RunClock(c, start, front, now);
      StepClock(c, Run(c, start, front), steps[|steps| - 1], now);
    }
  }

  // ---- the budget at one moment of a run ----

  /** The count kept for a signer is the number of its events that arrived in the last day of the device's own clock,
      exactly when none of those was signed with an older time. */
  lemma RunSeesAllExactlyWhen(c: Platform, start: Roster, steps: seq<Step>, signer: DeviceId, now: int)
    requires start.churn == map[] && ClockWithin(steps, now)
    ensures var events := RunEvents(c, start, steps);
            && (CountInWindow(Run(c, start, steps).churn, signer, now) == Arrivals(events, signer, now - CHURN_WINDOW)
                <==> Backdated(events, signer, now - CHURN_WINDOW) == 0)
  {
    RunLogs(c, start, steps);
    RunClock(c, start, steps, now);
    SeesAllExactlyWhen(RunEvents(c, start, steps), signer, now);
  }

  /** After any run the next vouch is taken without asking exactly when it passes the rules, its subject is not a member
      yet, and of its introducer's admissions and removals that arrived in the last day fewer than five were signed
      within that day. */
  lemma AdmittedExactlyWhen(
    c: Platform, start: Roster, steps: seq<Step>, m: Introduce, introducer: DeviceId, now: int)
    requires start.churn == map[] && ClockWithin(steps, now)
    ensures var r, events := Run(c, start, steps), RunEvents(c, start, steps);
            && (ReceiveIntroduce(c, r, m, introducer, now).1.outcome == Admitted
                <==> && VouchRule(c, r, m, introducer).None? && !IsActive(r, m.subject.deviceId)
                     && Arrivals(events, introducer, now - CHURN_WINDOW)
                          < 5 + Backdated(events, introducer, now - CHURN_WINDOW))
  {
    RunLogs(c, start, steps);
    RunClock(c, start, steps, now);
    WithinBudgetExactlyWhen(RunEvents(c, start, steps), introducer, now);
  }

  // ---- admissions in a day ----

  /** The step takes a vouch of the introducer without asking. */
  predicate AdmitsFor(c: Platform, r: Roster, step: Step, introducer: DeviceId) {
    && step.DoIntroduce? && step.introducer == introducer
    && ReceiveIntroduce(c, r, step.message, introducer, step.now).1.outcome == Admitted
  }

  predicate SignedSince(c: Platform, step: Step, since: int)
    requires step.DoIntroduce?
  {
    TimestampOr(c, step.message.subject.joinedAt, step.now) >= Max(0, since)
  }

  /** How many vouches of an introducer were taken so, from a time on of the device's own clock. */
  function Admissions(c: Platform, start: Roster, steps: seq<Step>, introducer: DeviceId, since: int): nat {
    if steps == [] then 0 else
      var front, step := steps[..|steps| - 1], steps[|steps| - 1];
      Admissions(c, start, front, introducer, since)
        + if AdmitsFor(c, Run(c, start, front), step, introducer) && step.now >= since then 1 else 0
  }

  /** How many of them were signed from that time on. */
  function Fresh(c: Platform, start: Roster, steps: seq<Step>, introducer: DeviceId, since: int): nat {
    if steps == [] then 0 else
      var front, step := steps[..|steps| - 1], steps[|steps| - 1];
      Fresh(c, start, front, introducer, since)
        + if AdmitsFor(c, Run(c, start, front), step, introducer) && step.now >= since && SignedSince(c, step, since)
          then 1 else 0
  }

  /** How many of them were signed with an older time. */
  function Old(c: Platform, start: Roster, steps: seq<Step>, introducer: DeviceId, since: int): nat {
    if steps == [] then 0 else
      var front, step := steps[..|steps| - 1], steps[|steps| - 1];
      Old(c, start, front, introducer, since)
        + if AdmitsFor(c, Run(c, start, front), step, introducer) && step.now >= since && !SignedSince(c, step, since)
          then 1 else 0
  }

  lemma {:induction false} FreshAndOld(c: Platform, start: Roster, steps: seq<Step>, introducer: DeviceId, since: int)
    ensures Admissions(c, start, steps, introducer, since)
         == Fresh(c, start, steps, introducer, since) + Old(c, start, steps, introducer, since)
  {
    if steps != [] {
      FreshAndOld(c, start, steps[..|steps| - 1], introducer, since);
    }
  }

  lemma {:induction false} FreshNarrows(
    c: Platform, start: Roster, steps: seq<Step>, introducer: DeviceId, early: int, late: int)
    requires early <= late
    ensures Fresh(c, start, steps, introducer, late) <= Fresh(c, start, steps, introducer, early)
  {
    if steps != [] {
      FreshNarrows(c, start, steps[..|steps| - 1], introducer, early, late);
    }
  }

  // ---- every fresh admission has its stamp ----

  lemma {:induction false} HistoryGrows(past: seq<Event>, more: seq<Event>, signer: DeviceId)
    requires Forget(signer) !in more
    ensures History(past, signer) <= History(past + more, signer)
  {
    if more == [] {
      assert past + more == past;
    } else {
      var n := |more| - 1;
      HistoryGrows(past, more[..n], signer);
      assert (past + more)[..|past + more| - 1] == past + more[..n];
      assert more[n] != Forget(signer);
    }
  }

  lemma {:induction false} SinceGrows(a: seq<int>, b: seq<int>, cutoff: int)
    requires a <= b
    ensures |Since(a, cutoff)| <= |Since(b, cutoff)|
  {
    if a == b {
    } else {
      SinceGrows(a, b[..|b| - 1], cutoff);
    }
  }

  lemma AdmissionStamped(past: seq<Event>, signer: DeviceId, signedAt: int, now: int, since: int)
    requires 0 <= now && since <= now && signedAt >= Max(0, since)
    ensures |Since(History(past + [Record(signer, signedAt, now)], signer), since)|
         == |Since(History(past, signer), since)| + 1
  {
    var at := UnixSeconds(ClampToNow(signedAt, now));
    assert (past + [Record(signer, signedAt, now)])[..|past|] == past;
    SinceAppend(History(past, signer), at, since);
  }

  lemma {:induction false} FreshStamped(
    c: Platform, start: Roster, steps: seq<Step>, introducer: DeviceId, since: int, now: int)
    requires ClockWithin(steps, now) && Forget(introducer) !in RunEvents(c, start, steps)
    ensures Fresh(c, start, steps, introducer, since)
         <= |Since(History(RunEvents(c, start, steps), introducer), since)|
  {
    if steps != [] {
      var front, step := steps[..|steps| - 1], steps[|steps| - 1];
      assert forall i :: 0 <= i < |front| ==> front[i] == steps[i];
      FreshStamped(c, start, front, introducer, since, now);
      var past, more := RunEvents(c, start, front), EventsOf(c, Run(c, start, front), step);
      if AdmitsFor(c, Run(c, start, front), step, introducer) && step.now >= since && SignedSince(c, step, since) {
        AdmissionStamped(past, introducer, TimestampOr(c, step.message.subject.joinedAt, step.now), step.now, since);
      } else {
        HistoryGrows(past, more, introducer);
        SinceGrows(History(past, introducer), History(past + more, introducer), since);
      }
    }
  }

  // ---- the bound ----

  /** While an introducer is active and within its budget, fewer than five of its fresh vouches were taken in the day
      before. */
  lemma WithinBudgetFresh(c: Platform, start: Roster, steps: seq<Step>, introducer: DeviceId, now: int)
    requires Inv(start) && start.churn == map[] && ClockWithin(steps, now)
    requires IsActive(Run(c, start, steps), introducer) && !WouldExceed(Run(c, start, steps).churn, introducer, now)
    ensures Fresh(c, start, steps, introducer, now - CHURN_WINDOW) < 5
  {
    ActiveNeverForgotten(c, start, steps, introducer);
    FreshStamped(c, start, steps, introducer, now - CHURN_WINDOW, now);
    RunLogs(c, start, steps);
    RunClock(c, start, steps, now);
    StampsBelowFive(RunEvents(c, start, steps), introducer, now);
  }

  lemma AdmittedWithin(c: Platform, r: Roster, step: Step, introducer: DeviceId)
    requires AdmitsFor(c, r, step, introducer)
    ensures IsActive(r, introducer) && !WouldExceed(r.churn, introducer, step.now)
  {
  }

  lemma StampsBelowFive(events: seq<Event>, signer: DeviceId, now: int)
    requires now >= 0 && RecordedWithin(events, now) && !WouldExceed(LogAfter(events), signer, now)
    ensures |Since(History(events, signer), now - CHURN_WINDOW)| < 5
  {
    PrunedLogAnswersLikeHistory(events, signer, now);
  }

  lemma ClockUpTo(steps: seq<Step>, now: int)
    requires steps != [] && ClockWithin(steps, now) && ClockForward(steps)
    ensures var front := steps[..|steps| - 1];
            && ClockWithin(front, now) && ClockForward(front)
            && (TimeOf(steps[|steps| - 1]).Some? ==>
                  TimeOf(steps[|steps| - 1]).value <= now && ClockWithin(front, TimeOf(steps[|steps| - 1]).value))
  {
    var front := steps[..|steps| - 1];
    assert forall i :: 0 <= i < |front| ==> front[i] == steps[i];
  }

  lemma FreshStep(c: Platform, start: Roster, steps: seq<Step>, introducer: DeviceId, since: int)
    requires steps != []
    ensures var front, step := steps[..|steps| - 1], steps[|steps| - 1];
            var r := Run(c, start, front);
            || Fresh(c, start, steps, introducer, since) == Fresh(c, start, front, introducer, since)
            || (&& Fresh(c, start, steps, introducer, since) == Fresh(c, start, front, introducer, since) + 1
                && step.DoIntroduce? && IsActive(r, introducer) && !WouldExceed(r.churn, introducer, step.now))
  {
    if AdmitsFor(c, Run(c, start, steps[..|steps| - 1]), steps[|steps| - 1], introducer) {
      AdmittedWithin(c, Run(c, start, steps[..|steps| - 1]), steps[|steps| - 1], introducer);
    }
  }

  /** The budget. On any run of a roster with an empty log, a founded one or one just adopted, whose clock goes forward:
      of the vouches of one introducer taken without asking in the last day of that clock, at most five were signed
      within that day. */
  lemma {:induction false} FreshBounded(c: Platform, start: Roster, steps: seq<Step>, introducer: DeviceId, now: int)
    requires Inv(start) && start.churn == map[] && ClockWithin(steps, now) && ClockForward(steps)
    ensures Fresh(c, start, steps, introducer, now - 86400) <= 5
  {
    if steps != [] {
      var front, step := steps[..|steps| - 1], steps[|steps| - 1];
      ClockUpTo(steps, now);
      FreshStep(c, start, steps, introducer, now - CHURN_WINDOW);
      if Fresh(c, start, steps, introducer, now - CHURN_WINDOW) == Fresh(c, start, front, introducer, now - CHURN_WINDOW) {
        FreshBounded(c, start, front, introducer, now);
      } else {
        WithinBudgetFresh(c, start, front, introducer, step.now);
        FreshNarrows(c, start, front, introducer, step.now - CHURN_WINDOW, now - CHURN_WINDOW);
      }
    }
  }

  /** So the admissions of one introducer in a day stay within five exactly when those signed with older times fit into
      what the others leave of it; and always when there are none such. */
  lemma WithinFiveExactlyWhen(c: Platform, start: Roster, steps: seq<Step>, introducer: DeviceId, now: int)
    requires Inv(start) && start.churn == map[] && ClockWithin(steps, now) && ClockForward(steps)
    ensures var since := now - 86400;
            var recent, older := Fresh(c, start, steps, introducer, since), Old(c, start, steps, introducer, since);
            && recent <= 5
            && (Admissions(c, start, steps, introducer, since) <= 5 <==> older <= 5 - recent)
  {
    FreshBounded(c, start, steps, introducer, now);
    FreshAndOld(c, start, steps, introducer, now - CHURN_WINDOW);
  }

  // ---- vouches with old times ----

  /** A vouch of the introducer, signed more than a day before it arrives. */
  predicate OldVouch(c: Platform, step: Step, introducer: DeviceId) {
    step.DoIntroduce? && step.introducer == introducer && !SignedSince(c, step, step.now - CHURN_WINDOW)
  }

  lemma OldRecordUncounted(log: Log, signer: DeviceId, signedAt: int, arrived: int, now: int)
    requires 0 <= arrived <= now && signedAt < Max(0, arrived - CHURN_WINDOW)
    ensures CountInWindow(Recorded(log, signer, signedAt, arrived), signer, now) == CountInWindow(log, signer, now)
  {
    var at := UnixSeconds(ClampToNow(signedAt, arrived));
    RecordedStamps(log, signer, at, signedAt, arrived);
    StampCounts(signedAt, arrived);
    OldStampUncounted(StampsOf(log, signer), at, arrived - CHURN_WINDOW, now - CHURN_WINDOW);
  }

  lemma OldStampUncounted(stamps: seq<int>, at: int, early: int, late: int)
    requires at < early <= late
    ensures Since(Since(stamps + [at], early), late) == Since(stamps, late)
  {
    SinceTwice(stamps + [at], early, late);
    SinceAppend(stamps, at, late);
  }

  lemma OldVouchStep(c: Platform, r: Roster, step: Step, introducer: DeviceId, now: int)
    requires OldVouch(c, step, introducer) && 0 <= step.now <= now && !WouldExceed(r.churn, introducer, step.now)
    ensures var q := Next(c, r, step).0;
            q.held == r.held && CountInWindow(q.churn, introducer, now) == CountInWindow(r.churn, introducer, now)
  {
    if ReceiveIntroduce(c, r, step.message, introducer, step.now).1.outcome == Admitted {
      AdmissionRecords(c, r, step.message, introducer, step.now);
      OldRecordUncounted(r.churn, introducer, TimestampOr(c, step.message.subject.joinedAt, step.now), step.now, now);
    }
  }

  predicate OldVouches(c: Platform, start: Roster, steps: seq<Step>, introducer: DeviceId) {
    forall n :: 0 <= n < |steps| ==>
      OldVouch(c, steps[n], introducer) && !WouldExceed(start.churn, introducer, steps[n].now)
  }

  /** Vouches signed with old times spend no budget and are never held, over however many days they arrive. */
  lemma {:induction false} OldVouchesUncounted(
    c: Platform, start: Roster, steps: seq<Step>, introducer: DeviceId, now: int)
    requires OldVouches(c, start, steps, introducer) && ClockWithin(steps, now) && ClockForward(steps)
    ensures var r := Run(c, start, steps);
            && r.held == start.held
            && CountInWindow(r.churn, introducer, now) == CountInWindow(start.churn, introducer, now)
  {
    if steps != [] {
      var front, step := steps[..|steps| - 1], steps[|steps| - 1];
      assert forall n :: 0 <= n < |front| ==> front[n] == steps[n];
      ClockUpTo(steps, now);
      assert OldVouch(c, step, introducer);
      OldVouchesUncounted(c, start, front, introducer, step.now);
      OldVouchesUncounted(c, start, front, introducer, now);
      OldVouchStep(c, Run(c, start, front), step, introducer, now);
    }
  }

  /** Each of them is taken exactly when it passes the rules and its subject is not a member yet. */
  lemma OldVouchTakenExactlyWhen(c: Platform, start: Roster, steps: seq<Step>, introducer: DeviceId)
    requires steps != [] && OldVouches(c, start, steps, introducer)
    requires ClockWithin(steps, steps[|steps| - 1].now) && ClockForward(steps)
    ensures var r, step := Run(c, start, steps[..|steps| - 1]), steps[|steps| - 1];
            && (ReceiveIntroduce(c, r, step.message, introducer, step.now).1.outcome == Admitted
                <==> VouchRule(c, r, step.message, introducer).None? && !IsActive(r, step.message.subject.deviceId))
  {
    var front, step := steps[..|steps| - 1], steps[|steps| - 1];
    assert forall n :: 0 <= n < |front| ==> front[n] == steps[n];
    ClockUpTo(steps, step.now);
    assert OldVouch(c, step, introducer);
    OldVouchesUncounted(c, start, front, introducer, step.now);
  }
}
