/** What the churn budget bounds on the device's own clock, and what a signer gains by signing early times. */
module ChurnBudget {
  import opened Wrappers
  import opened Churn
  import opened RosterModel

  /** How many of a signer's events, since it was last forgotten, arrived at or after `since` on the device's clock. */
  function Arrivals(events: seq<Event>, signer: string, since: int): nat {
    if events == [] then 0 else
      var past := Arrivals(events[..|events| - 1], signer, since);
      match events[|events| - 1]
      case Record(s, _, now) => if s == signer && now >= since then past + 1 else past
      case Forget(s) => if s == signer then 0 else past
  }

  /** How many of those were signed with a time before `since`. */
  function Backdated(events: seq<Event>, signer: string, since: int): nat {
    if events == [] then 0 else
      var past := Backdated(events[..|events| - 1], signer, since);
      match events[|events| - 1]
      case Record(s, signedAt, now) =>
        if s == signer && now >= since && UnixSeconds(ClampToNow(signedAt, now)) < since then past + 1 else past
      case Forget(s) => if s == signer then 0 else past
  }

  lemma {:induction false} ArrivalsSplit(events: seq<Event>, signer: string, now: int, since: int)
    requires ClockReaches(events, signer, now)
    ensures |Since(History(events, signer), since)| + Backdated(events, signer, since)
         == Arrivals(events, signer, since)
  {
    if events != [] {
      var front, e := events[..|events| - 1], events[|events| - 1];
      assert forall i :: 0 <= i < |front| ==> front[i] == events[i];
      ArrivalsSplit(front, signer, now, since);
      if e.Record? && e.signer == signer {
        SinceAppend(History(front, signer), UnixSeconds(ClampToNow(e.signedAt, e.now)), since);
      }
    }
  }

  /** The count is the number of a signer's events that arrived in the last day of the device's own clock, exactly
      when none of those was signed more than a day before the time of asking. */
  lemma SeesAllExactlyWhen(events: seq<Event>, signer: string, now: int)
    requires ClockReaches(events, signer, now)
    ensures CountInWindow(LogAfter(events), signer, now) == Arrivals(events, signer, now - CHURN_WINDOW)
       <==> Backdated(events, signer, now - CHURN_WINDOW) == 0
  {
    PrunedLogAnswersLikeHistory(events, signer, now);
    ArrivalsSplit(events, signer, now, now - CHURN_WINDOW);
  }

  /** One more event of a signer is within the budget exactly when, of its events that arrived in the last day of the
      device's own clock, fewer than five were not signed with an earlier day's time: it is a bound of five a day
      beyond those. */
  lemma WithinBudgetExactlyWhen(events: seq<Event>, signer: string, now: int)
    requires ClockReaches(events, signer, now)
    ensures !WouldExceed(LogAfter(events), signer, now)
       <==> Arrivals(events, signer, now - CHURN_WINDOW) < 5 + Backdated(events, signer, now - CHURN_WINDOW)
  {
    PrunedLogAnswersLikeHistory(events, signer, now);
    ArrivalsSplit(events, signer, now, now - CHURN_WINDOW);
  }

  /** A record uses up budget exactly when it was signed no earlier than a day ago, and not before 1970. */
  lemma RecordedCounts(log: Log, signer: string, signedAt: int, now: int)
    requires now >= 0
    ensures CountInWindow(Recorded(log, signer, signedAt, now), signer, now)
         == CountInWindow(log, signer, now) + if signedAt >= Max(0, now - CHURN_WINDOW) then 1 else 0
  {
    var at := UnixSeconds(ClampToNow(signedAt, now));
    RecordedStamps(log, signer, at, signedAt, now);
    OneMoreCounted(StampsOf(log, signer), at, now - CHURN_WINDOW);
    StampCounts(signedAt, now);
  }

  lemma OneMoreCounted(stamps: seq<int>, at: int, cutoff: int)
    ensures |Since(Since(stamps + [at], cutoff), cutoff)| == |Since(stamps, cutoff)| + if at >= cutoff then 1 else 0
  {
    SinceTwice(stamps + [at], cutoff, cutoff);
    SinceAppend(stamps, at, cutoff);
  }

  lemma StampCounts(signedAt: int, now: int)
    requires now >= 0
    ensures UnixSeconds(ClampToNow(signedAt, now)) >= now - CHURN_WINDOW <==> signedAt >= Max(0, now - CHURN_WINDOW)
  {
  }

  /** An admission spends its introducer's budget exactly when its vouch was signed within the last day. */
  lemma BudgetSpentExactlyWhen(c: Platform, r: Roster, m: Introduce, introducer: DeviceId, now: int)
    requires now >= 0 && ReceiveIntroduce(c, r, m, introducer, now).1.outcome == Admitted
    ensures CountInWindow(ReceiveIntroduce(c, r, m, introducer, now).0.churn, introducer, now)
         == CountInWindow(r.churn, introducer, now)
            + if TimestampOr(c, m.subject.joinedAt, now) >= Max(0, now - CHURN_WINDOW) then 1 else 0
  {
    AdmissionRecords(c, r, m, introducer, now);
    RecordedCounts(r.churn, introducer, TimestampOr(c, m.subject.joinedAt, now), now);
  }

  lemma AdmissionRecords(c: Platform, r: Roster, m: Introduce, introducer: DeviceId, now: int)
    requires ReceiveIntroduce(c, r, m, introducer, now).1.outcome == Admitted
    ensures ReceiveIntroduce(c, r, m, introducer, now).0.churn
         == Recorded(r.churn, introducer, TimestampOr(c, m.subject.joinedAt, now), now)
  {
  }
}
