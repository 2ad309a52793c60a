/** The churn budget: how many membership events each device signed in the last day.

    Times are seconds since 1970 and may be negative; an event signed before 1970 is stored as very old. */
module Churn {
  import opened Wrappers

  const MAX_MEMBERSHIP_EVENTS_PER_DEVICE_PER_DAY: nat := 5
  const CHURN_WINDOW: int := 86400
  const I64_MIN: int := -0x8000_0000_0000_0000

  type Log = map<string, seq<int>>

  function ClampToNow(signedAt: int, now: int): int {
    if signedAt > now then now else signedAt
  }

  function UnixSeconds(time: int): int {
    if time >= 0 then time else I64_MIN
  }

  /** The stamps at or after a cutoff. */
  function Since(stamps: seq<int>, cutoff: int): (s: seq<int>)
    ensures forall at :: at in s <==> at in stamps && at >= cutoff
  {
    if stamps == [] then [] else
      Since(stamps[..|stamps| - 1], cutoff)
        + if stamps[|stamps| - 1] >= cutoff then [stamps[|stamps| - 1]] else []
  }

  function StampsOf(log: Log, signer: string): seq<int> {
    if signer in log then log[signer] else []
  }

  function Recorded(log: Log, signer: string, signedAt: int, now: int): Log {
    var at := UnixSeconds(ClampToNow(signedAt, now));
    log[signer := Since(StampsOf(log, signer) + [at], UnixSeconds(now) - CHURN_WINDOW)]
  }

  function CountInWindow(log: Log, signer: string, now: int): nat {
    |Since(StampsOf(log, signer), UnixSeconds(now) - CHURN_WINDOW)|
  }

  predicate WouldExceed(log: Log, signer: string, now: int) {
    CountInWindow(log, signer, now) >= MAX_MEMBERSHIP_EVENTS_PER_DEVICE_PER_DAY
  }

  function Forgotten(log: Log, signer: string): Log {
    log - {signer}
  }

  // ---- the full history, never pruned ----

  datatype Event = Record(signer: string, signedAt: int, now: int) | Forget(signer: string)

  function Logged(log: Log, e: Event): Log {
    match e
    case Record(signer, signedAt, now) => Recorded(log, signer, signedAt, now)
    case Forget(signer) => Forgotten(log, signer)
  }

  function LogAfter(events: seq<Event>): Log {
    if events == [] then map[] else Logged(LogAfter(events[..|events| - 1]), events[|events| - 1])
  }

  /** Every stamp a signer earned since it was last forgotten, clamped as it arrived. */
  function History(events: seq<Event>, signer: string): seq<int> {
    if events == [] then [] else
      var past := History(events[..|events| - 1], signer);
      match events[|events| - 1]
      case Record(s, signedAt, now) =>
        if s == signer then past + [UnixSeconds(ClampToNow(signedAt, now))] else past
      case Forget(s) => if s == signer then [] else past
  }

  /** The clock never shows a time before 1970, nor, at the moment of asking, one before a recorded event. */
  predicate ClockReaches(events: seq<Event>, signer: string, now: int) {
    now >= 0 && forall i :: 0 <= i < |events| && events[i].Record? && events[i].signer == signer ==>
      0 <= events[i].now <= now
  }

  lemma SinceAppend(s: seq<int>, at: int, cutoff: int)
    ensures Since(s + [at], cutoff) == Since(s, cutoff) + if at >= cutoff then [at] else []
  {
    assert (s + [at])[..|s|] == s;
  }

  /** Pruning at one cutoff is invisible to any later cutoff. */
  lemma {:induction false} SinceTwice(s: seq<int>, early: int, late: int)
    requires early <= late
    ensures Since(Since(s, early), late) == Since(s, late)
  {
    if s != [] {
      var front, last := s[..|s| - 1], s[|s| - 1];
      SinceTwice(front, early, late);
      if last >= early {
        SinceAppend(Since(front, early), last, late);
      } else {
        assert Since(s, early) == Since(front, early) && Since(s, late) == Since(front, late);
      }
    }
  }

  lemma RecordedIsRecent(log: Log, history: seq<int>, e: Event, now: int)
    requires e.Record? && 0 <= e.now <= now
    requires Since(StampsOf(log, e.signer), now - CHURN_WINDOW) == Since(history, now - CHURN_WINDOW)
    ensures Since(StampsOf(Recorded(log, e.signer, e.signedAt, e.now), e.signer), now - CHURN_WINDOW)
         == Since(history + [UnixSeconds(ClampToNow(e.signedAt, e.now))], now - CHURN_WINDOW)
  {
    var at := UnixSeconds(ClampToNow(e.signedAt, e.now));
    RecordedStamps(log, e.signer, at, e.signedAt, e.now);
    PrunedAppend(StampsOf(log, e.signer), history, at, e.now - CHURN_WINDOW, now - CHURN_WINDOW);
  }

  lemma PrunedAppend(stamps: seq<int>, history: seq<int>, at: int, early: int, late: int)
    requires early <= late && Since(stamps, late) == Since(history, late)
    ensures Since(Since(stamps + [at], early), late) == Since(history + [at], late)
  {
    SinceTwice(stamps + [at], early, late);
    SinceAppend(stamps, at, late);
    SinceAppend(history, at, late);
  }

  lemma RecordedStamps(log: Log, signer: string, at: int, signedAt: int, now: int)
    requires at == UnixSeconds(ClampToNow(signedAt, now))
    ensures StampsOf(Recorded(log, signer, signedAt, now), signer)
         == Since(StampsOf(log, signer) + [at], UnixSeconds(now) - CHURN_WINDOW)
  {
  }

  lemma {:induction false} LogIsRecentHistory(events: seq<Event>, signer: string, now: int)
    requires ClockReaches(events, signer, now)
    ensures Since(StampsOf(LogAfter(events), signer), now - CHURN_WINDOW)
         == Since(History(events, signer), now - CHURN_WINDOW)
  {
    if events != [] {
      var front, e := events[..|events| - 1], events[|events| - 1];
      assert forall i :: 0 <= i < |front| ==> front[i] == events[i];
      LogIsRecentHistory(front, signer, now);
      if e.Record? && e.signer == signer {
        RecordedIsRecent(LogAfter(front), History(front, signer), e, now);
      }
    }
  }

  /** The pruned log answers as the whole history would: the count inside the window, and whether one more
      event would exceed the budget, are those of every event witnessed since the signer was last forgotten. */
  lemma PrunedLogAnswersLikeHistory(events: seq<Event>, signer: string, now: int)
    requires ClockReaches(events, signer, now)
    ensures CountInWindow(LogAfter(events), signer, now)
         == |Since(History(events, signer), now - CHURN_WINDOW)|
    ensures WouldExceed(LogAfter(events), signer, now)
       <==> |Since(History(events, signer), now - CHURN_WINDOW)| >= 5
  {
    LogIsRecentHistory(events, signer, now);
  }

  /** What pruning at one time hides from a question asked at another: nothing, if and only if no stamp lies
      between the two cutoffs, as one may after the device's clock is set back. */
  lemma {:induction false} PruningHidesExactly(stamps: seq<int>, prunedAt: int, askedAt: int)
    ensures |Since(Since(stamps, prunedAt), askedAt)| <= |Since(stamps, askedAt)|
    ensures |Since(Since(stamps, prunedAt), askedAt)| == |Since(stamps, askedAt)|
       <==> NoneBetween(stamps, prunedAt, askedAt)
  {
    if stamps != [] {
      var front, last := stamps[..|stamps| - 1], stamps[|stamps| - 1];
      PruningHidesExactly(front, prunedAt, askedAt);
      NoneBetweenBack(stamps, prunedAt, askedAt);
      if last >= prunedAt {
        SinceAppend(Since(front, prunedAt), last, askedAt);
      } else {
        assert Since(stamps, prunedAt) == Since(front, prunedAt);
      }
    }
  }

  /** Whatever a question would count, pruning has kept. */
  predicate NoneBetween(stamps: seq<int>, prunedAt: int, askedAt: int) {
    forall i :: 0 <= i < |stamps| && askedAt <= stamps[i] ==> prunedAt <= stamps[i]
  }

  lemma NoneBetweenBack(stamps: seq<int>, prunedAt: int, askedAt: int)
    requires stamps != []
    ensures var front, last := stamps[..|stamps| - 1], stamps[|stamps| - 1];
            && (NoneBetween(stamps, prunedAt, askedAt)
                <==> NoneBetween(front, prunedAt, askedAt) && (askedAt <= last ==> prunedAt <= last))
  {
    var n := |stamps| - 1;
    assert forall i :: 0 <= i < n ==> stamps[..n][i] == stamps[i];
    if NoneBetween(stamps, prunedAt, askedAt) {
      forall i | 0 <= i < n && askedAt <= stamps[..n][i] ensures prunedAt <= stamps[..n][i] {
        assert stamps[i] == stamps[..n][i];
      }
    }
  }

  /** Every stamp on record was earned no later than the latest recorded `now`. */
  lemma {:induction false} HistoryNotAhead(events: seq<Event>, signer: string, now: int)
    requires ClockReaches(events, signer, now)
    ensures forall at :: at in History(events, signer) ==> at <= now
  {
    if events != [] {
      assert forall i :: 0 <= i < |events| - 1 ==> events[..|events| - 1][i] == events[i];
      HistoryNotAhead(events[..|events| - 1], signer, now);
    }
  }

  lemma {:induction false} LogWithinHistory(events: seq<Event>, signer: string)
    ensures forall at :: at in StampsOf(LogAfter(events), signer) ==> at in History(events, signer)
  {
    if events != [] {
      LogWithinHistory(events[..|events| - 1], signer);
    }
  }

  /** Right after a record, everything kept for the signer lies within the last twenty-four hours. */
  lemma KeptWithinWindow(events: seq<Event>, signer: string, signedAt: int, now: int)
    requires ClockReaches(events, signer, now)
    ensures forall at :: at in StampsOf(Recorded(LogAfter(events), signer, signedAt, now), signer) ==>
              now - CHURN_WINDOW <= at <= now
  {
    HistoryNotAhead(events, signer, now);
    LogWithinHistory(events, signer);
  }

  // ---- the order of recording does not matter ----

  predicate SameStamps(a: seq<int>, b: seq<int>) {
    multiset(a) == multiset(b)
  }

  /** Two logs that hold the same stamps for the same signers, in whatever order. */
  predicate SameLog(a: Log, b: Log) {
    a.Keys == b.Keys && forall signer :: signer in a ==> SameStamps(a[signer], b[signer])
  }

  /** The log as the source keeps it, changed in place. */
  class ChurnLog {
    var events: Log

    constructor ()
      ensures events == map[]
    {
      events := map[];
    }

    method Record(signer: string, signedAt: int, now: int)
      modifies this
      ensures events == Recorded(old(events), signer, signedAt, now)
    {
      var at := UnixSeconds(ClampToNow(signedAt, now));
      var entry := if signer in events then events[signer] else [];
      entry := entry + [at];
      var cutoff := UnixSeconds(now) - CHURN_WINDOW;
      var kept: seq<int> := [];
      for i := 0 to |entry|
        invariant kept == Since(entry[..i], cutoff)
      {
        assert entry[..i + 1][..i] == entry[..i];
        if entry[i] >= cutoff {
          kept := kept + [entry[i]];
        }
      }
      assert entry[..|entry|] == entry;
      events := events[signer := kept];
    }

    method Count(signer: string, now: int) returns (n: nat)
      ensures n == CountInWindow(events, signer, now)
    {
      var cutoff := UnixSeconds(now) - CHURN_WINDOW;
      var entry := if signer in events then events[signer] else [];
      n := 0;
      for i := 0 to |entry|
        invariant n == |Since(entry[..i], cutoff)|
      {
        assert entry[..i + 1][..i] == entry[..i];
        if entry[i] >= cutoff {
          n := n + 1;
        }
      }
      assert entry[..|entry|] == entry;
    }

    method Forget(signer: string)
      modifies this
      ensures events == Forgotten(old(events), signer)
    {
      events := map s | s in events && s != signer :: events[s];
    }
  }
}
