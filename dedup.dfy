/** The deduplication watermark: the persisted `lastNotifiedCount` and the
    check-then-write that decides whether a pending count is new enough to
    notify about. */
module Dedup {
  import opened Wrappers

  /** How the store's requests turn out for one poll: whether reading
      `lastNotifiedCount` succeeds, and whether writing it completes. A read
      that fails resolves to 0; a write that fails never resolves, so the
      poll waiting on it shows nothing. */
  datatype StoreIo = StoreIo(readOk: bool, writeOk: bool)

  /** `getLastNotifiedCount()`: the stored count, or 0 when it is absent or
      the read fails (`get.result || 0`, `resolve(0)` on error). */
  function ReadCount(stored: Option<nat>, readOk: bool): (n: nat)
    ensures !readOk || stored.None? ==> n == 0
    ensures readOk && stored.Some? ==> n == stored.value
  {
    if readOk && stored.Some? then stored.value else 0
  }

  /** The policy: notify about a positive count that exceeds the last one
      notified about. */
  predicate ShouldNotify(pendingCount: nat, lastNotified: nat)
  {
    pendingCount > 0 && pendingCount > lastNotified
  }

  /** Whether the poll goes on to show a notification, and what is stored. */
  datatype GateResult = GateResult(notify: bool, stored: Option<nat>)

  /** The poll's gate: no read for a zero count; otherwise read the
      watermark, and for a larger count write it before notifying. */
  function Gate(stored: Option<nat>, pendingCount: nat, io: StoreIo): (g: GateResult)
    ensures g.notify ==> ShouldNotify(pendingCount, ReadCount(stored, io.readOk)) && g.stored == Some(pendingCount)
    ensures !g.notify ==> g.stored == stored
  {
    if pendingCount == 0 then GateResult(false, stored)
    else if pendingCount > ReadCount(stored, io.readOk) then
      if io.writeOk then GateResult(true, Some(pendingCount)) else GateResult(false, stored)
    else GateResult(false, stored)
  }

  /** The gate notifies iff the policy says so and the write completes; the
      watermark then becomes the count, and otherwise it is unchanged. */
  lemma GateRules(stored: Option<nat>, pendingCount: nat, io: StoreIo)
    ensures var g := Gate(stored, pendingCount, io);
      && (g.notify <==> ShouldNotify(pendingCount, ReadCount(stored, io.readOk)) && io.writeOk)
      && (g.notify ==> g.stored == Some(pendingCount))
      && (!g.notify ==> g.stored == stored)
  {
  }

  /** One poll as the gate sees it: the count computed and how the store behaved. */
  datatype Poll = Poll(count: nat, io: StoreIo)

  /** How many notifications a series of polls shows, and the final watermark. */
  datatype RunResult = RunResult(notices: nat, stored: Option<nat>)

  function Run(stored: Option<nat>, polls: seq<Poll>): RunResult
    decreases |polls|
  {
    if |polls| == 0 then RunResult(0, stored)
    else
      var g := Gate(stored, polls[0].count, polls[0].io);
      var rest := Run(g.stored, polls[1..]);
      RunResult(rest.notices + (if g.notify then 1 else 0), rest.stored)
  }

  /** True iff every poll reads the watermark successfully. */
  predicate ReadsSucceed(polls: seq<Poll>)
  {
    forall i :: 0 <= i < |polls| ==> polls[i].io.readOk
  }

  /** True iff every poll computes the count `n`. */
  predicate AllCount(polls: seq<Poll>, n: nat)
  {
    forall i :: 0 <= i < |polls| ==> polls[i].count == n
  }

  /** Counts at or below a watermark that reads back never notify. */
  lemma {:induction false} NothingAtOrBelowWatermark(stored: Option<nat>, polls: seq<Poll>, n: nat)
    requires ReadsSucceed(polls) && AllCount(polls, n)
    requires n <= ReadCount(stored, true)
    ensures Run(stored, polls) == RunResult(0, stored)
    decreases |polls|
  {
    if |polls| > 0 {
      NothingAtOrBelowWatermark(stored, polls[1..], n);
    }
  }

  /** Repeating a poll with the same count notifies at most once, however
      often it runs, as long as the watermark reads back. */
  lemma {:induction false} RepeatNotifiesAtMostOnce(stored: Option<nat>, polls: seq<Poll>, n: nat)
    requires ReadsSucceed(polls) && AllCount(polls, n)
    ensures Run(stored, polls).notices <= 1
    decreases |polls|
  {
    if |polls| > 0 {
      var g := Gate(stored, polls[0].count, polls[0].io);
      if g.notify {
        NothingAtOrBelowWatermark(g.stored, polls[1..], n);
      } else {
        RepeatNotifiesAtMostOnce(g.stored, polls[1..], n);
      }
    }
  }

  /** While reads succeed the watermark never goes down: there is no reset,
      not even when the count returns to 0. */
  lemma {:induction false} WatermarkNeverDecreases(stored: Option<nat>, polls: seq<Poll>)
    requires ReadsSucceed(polls)
    ensures ReadCount(Run(stored, polls).stored, true) >= ReadCount(stored, true)
    decreases |polls|
  {
    if |polls| > 0 {
      WatermarkNeverDecreases(Gate(stored, polls[0].count, polls[0].io).stored, polls[1..]);
    }
  }

  /** The watermark's history on the counts 5, 5, 3, 7, 0 from an empty
      store: notifications for 5 and 7 only, ending at 7. */
  lemma ExampleRun()
    ensures var ok := StoreIo(true, true);
      Run(None, [Poll(5, ok), Poll(5, ok), Poll(3, ok), Poll(7, ok), Poll(0, ok)]) == RunResult(2, Some(7))
  {
    var ok := StoreIo(true, true);
    var ps := [Poll(5, ok), Poll(5, ok), Poll(3, ok), Poll(7, ok), Poll(0, ok)];
    assert Run(Some(7), ps[4..]) == RunResult(0, Some(7));
    assert ps[3..][1..] == ps[4..];
    assert Run(Some(5), ps[3..]) == RunResult(1, Some(7));
    assert ps[2..][1..] == ps[3..];
    assert Run(Some(5), ps[2..]) == RunResult(1, Some(7));
    assert ps[1..][1..] == ps[2..];
    assert Run(Some(5), ps[1..]) == RunResult(1, Some(7));
  }

  /** Without a reset, a count that drops to 0 and comes back to the same
      value is not notified again. */
  lemma NoRenoticeAfterZero()
    ensures var ok := StoreIo(true, true);
      Run(None, [Poll(4, ok), Poll(0, ok), Poll(4, ok)]) == RunResult(1, Some(4))
  {
    var ok := StoreIo(true, true);
    var ps := [Poll(4, ok), Poll(0, ok), Poll(4, ok)];
    assert Run(Some(4), ps[2..]) == RunResult(0, Some(4));
    assert ps[1..][1..] == ps[2..];
    assert Run(Some(4), ps[1..]) == RunResult(0, Some(4));
  }

  /** A failed read makes the watermark look like 0, so an unchanged count
      is notified again and the stored value can even go down. */
  lemma FailedReadRenotifies()
    ensures Gate(Some(5), 5, StoreIo(false, true)) == GateResult(true, Some(5))
    ensures Gate(Some(5), 3, StoreIo(false, true)) == GateResult(true, Some(3))
  {
  }

  /** The persisted settings store: the `apiUrl` written by the app (read
      only here) and the `lastNotifiedCount` watermark. */
  class SettingsStore {
    var apiUrl: Option<string>
    var lastNotifiedCount: Option<nat>

    constructor (apiUrl: Option<string>, lastNotifiedCount: Option<nat>)
      ensures this.apiUrl == apiUrl && this.lastNotifiedCount == lastNotifiedCount
    {
      this.apiUrl := apiUrl;
      this.lastNotifiedCount := lastNotifiedCount;
    }

    /** `getApiUrl()`: the stored endpoint, or nothing when the read fails. */
    method GetApiUrl(readOk: bool) returns (url: Option<string>)
      ensures readOk ==> url == apiUrl
      ensures !readOk ==> url == None
    {
      if readOk {
        url := apiUrl;
      } else {
        url := None;
      }
    }

    /** `getLastNotifiedCount()`. */
    method GetLastNotifiedCount(readOk: bool) returns (n: nat)
      ensures n == ReadCount(lastNotifiedCount, readOk)
    {
      n := 0;
      if readOk {
        match lastNotifiedCount
        case Some(v) => n := v;
        case None =>
      }
    }

    /** `setLastNotifiedCount(count)`: `completed` is false when the write
        never completes, and then nothing is stored. */
    method SetLastNotifiedCount(count: nat, writeOk: bool) returns (completed: bool)
      modifies this`lastNotifiedCount
      ensures completed == writeOk
      ensures lastNotifiedCount == if writeOk then Some(count) else old(lastNotifiedCount)
    {
      completed := writeOk;
      if writeOk {
        lastNotifiedCount := Some(count);
      }
    }
  }

  /** The read-modify-write of the poll, performed on the store. */
  method DedupGate(store: SettingsStore, pendingCount: nat, io: StoreIo) returns (notify: bool)
    modifies store`lastNotifiedCount
    ensures var g := Gate(old(store.lastNotifiedCount), pendingCount, io);
      notify == g.notify && store.lastNotifiedCount == g.stored
  {
    notify := false;
    if pendingCount > 0 {
      var lastNotified := store.GetLastNotifiedCount(io.readOk);
      if pendingCount > lastNotified {
        notify := store.SetLastNotifiedCount(pendingCount, io.writeOk);
      }
    }
  }
}
