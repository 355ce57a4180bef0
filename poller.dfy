/** `checkForPendingApprovals`: one poll of the status endpoint. It reads
    the endpoint from the settings store, takes the host's answer to the
    request as an input, aggregates the pending approvals, passes the count
    through the dedup gate and returns the notification to show, if any. */
module Poller {
  import opened Wrappers
  import opened Aggregator
  import opened Summary
  import opened Dedup

  /** The part of the endpoint's JSON answer the poll reads: `success`, and
      `data.children` when `data` is present. */
  datatype StatusResponse = StatusResponse(success: bool, children: Option<seq<ChildStatus>>)

  /** What `fetch` and `response.json()` produce for the request. Every
      exception the poll swallows is `FetchFailed`: a network error, a body
      that is not JSON, a `data` whose `children` is not a list. */
  datatype FetchOutcome = FetchFailed | Fetched(response: StatusResponse)

  const StatusQuery: string := "?action=getData"

  /** How the store behaves on this poll: the `apiUrl` read, then the
      watermark read and write. */
  datatype PollIo = PollIo(apiUrlReadOk: bool, store: StoreIo)

  /** The request made (if any), the notification shown (if any) and the
      watermark stored afterwards. */
  datatype PollOutcome = PollOutcome(requested: Option<string>, shown: Option<ApprovalNotice>, stored: Option<nat>)

  /** The effect of one poll on the stored state, as a function. */
  function PollSpec(apiUrl: Option<string>, stored: Option<nat>, fetch: FetchOutcome, io: PollIo): (o: PollOutcome)
    ensures o.requested.None? ==> o.shown.None?
    ensures o.shown.None? ==> o.stored == stored
    ensures o.shown.Some? ==> o.stored.Some? && o.stored.value > ReadCount(stored, io.store.readOk)
  {
    var url := if io.apiUrlReadOk then apiUrl else None;
    if url.None? || url.value == "" then PollOutcome(None, None, stored)
    else
      var request := Some(url.value + StatusQuery);
      match fetch
      case FetchFailed => PollOutcome(request, None, stored)
      case Fetched(r) =>
        if !(r.success && r.children.Some?) then PollOutcome(request, None, stored)
        else
          var n := PendingCount(r.children.value);
          var g := Gate(stored, n, io.store);
          PollOutcome(request,
                      if g.notify then Some(SummaryNotice(n, PendingTasks(r.children.value))) else None,
                      g.stored)
  }

  /** Without a usable endpoint (none stored, an empty one, or a failed
      read) the poll requests nothing, shows nothing and stores nothing. */
  lemma NoEndpointNoRequest(apiUrl: Option<string>, stored: Option<nat>, fetch: FetchOutcome, io: PollIo)
    requires !io.apiUrlReadOk || apiUrl.None? || apiUrl == Some("")
    ensures PollSpec(apiUrl, stored, fetch, io) == PollOutcome(None, None, stored)
  {
  }

  /** A failed request, or an answer without `success` and `data`, shows
      nothing and leaves the watermark alone. */
  lemma FailedFetchChangesNothing(apiUrl: Option<string>, stored: Option<nat>, fetch: FetchOutcome, io: PollIo)
    requires fetch.FetchFailed? || !(fetch.response.success && fetch.response.children.Some?)
    ensures PollSpec(apiUrl, stored, fetch, io).shown == None
    ensures PollSpec(apiUrl, stored, fetch, io).stored == stored
  {
  }

  /** A notification is shown exactly when the snapshot's pending total is a
      positive count above the watermark read and the new watermark is
      written; it counts that total and previews its tasks. */
  lemma ShownNotice(apiUrl: Option<string>, stored: Option<nat>, children: seq<ChildStatus>, io: PollIo)
    requires io.apiUrlReadOk && apiUrl.Some? && apiUrl.value != ""
    ensures var o := PollSpec(apiUrl, stored, Fetched(StatusResponse(true, Some(children))), io);
      var n := PendingCount(children);
      && o.requested == Some(apiUrl.value + StatusQuery)
      && (o.shown.Some? <==> ShouldNotify(n, ReadCount(stored, io.store.readOk)) && io.store.writeOk)
      && (o.shown.Some? ==>
            o.stored == Some(n) &&
            o.shown.value == SummaryNotice(n, PendingTasks(children)) &&
            o.shown.value.title == Title(|PendingTasks(children)|) &&
            o.shown.value.body == Body(PendingTasks(children)))
      && (o.shown.None? ==> o.stored == stored)
  {
    GateRules(stored, PendingCount(children), io.store);
  }

  /** Polling twice in a row with the same answer never notifies twice
      when the watermark reads back. */
  lemma SecondIdenticalPollSilent(apiUrl: Option<string>, stored: Option<nat>, fetch: FetchOutcome, io: PollIo)
    requires io.store.readOk
    ensures var first := PollSpec(apiUrl, stored, fetch, io);
      first.shown.Some? ==> PollSpec(apiUrl, first.stored, fetch, io).shown.None?
  {
  }

  /** The number of notifications shown when the same poll, with the same
      answer and the same store behaviour, runs `times` times in a row. */
  function RepeatPolls(apiUrl: Option<string>, stored: Option<nat>, fetch: FetchOutcome, io: PollIo, times: nat): nat
    decreases times
  {
    if times == 0 then 0
    else
      var o := PollSpec(apiUrl, stored, fetch, io);
      (if o.shown.Some? then 1 else 0) + RepeatPolls(apiUrl, o.stored, fetch, io, times - 1)
  }

  /** A poll that shows nothing and stores nothing stays silent when repeated. */
  lemma {:induction false} RepeatSilentPolls(apiUrl: Option<string>, stored: Option<nat>, fetch: FetchOutcome, io: PollIo, times: nat)
    requires PollSpec(apiUrl, stored, fetch, io) == PollOutcome(PollSpec(apiUrl, stored, fetch, io).requested, None, stored)
    ensures RepeatPolls(apiUrl, stored, fetch, io, times) == 0
    decreases times
  {
    if times > 0 {
      RepeatSilentPolls(apiUrl, stored, fetch, io, times - 1);
    }
  }

  /** Repeated identical polls show at most one notification, however many
      run, as long as the watermark reads back. */
  lemma {:induction false} RepeatedPollsNotifyAtMostOnce(apiUrl: Option<string>, stored: Option<nat>, fetch: FetchOutcome, io: PollIo, times: nat)
    requires io.store.readOk
    ensures RepeatPolls(apiUrl, stored, fetch, io, times) <= 1
    decreases times
  {
    if times > 0 {
      var o := PollSpec(apiUrl, stored, fetch, io);
      if o.shown.Some? {
        RepeatSilentPolls(apiUrl, o.stored, fetch, io, times - 1);
      } else {
        RepeatedPollsNotifyAtMostOnce(apiUrl, o.stored, fetch, io, times - 1);
      }
    }
  }

  /** The handler: the same steps, performed on the store. */
  method CheckForPendingApprovals(store: SettingsStore, fetch: FetchOutcome, io: PollIo)
    returns (requested: Option<string>, shown: Option<ApprovalNotice>)
    modifies store`lastNotifiedCount
    ensures var o := PollSpec(old(store.apiUrl), old(store.lastNotifiedCount), fetch, io);
      requested == o.requested && shown == o.shown && store.lastNotifiedCount == o.stored
  {
    requested, shown := None, None;
    var apiUrl := store.GetApiUrl(io.apiUrlReadOk);
    if apiUrl.None? || apiUrl.value == "" {
      return;
    }
    requested := Some(apiUrl.value + StatusQuery);
    if fetch.FetchFailed? {
      return;
    }
    var result := fetch.response;
    if result.success && result.children.Some? {
      var pendingCount, pendingTasks := Aggregate(result.children.value);
      var notify := DedupGate(store, pendingCount, io.store);
      if notify {
        shown := Some(SummaryNotice(pendingCount, pendingTasks));
      }
    }
  }
}
