# Cub Stars parent service worker: notification dispatch and deduplication

This project models the core of the parent app's service worker,
`parent_sw.js`, which decides what notifications to show and how to route
clicks on them. The browser glue is taken out. What remains is four pieces
of deterministic logic, written in Dafny and proved:

- **Push payload resolver** (`push.dfy`, module `PushResolver`). A push
  message starts from a fixed descriptor. A parsed JSON payload is spread
  over it. A body that does not parse replaces only `body`. The click
  target is `url || './'`. The handler's `data` object is a
  `map<string, Json>`, so the spread is map union. Spreading a non-object
  payload copies only index properties ("0", "1", …), as JavaScript does.
- **Approval aggregator** (`aggregator.dfy`, module `Aggregator`). A method
  with nested loops computes the running total and the `(child, task)`
  list. It is proved equal to the recursive functions `PendingCount` and
  `PendingTasks`. Lemmas about those functions state the count/length
  agreement and the exact position of every approval.
- **Dedup gate** (`dedup.dfy`, module `Dedup`). The persisted settings are a
  class `SettingsStore` with fields `apiUrl` and `lastNotifiedCount`. The
  gate's read-modify-write is a method on the store. It is proved against
  the pure function `Gate`. Lemmas over runs of polls show two things that
  hold while the watermark reads back: a repeated count notifies at most
  once, and the watermark never decreases. A failed read reads as 0, so
  neither holds across failed reads (`Dedup.FailedReadRenotifies`).
- **Summary text and click routing** (`summary.dfy`, `router.dfy`). These
  cover the pluralised title, the body that previews three items, and the
  router that focuses the first `parent_app` window or opens one.
- `poller.dfy` (module `Poller`) wires these parts into
  `checkForPendingApprovals`.
- `text.dfy` models the JavaScript string operations that the worker uses:
  number-to-decimal conversion, `join` and `includes`.
- `json.dfy` models parsed JSON values and JavaScript truthiness.

Host effects are returned as decision values instead of being performed:

- The push handler returns a `ShowRequest`.
- The router returns a `Decision` (`NoOp | Focus(index) | Open(url)`).
- The poll returns the URL it requests and the `ApprovalNotice` it shows,
  if any.

Inputs the host supplies are parameters:

- the answer to `fetch` + `response.json()` (`FetchOutcome`);
- whether each store request succeeds (`PollIo`, `StoreIo`);
- the list of open window URLs;
- whether `clients.openWindow` exists.

## Behaviour worth noting

- Defaults fill only missing properties. A payload can still blank a
  displayed field, for example with `"title": ""`
  (`PushResolver.PayloadCanBlankTitle`).
- `setLastNotifiedCount` has no error handler, so its promise never
  resolves when the write fails. The poll then never reaches
  `showNotification`. The model shows nothing and keeps the old watermark.
- The watermark is never reset when the count returns to 0
  (`Dedup.NoRenoticeAfterZero`, `Dedup.WatermarkNeverDecreases`).

## Model

| member | source | states |
|---|---|---|
| `JsonValues.Or` | parent_sw.js:51 | `a \|\| b` yields `a` when truthy, else `b`; the result is truthy iff either operand is |
| `Text.ParseNatToString` | parent_sw.js:129 | the decimal text of the count reads back as the count |
| `Text.NatToStringInjective` | parent_sw.js:129 | different counts get different decimal texts |
| `Text.JoinAt` | parent_sw.js:127 | each part of `join` appears unchanged at its offset |
| `Text.JoinSepAt` | parent_sw.js:127 | every part but the last is followed by the separator |
| `Text.JoinLength` | parent_sw.js:127 | the joined text ends right after the last part |
| `Text.IncludesIff` | parent_sw.js:71 | `includes` is true iff the substring occurs at some position |
| `PushResolver.IndexKeyed` | parent_sw.js:37 | spreading an array-like value gives its elements under the digit keys "0", "1", … and nothing else |
| `PushResolver.Spread` | parent_sw.js:37 | a non-object payload contributes only all-digit keys |
| `PushResolver.Resolve` | parent_sw.js:20-41 | every default property is still present after the payload is applied |
| `PushResolver.Show` | parent_sw.js:43-52 | the request shows the descriptor's title, body and tag, and its data is always truthy |
| `PushResolver.PushNotification` | parent_sw.js:17-54 | the displayed data is always truthy; an unparsable body is shown as the raw text; with no data the title and tag are the defaults |
| `PushResolver.ClickData` | parent_sw.js:51 | the click target is `url` when truthy, otherwise `'./'`, and it is always truthy |
| `PushResolver.NoDataShowsDefaults` | parent_sw.js:20-31 | with no push data the request is the fixed default: title, body, icon, badge, tag `cubstars-notification`, `requireInteraction` true, buttons open then dismiss, target `'./'` |
| `PushResolver.ObjectPayloadMerges` | parent_sw.js:34-37 | shallow merge: present payload properties replace defaults, absent ones keep them, keys are the union |
| `PushResolver.UnparsableChangesOnlyBody` | parent_sw.js:38-40 | a body that fails to parse changes only `body`, which becomes the raw text |
| `PushResolver.NonObjectPayloadShowsDefaults` | parent_sw.js:36-52 | JSON that is not an object (array, string, number, boolean, null) leaves the displayed notification at its default |
| `PushResolver.ClickTargetFromPayload` | parent_sw.js:51 | the displayed data is the payload's truthy `url`, otherwise `'./'` |
| `PushResolver.PayloadCanBlankTitle` | parent_sw.js:37 | defaults only fill missing properties: a payload can set an empty title |
| `Router.RouteSpec` | parent_sw.js:62-78 | dismiss gives no interaction; a focused index is an app window; a window is opened only when `openWindow` exists, and at a truthy target |
| `Router.FirstAppWindowSpec` | parent_sw.js:70-74 | the search returns the first window whose URL contains `parent_app`, or reports that none does |
| `Router.RouteSpecRules` | parent_sw.js:62-78 | dismiss does nothing; otherwise the first app window is focused, and only when there is none is a window opened at `data`, or at `./parent_app.html` when `data` is falsy |
| `Router.NoDataOpensFallback` | parent_sw.js:77 | a notification without data (the approval summary) opens `./parent_app.html` when no app window exists |
| `Router.Route` | parent_sw.js:62-78 | the scanning loop with early return equals the routing specification |
| `Aggregator.ChildTasks` | parent_sw.js:113-118 | a child contributes one `(child name, task name)` pair per approval, in approval order |
| `Aggregator.PendingCount` | parent_sw.js:107-112 | the total is 0 iff no child has a pending approval |
| `Aggregator.PendingTasks` | parent_sw.js:108-118 | the task list has exactly `pendingCount` entries |
| `Aggregator.PendingCountAppend` | parent_sw.js:110-112 | the total is additive over consecutive children |
| `Aggregator.PendingTasksAppend` | parent_sw.js:110-118 | the task list of consecutive children is the concatenation of their lists |
| `Aggregator.TaskAt` | parent_sw.js:110-118 | approval `j` of child `i` is at position (approvals before child `i`) + `j`: child order, then approval order |
| `Aggregator.TaskOrigin` | parent_sw.js:110-118 | every task-list position belongs to some child's approval |
| `Aggregator.Aggregate` | parent_sw.js:107-120 | the nested loop computes the total and the list of the recursive specification, and the two agree in size |
| `Summary.PreviewCount` | parent_sw.js:127 | `slice(0, 3)` keeps all items when there are at most three, else three |
| `Summary.Preview` | parent_sw.js:127 | the previewed items are the first `min(3, n)` tasks rendered as `child: task` |
| `Summary.Title` | parent_sw.js:129 | the title starts with the clipboard prefix and ends with ` Waiting!` |
| `Summary.Body` | parent_sw.js:127-130 | no tasks give an empty body; more than three end the body with `...` |
| `Summary.SummaryNotice` | parent_sw.js:129-137 | the notice carries the title and body built from the count and the tasks, the tag `pending-approvals`, `requireInteraction`, and one `open` button |
| `Summary.SummaryNoticeFields` | parent_sw.js:129-137 | the fixed fields are the check-mark icon, tag `pending-approvals`, `requireInteraction` true and the single button open / "📱 Review Now"; the tag is the same for every summary, so a new one replaces the one displayed |
| `Summary.TitlePlural` | parent_sw.js:129 | the title ends in `s Waiting!` iff the count is greater than 1 |
| `Summary.TitleShowsCount` | parent_sw.js:129 | the title is the clipboard prefix followed by the count's decimal digits, which read back as the count |
| `Summary.BodyItemAt` | parent_sw.js:127-130 | each previewed task appears rendered at its place in the body, separated from the next by `, ` |
| `Summary.BodyTail` | parent_sw.js:130 | after the last previewed item the body holds `...` iff there are more than three tasks, and nothing otherwise |
| `Summary.BodyIgnoresLaterTasks` | parent_sw.js:127-130 | tasks beyond the third never affect the body |
| `Dedup.ReadCount` | parent_sw.js:165-178 | an absent value or a failed read gives 0; otherwise the stored count |
| `Dedup.Gate` | parent_sw.js:122-125 | a notification implies a positive count above the watermark read and stores the count; otherwise the watermark is unchanged |
| `Dedup.GateRules` | parent_sw.js:122-125 | notify iff `pendingCount > 0 && pendingCount > lastNotified` and the write completes; the watermark becomes the count on notify and stays unchanged otherwise |
| `Dedup.NothingAtOrBelowWatermark` | parent_sw.js:122-124 | counts at or below a readable watermark never notify and change nothing |
| `Dedup.RepeatNotifiesAtMostOnce` | parent_sw.js:122-125 | any number of polls with the same count notify at most once while reads succeed |
| `Dedup.WatermarkNeverDecreases` | parent_sw.js:122-125 | while reads succeed the watermark only grows; there is no reset at 0 |
| `Dedup.ExampleRun` | parent_sw.js:122-125 | counts 5, 5, 3, 7, 0 from an empty store notify for 5 and 7 and end at 7 |
| `Dedup.NoRenoticeAfterZero` | parent_sw.js:122-125 | a count that drops to 0 and returns to the same value is not notified again |
| `Dedup.FailedReadRenotifies` | parent_sw.js:173-176 | a failed read reads as 0, so an unchanged count re-notifies and a smaller one overwrites the watermark |
| `Dedup.SettingsStore.constructor` | parent_sw.js:147-191 | the store starts with the given endpoint and watermark |
| `Dedup.SettingsStore.GetApiUrl` | parent_sw.js:147-163 | the stored endpoint, or nothing when the read fails |
| `Dedup.SettingsStore.GetLastNotifiedCount` | parent_sw.js:165-178 | the stored watermark, 0 when absent or on error |
| `Dedup.SettingsStore.SetLastNotifiedCount` | parent_sw.js:180-191 | a completed write stores the count, and a failed write stores nothing and never completes |
| `Dedup.DedupGate` | parent_sw.js:122-125 | the read-modify-write on the store equals `Gate` on the old watermark |
| `Poller.PollSpec` | parent_sw.js:98-144 | without a request nothing is shown; when nothing is shown the watermark is unchanged; a shown notice stores a count above the watermark read |
| `Poller.NoEndpointNoRequest` | parent_sw.js:100-101 | with no endpoint, an empty one or a failed read, no request is made, nothing is shown and nothing is stored |
| `Poller.FailedFetchChangesNothing` | parent_sw.js:103-106 | a failed request or an answer without `success` and `data` shows nothing and keeps the watermark |
| `Poller.ShownNotice` | parent_sw.js:106-138 | the request goes to `apiUrl + '?action=getData'`; a notice is shown iff the gate's policy holds and the write completes, and it is then the summary notice of the snapshot's count and tasks |
| `Poller.SecondIdenticalPollSilent` | parent_sw.js:122-125 | a poll repeated with the same answer right after a notification does not notify again while reads succeed |
| `Poller.RepeatSilentPolls` | parent_sw.js:98-144 | a poll that shows and stores nothing stays silent however often it repeats |
| `Poller.RepeatedPollsNotifyAtMostOnce` | parent_sw.js:98-144 | any number of identical polls show at most one notification while the watermark reads back |
| `Poller.CheckForPendingApprovals` | parent_sw.js:98-144 | the handler's request, notice and new watermark are those of the poll specification |

## Left out

- Install and activate handlers, `skipWaiting` and `clients.claim`
  (parent_sw.js:5-14): lifecycle glue with no logic.
- The `sync` and `periodicsync` handlers (parent_sw.js:84-95): each is a
  string comparison on the event tag before calling the poll.
- `console.log`/`console.error` and `event.notification.close()`: side
  effects with no bearing on any decision.
- IndexedDB plumbing (parent_sw.js:147-191): opening the database, the
  upgrade callback and transactions are browser APIs. Only their observable
  contract is kept: a read yields the value or the default, and a write
  stores or never completes (`StoreIo`, `PollIo`).
- `fetch` and `response.json()`: network I/O. The host's answer is a
  `FetchOutcome` input, not derived from the requested URL. Every exception
  that the `try`/`catch` swallows is `FetchFailed`. This includes a `data`
  whose `children` is not a list.
- `showNotification`, `clients.matchAll`, `focus` and `openWindow` as
  effects: the model returns what would be requested. A failure of the
  un-awaited `showNotification` in the poll is not modelled.
- Concurrency: overlapping polls that race on `lastNotifiedCount` are
  host-scheduled asynchrony. Each poll is modelled as one atomic step.
- JavaScript numbers are modelled as integers. Floating point, `NaN` and
  `-0` are not represented.
- Type coercion: non-string titles and URLs are passed through as JSON
  values. How `showNotification` or `openWindow` would coerce them is not
  modelled.
- Router.Route: windows are given only by their URL. The `'focus' in client`
  test is taken as always true, as it is for every window client.
- Aggregator.ChildStatus: a child without `pendingApprovals` is modelled
  with an empty list, which the source skips in the same way. A missing
  `taskName`, which JavaScript would render as `undefined`, is not
  representable.
- Aggregator.ChildStatus: a missing `child.name`, or an approval entry that
  is not an object, would render as `undefined` in the body. Neither is
  representable: names and task names are always strings.
- Dedup.SettingsStore: a watermark read that hangs is not modelled. If
  `db.transaction` throws inside `onsuccess`, the promise never resolves,
  but `StoreIo` only lets a read fail and give 0.
- Dedup.SettingsStore: `apiUrl` is only ever a string or absent. Stored
  values of other types are not modelled.
- The exact SVG data URIs and emoji are fixed string constants.
