/** The `notificationclick` handler: what a click on a displayed
    notification does with the application's open windows. The window list
    is the host's enumeration order, each window given by its URL. */
module Router {
  import opened Wrappers
  import opened JsonValues
  import Text

  /** Substring that identifies a window of the parent application. */
  const AppMarker: string := "parent_app"
  /** Where a new window opens when the notification carries no target. */
  const FallbackUrl: string := "./parent_app.html"

  /** The window interaction a click leads to. */
  datatype Decision = NoOp | Focus(index: nat) | Open(url: Json)

  predicate IsAppWindow(url: string)
  {
    Text.Includes(url, AppMarker)
  }

  /** The index of the first application window at or after `from`. */
  function FirstAppWindow(windows: seq<string>, from: nat): Option<nat>
    requires from <= |windows|
    decreases |windows| - from
  {
    if from == |windows| then None
    else if IsAppWindow(windows[from]) then Some(from)
    else FirstAppWindow(windows, from + 1)
  }

  /** The decision for a click with button `action` on a notification whose
      `data` is `data`; `canOpen` says whether the host offers `openWindow`. */
  function RouteSpec(action: string, windows: seq<string>, data: Json, canOpen: bool): (d: Decision)
    ensures action == "dismiss" ==> d == NoOp
    ensures d.Focus? ==> d.index < |windows| && IsAppWindow(windows[d.index])
    ensures d.Open? ==> canOpen && Truthy(d.url)
  {
    FirstAppWindowSpec(windows, 0);
    if action == "dismiss" then NoOp
    else match FirstAppWindow(windows, 0)
      case Some(i) => Focus(i)
      case None => if canOpen then Open(Or(data, JStr(FallbackUrl))) else NoOp
  }

  /** `FirstAppWindow` finds the first application window, or reports that
      there is none from `from` on. */
  lemma {:induction false} FirstAppWindowSpec(windows: seq<string>, from: nat)
    requires from <= |windows|
    ensures match FirstAppWindow(windows, from)
      case Some(i) =>
        from <= i < |windows| && IsAppWindow(windows[i]) &&
        forall j :: from <= j < i ==> !IsAppWindow(windows[j])
      case None => forall j :: from <= j < |windows| ==> !IsAppWindow(windows[j])
    decreases |windows| - from
  {
    if from < |windows| && !IsAppWindow(windows[from]) {
      FirstAppWindowSpec(windows, from + 1);
    }
  }

  /** The routing rules: a dismiss never touches a window; otherwise the
      first application window is focused and nothing is opened; only when
      there is none is a window opened, at the notification's data or at
      `./parent_app.html` when the data is falsy. */
  lemma RouteSpecRules(action: string, windows: seq<string>, data: Json, canOpen: bool)
    ensures action == "dismiss" ==> RouteSpec(action, windows, data, canOpen) == NoOp
    ensures action != "dismiss" && (exists j :: 0 <= j < |windows| && IsAppWindow(windows[j])) ==>
      var d := RouteSpec(action, windows, data, canOpen);
      && d.Focus? && d.index < |windows| && IsAppWindow(windows[d.index])
      && forall j :: 0 <= j < d.index ==> !IsAppWindow(windows[j])
    ensures action != "dismiss" && (forall j :: 0 <= j < |windows| ==> !IsAppWindow(windows[j])) ==>
      RouteSpec(action, windows, data, canOpen) ==
        if canOpen then Open(if Truthy(data) then data else JStr(FallbackUrl)) else NoOp
  {
    FirstAppWindowSpec(windows, 0);
  }

  /** A notification shown without data (the pending-approval summary has
      none, so its `data` is `null`) opens `./parent_app.html` when no
      application window is open. */
  lemma NoDataOpensFallback(action: string, windows: seq<string>)
    requires action != "dismiss"
    requires forall j :: 0 <= j < |windows| ==> !IsAppWindow(windows[j])
    ensures RouteSpec(action, windows, JNull, true) == Open(JStr(FallbackUrl))
  {
    RouteSpecRules(action, windows, JNull, true);
  }

  /** The handler itself: scan the windows in order, stop at the first
      application window. */
  method Route(action: string, windows: seq<string>, data: Json, canOpen: bool) returns (d: Decision)
    ensures d == RouteSpec(action, windows, data, canOpen)
  {
    if action == "dismiss" {
      return NoOp;
    }
    var i := 0;
    while i < |windows|
      invariant 0 <= i <= |windows|
      invariant FirstAppWindow(windows, i) == FirstAppWindow(windows, 0)
    {
      if Text.Includes(windows[i], AppMarker) {
        return Focus(i);
      }
      i := i + 1;
    }
    if canOpen {
      d := Open(Or(data, JStr(FallbackUrl)));
    } else {
      d := NoOp;
    }
  }
}
