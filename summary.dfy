/** The text of the pending-approval notification: a title that counts the
    pending tasks, and a body previewing the first three of them. */
module Summary {
  import opened Aggregator
  import Text

  const TitlePrefix: string := "\U{1F4CB} "
  const SummaryIcon: string :=
    "data:image/svg+xml,<svg xmlns=\"http://www.w3.org/2000/svg\" viewBox=\"0 0 100 100\"><text y=\".9em\" font-size=\"90\">\U{2705}</text></svg>"
  const SummaryTag: string := "pending-approvals"
  /** How many tasks the body names. */
  const PreviewLimit: nat := 3
  const ItemSeparator: string := ", "
  const TruncationMark: string := "..."

  /** `'📋 ' + count + ' Task' + (count > 1 ? 's' : '') + ' Waiting!'` */
  function Title(count: nat): (t: string)
    ensures |TitlePrefix| < |t| && t[..|TitlePrefix|] == TitlePrefix
    ensures |t| >= 9 && t[|t| - 9..] == " Waiting!"
  {
    TitlePrefix + Text.NatToString(count) + " Task" + (if count > 1 then "s" else "") + " Waiting!"
  }

  /** `t.childName + ': ' + t.taskName` */
  function Render(t: PendingTask): string
  {
    t.childName + ": " + t.taskName
  }

  /** How many items `slice(0, 3)` keeps of `n`. */
  function PreviewCount(n: nat): (k: nat)
    ensures k <= n && k <= PreviewLimit
    ensures k == n || k == PreviewLimit
  {
    if n < PreviewLimit then n else PreviewLimit
  }

  /** The rendered items the body shows. */
  function Preview(tasks: seq<PendingTask>): (ps: seq<string>)
    ensures |ps| == PreviewCount(|tasks|)
    ensures forall i :: 0 <= i < |ps| ==> ps[i] == Render(tasks[i])
  {
    seq(PreviewCount(|tasks|), i requires 0 <= i < PreviewCount(|tasks|) => Render(tasks[i]))
  }

  /** `taskList + (pendingTasks.length > 3 ? '...' : '')` */
  function Body(tasks: seq<PendingTask>): (b: string)
    ensures |tasks| == 0 ==> b == ""
    ensures |tasks| > PreviewLimit ==> |b| >= |TruncationMark| && b[|b| - |TruncationMark|..] == TruncationMark
  {
    Text.Join(Preview(tasks), ItemSeparator) + (if |tasks| > PreviewLimit then TruncationMark else "")
  }

  /** The title ends in "s Waiting!" exactly when more than one task is
      pending: the plural is used iff the count exceeds 1. */
  lemma TitlePlural(count: nat)
    ensures |Title(count)| >= 10
    ensures Title(count)[|Title(count)| - 10..] == "s Waiting!" <==> count > 1
  {
    var t := Title(count);
    var head := TitlePrefix + Text.NatToString(count) + " Tas";
    if count > 1 {
      assert t == head + "ks Waiting!";
      assert t[|t| - 10..] == "s Waiting!";
    } else {
      assert t == head + "k Waiting!";
      assert t[|t| - 10..] == "k Waiting!";
    }
  }

  /** The title starts with the clipboard prefix followed by the count in
      decimal, and that number reads back as the count. */
  lemma TitleShowsCount(count: nat)
    ensures var n := Text.NatToString(count); var t := Title(count);
      && |TitlePrefix| + |n| <= |t|
      && t[..|TitlePrefix|] == TitlePrefix
      && Text.AllDigits(t[|TitlePrefix|..|TitlePrefix| + |n|])
      && Text.ParseDecimal(t[|TitlePrefix|..|TitlePrefix| + |n|]) == count
  {
    var n := Text.NatToString(count);
    var t := Title(count);
    var rest := " Task" + (if count > 1 then "s" else "") + " Waiting!";
    assert t == TitlePrefix + n + rest;
    assert t[|TitlePrefix|..|TitlePrefix| + |n|] == n;
    Text.ParseNatToString(count);
  }

  /** Each of the first `min(3, n)` tasks appears, rendered as
      "child: task", at its place in the body, and neighbouring items are
      separated by ", ". */
  lemma BodyItemAt(tasks: seq<PendingTask>, i: nat)
    requires i < PreviewCount(|tasks|)
    ensures var o := Text.Offset(Preview(tasks), ItemSeparator, i); var r := Render(tasks[i]);
      && o + |r| <= |Body(tasks)|
      && Body(tasks)[o..o + |r|] == r
      && (i + 1 < PreviewCount(|tasks|) ==>
            o + |r| + |ItemSeparator| <= |Body(tasks)| &&
            Body(tasks)[o + |r|..o + |r| + |ItemSeparator|] == ItemSeparator)
  {
    var ps := Preview(tasks);
    var j := Text.Join(ps, ItemSeparator);
    var b := Body(tasks);
    assert b[..|j|] == j;
    Text.JoinAt(ps, ItemSeparator, i);
    var o := Text.Offset(ps, ItemSeparator, i);
    assert b[o..o + |ps[i]|] == j[o..o + |ps[i]|];
    if i + 1 < |ps| {
      Text.JoinSepAt(ps, ItemSeparator, i);
      var e := o + |ps[i]|;
      assert b[e..e + |ItemSeparator|] == j[e..e + |ItemSeparator|];
    }
  }

  /** After the last previewed item the body holds "..." when more than
      three tasks are pending and nothing otherwise. */
  lemma BodyTail(tasks: seq<PendingTask>)
    requires |tasks| > 0
    ensures var k := PreviewCount(|tasks|) - 1;
      var e := Text.Offset(Preview(tasks), ItemSeparator, k) + |Render(tasks[k])|;
      && e <= |Body(tasks)|
      && Body(tasks)[e..] == (if |tasks| > PreviewLimit then TruncationMark else "")
  {
    var ps := Preview(tasks);
    Text.JoinLength(ps, ItemSeparator);
  }

  /** Only the first three tasks and whether there are more shape the body:
      tasks beyond the third never show. */
  lemma BodyIgnoresLaterTasks(a: seq<PendingTask>, b: seq<PendingTask>)
    requires |a| > PreviewLimit && |b| > PreviewLimit
    requires a[..PreviewLimit] == b[..PreviewLimit]
    ensures Body(a) == Body(b)
  {
    assert forall i :: 0 <= i < PreviewLimit ==> a[i] == a[..PreviewLimit][i];
    assert forall i :: 0 <= i < PreviewLimit ==> b[i] == b[..PreviewLimit][i];
    assert Preview(a) == Preview(b);
  }

  /** One `{ action, title }` button of the summary notification. */
  datatype NoticeAction = NoticeAction(action: string, title: string)

  /** What the poll hands to `showNotification`. It has no badge and no
      `data`, so a click on it finds `data` null. */
  datatype ApprovalNotice = ApprovalNotice(
    title: string, body: string, icon: string, tag: string,
    requireInteraction: bool, actions: seq<NoticeAction>)

  /** The summary's fixed fields: the check-mark icon, the tag
      `pending-approvals` (so each new summary replaces the one displayed),
      `requireInteraction` set, and the single button open / "📱 Review Now". */
  lemma SummaryNoticeFields(count: nat, tasks: seq<PendingTask>, count': nat, tasks': seq<PendingTask>)
    ensures var r := SummaryNotice(count, tasks);
      && r.icon == "data:image/svg+xml,<svg xmlns=\"http://www.w3.org/2000/svg\" viewBox=\"0 0 100 100\"><text y=\".9em\" font-size=\"90\">\U{2705}</text></svg>"
      && r.tag == "pending-approvals"
      && r.requireInteraction
      && r.actions == [NoticeAction("open", "\U{1F4F1} Review Now")]
    ensures SummaryNotice(count, tasks).tag == SummaryNotice(count', tasks').tag
  {
  }

  function SummaryNotice(count: nat, tasks: seq<PendingTask>): (r: ApprovalNotice)
    ensures r.title == Title(count) && r.body == Body(tasks)
    ensures r.tag == SummaryTag && r.requireInteraction
    ensures |r.actions| == 1 && r.actions[0].action == "open"
  {
    ApprovalNotice(Title(count), Body(tasks), SummaryIcon, SummaryTag, true,
                   [NoticeAction("open", "\U{1F4F1} Review Now")])
  }
}
