/** The counting part of the approval poll: walk the children of a status
    snapshot in order, add up how many approvals each has pending, and list
    every pending approval as a (child, task) pair in the order met. */
module Aggregator {

  /** One entry of a child's `pendingApprovals`; only its task name is read. */
  datatype Approval = Approval(taskName: string)

  /** One child record of the status snapshot. A child without a
      `pendingApprovals` list is given an empty one. */
  datatype ChildStatus = ChildStatus(name: string, pendingApprovals: seq<Approval>)

  /** One entry of the aggregated task list. */
  datatype PendingTask = PendingTask(childName: string, taskName: string)

  /** The total number of pending approvals over all children. */
  function PendingCount(children: seq<ChildStatus>): (n: nat)
    ensures n == 0 <==> forall i :: 0 <= i < |children| ==> |children[i].pendingApprovals| == 0
    decreases |children|
  {
    if |children| == 0 then 0
    else |children[0].pendingApprovals| + PendingCount(children[1..])
  }

  /** The pairs one child contributes, in approval order. */
  function ChildTasks(child: ChildStatus): (ts: seq<PendingTask>)
    ensures |ts| == |child.pendingApprovals|
    ensures forall j :: 0 <= j < |ts| ==>
      ts[j] == PendingTask(child.name, child.pendingApprovals[j].taskName)
  {
    seq(|child.pendingApprovals|, j requires 0 <= j < |child.pendingApprovals| =>
      PendingTask(child.name, child.pendingApprovals[j].taskName))
  }

  /** All pairs, child by child. */
  function PendingTasks(children: seq<ChildStatus>): (ts: seq<PendingTask>)
    ensures |ts| == PendingCount(children)
    decreases |children|
  {
    if |children| == 0 then []
    else ChildTasks(children[0]) + PendingTasks(children[1..])
  }

  /** Counting distributes over concatenation of snapshots. */
  lemma {:induction false} PendingCountAppend(a: seq<ChildStatus>, b: seq<ChildStatus>)
    ensures PendingCount(a + b) == PendingCount(a) + PendingCount(b)
    decreases |a|
  {
    if |a| > 0 {
      assert (a + b)[1..] == a[1..] + b;
      PendingCountAppend(a[1..], b);
    } else {
      assert a + b == b;
    }
  }

  /** Listing distributes over concatenation of snapshots. */
  lemma {:induction false} PendingTasksAppend(a: seq<ChildStatus>, b: seq<ChildStatus>)
    ensures PendingTasks(a + b) == PendingTasks(a) + PendingTasks(b)
    decreases |a|
  {
    if |a| > 0 {
      assert (a + b)[1..] == a[1..] + b;
      PendingTasksAppend(a[1..], b);
    } else {
      assert a + b == b;
    }
  }

  /** Approval `j` of child `i` sits at position (approvals of children
      before `i`) + `j`: child order first, then approval order. */
  lemma TaskAt(children: seq<ChildStatus>, i: nat, j: nat)
    requires i < |children| && j < |children[i].pendingApprovals|
    ensures PendingCount(children[..i]) + j < |PendingTasks(children)|
    ensures PendingTasks(children)[PendingCount(children[..i]) + j] ==
      PendingTask(children[i].name, children[i].pendingApprovals[j].taskName)
  {
    var before, rest := children[..i], children[i..];
    assert children == before + rest;
    PendingTasksAppend(before, rest);
    assert PendingTasks(rest) == ChildTasks(children[i]) + PendingTasks(rest[1..]);
  }

  /** Position `k` of the task list holds approval `j` of child `i`. */
  predicate IsSlotOf(children: seq<ChildStatus>, k: nat, i: nat, j: nat)
  {
    i < |children| && j < |children[i].pendingApprovals| &&
    k == PendingCount(children[..i]) + j
  }

  /** Conversely, every entry of the task list is some child's approval:
      nothing is invented, so with `TaskAt` the list is exactly the
      approvals in child order, then approval order. */
  lemma {:induction false} TaskOrigin(children: seq<ChildStatus>, k: nat)
    requires k < |PendingTasks(children)|
    ensures exists i: nat, j: nat :: IsSlotOf(children, k, i, j)
    decreases |children|
  {
    var c := children[0];
    if k < |c.pendingApprovals| {
      assert children[..0] == [];
      assert IsSlotOf(children, k, 0, k);
    } else {
      TaskOrigin(children[1..], k - |c.pendingApprovals|);
      var i: nat, j: nat :| IsSlotOf(children[1..], k - |c.pendingApprovals|, i, j);
      assert children[..i + 1][1..] == children[1..][..i];
      assert IsSlotOf(children, k, i + 1, j);
    }
  }

  /** The loop of the poll: a running total and a growing list, with the
      source's guard that skips children with no pending approvals. */
  method Aggregate(children: seq<ChildStatus>) returns (count: nat, tasks: seq<PendingTask>)
    ensures count == PendingCount(children)
    ensures tasks == PendingTasks(children)
    ensures |tasks| == count
  {
    count, tasks := 0, [];
    var i := 0;
    while i < |children|
      invariant 0 <= i <= |children|
      invariant count == PendingCount(children[..i])
      invariant tasks == PendingTasks(children[..i])
    {
      var child := children[i];
      if |child.pendingApprovals| > 0 {
        count := count + |child.pendingApprovals|;
        var j := 0;
        while j < |child.pendingApprovals|
          invariant 0 <= j <= |child.pendingApprovals|
          invariant tasks == PendingTasks(children[..i]) + ChildTasks(child)[..j]
        {
          tasks := tasks + [PendingTask(child.name, child.pendingApprovals[j].taskName)];
          j := j + 1;
        }
      }
      assert children[..i + 1] == children[..i] + [child];
      PendingCountAppend(children[..i], [child]);
      PendingTasksAppend(children[..i], [child]);
      assert PendingTasks([child]) == ChildTasks(child) + PendingTasks([]);
      i := i + 1;
    }
    assert children[..i] == children;
  }
}
