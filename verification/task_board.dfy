/**
 * The board's grouping of tasks into one column per status: the reduce
 * that pushes each task into its status's list, then the pass that gives
 * every status a list, and the column order of the status enum.
 */
module TaskBoard {
  import opened Domain
  import opened ClientTypes

  /** The tasks of one status, in input order. */
  function Column(tasks: seq<ClientTask>, s: Status): (r: seq<ClientTask>)
    ensures |r| <= |tasks|
    ensures forall t :: t in r <==> t in tasks && t.status == s
  {
    if tasks == [] then []
    else
      var front := Column(tasks[..|tasks| - 1], s);
      assert tasks == tasks[..|tasks| - 1] + [tasks[|tasks| - 1]];
      if tasks[|tasks| - 1].status == s then front + [tasks[|tasks| - 1]] else front
  }

  /** Grouping distributes over concatenation: each column keeps the input order. */
  lemma {:induction false} ColumnConcat(a: seq<ClientTask>, b: seq<ClientTask>, s: Status)
    ensures Column(a + b, s) == Column(a, s) + Column(b, s)
    decreases |b|
  {
    if b == [] {
      assert a + b == a;
    } else {
      var b0, x := b[..|b| - 1], b[|b| - 1];
      assert (a + b)[..|a + b| - 1] == a + b0;
      assert (a + b)[|a + b| - 1] == x;
      ColumnConcat(a, b0, s);
      if x.status == s {
        calc {
          Column(a + b, s);
          Column(a + b0, s) + [x];
          Column(a, s) + Column(b0, s) + [x];
          Column(a, s) + Column(b, s);
        }
      }
    }
  }

  /** The three columns together hold every task exactly once. */
  lemma {:induction false} ColumnSizes(tasks: seq<ClientTask>)
    ensures |Column(tasks, ToDo)| + |Column(tasks, InProgress)| + |Column(tasks, Done)| == |tasks|
    decreases |tasks|
  {
    if tasks != [] {
      ColumnSizes(tasks[..|tasks| - 1]);
    }
  }

  /** `groups` holds the columns of `prefix`: a list per status that has a task, and no other list. */
  ghost predicate GroupsOf(prefix: seq<ClientTask>, groups: map<Status, seq<ClientTask>>) {
    forall s :: (s in groups ==> groups[s] == Column(prefix, s)) && (s !in groups ==> Column(prefix, s) == [])
  }

  /** Pushing the next task onto its status's list keeps the groups those of the longer prefix. */
  lemma PushKeepsGroups(tasks: seq<ClientTask>, i: nat, before: map<Status, seq<ClientTask>>,
                        after: map<Status, seq<ClientTask>>)
    requires i < |tasks| && GroupsOf(tasks[..i], before)
    requires after == before[tasks[i].status := (if tasks[i].status in before then before[tasks[i].status] else []) + [tasks[i]]]
    ensures GroupsOf(tasks[..i + 1], after)
  {
    var t := tasks[i];
    assert tasks[..i + 1][..i] == tasks[..i];
    forall s
      ensures (s in after ==> after[s] == Column(tasks[..i + 1], s)) && (s !in after ==> Column(tasks[..i + 1], s) == [])
    {
      assert Column(tasks[..i + 1], s) == if t.status == s then Column(tasks[..i], s) + [t] else Column(tasks[..i], s);
    }
  }

  /**
   * `tasksByStatus`: the reduce appends each task to its status's list,
   * creating the list on first use; then every status without a list gets
   * an empty one.
   */
  method GroupByStatus(tasks: seq<ClientTask>) returns (groups: map<Status, seq<ClientTask>>)
    ensures groups.Keys == {ToDo, InProgress, Done}
    ensures forall s :: s in groups ==> groups[s] == Column(tasks, s)
  {
    groups := map[];
    for i := 0 to |tasks|
      invariant GroupsOf(tasks[..i], groups)
    {
      ghost var before := groups;
      var t := tasks[i];
      if t.status !in groups {
        groups := groups[t.status := []];
      }
      groups := groups[t.status := groups[t.status] + [t]];
      PushKeepsGroups(tasks, i, before, groups);
    }
    assert tasks[..|tasks|] == tasks;
    for j := 0 to |StatusValues|
      invariant forall k :: 0 <= k < j ==> StatusValues[k] in groups
      invariant GroupsOf(tasks, groups)
    {
      var s := StatusValues[j];
      if s !in groups {
        groups := groups[s := []];
      }
    }
    forall s: Status
      ensures s in groups
    {
      match s
      case ToDo => assert StatusValues[0] == s;
      case InProgress => assert StatusValues[1] == s;
      case Done => assert StatusValues[2] == s;
    }
    forall s | s in groups
      ensures s == ToDo || s == InProgress || s == Done
    {
      match s
      case ToDo =>
      case InProgress =>
      case Done =>
    }
  }

  /** The columns as rendered: one per status, in the enum's order TO_DO, IN_PROGRESS, DONE. */
  function Columns(tasks: seq<ClientTask>): (r: seq<(Status, seq<ClientTask>)>)
    ensures |r| == 3
    ensures r[0].0 == ToDo && r[1].0 == InProgress && r[2].0 == Done
    ensures forall k :: 0 <= k < 3 ==> r[k].1 == Column(tasks, r[k].0)
  {
    seq(|StatusValues|, k requires 0 <= k < |StatusValues| => (StatusValues[k], Column(tasks, StatusValues[k])))
  }
}
