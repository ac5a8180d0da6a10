/**
 * renderTasks, reduced to what it draws: a heading and a list of rows. An empty
 * list draws a single notice row; otherwise every task draws one row carrying its
 * position (the row's data-index), its text and the completed marker.
 */
module Render {
  import opened Dates
  import opened Store

  datatype Row =
    | EmptyNotice(heading: DateLabel)
    | TaskRow(index: nat, text: string, completed: bool)

  datatype Screen = Screen(heading: DateLabel, rows: seq<Row>)

  /** The row of tasks[k] for every k, numbered from first on. */
  function RowsFrom(tasks: seq<Task>, first: nat): (rows: seq<Row>)
    ensures |rows| == |tasks|
    decreases |tasks|
  {
    if tasks == [] then []
    else [TaskRow(first, tasks[0].text, tasks[0].completed)] + RowsFrom(tasks[1..], first + 1)
  }

  /** The rows renderTasks draws for a list under the given heading. */
  function TaskList(tasks: seq<Task>, heading: DateLabel): (rows: seq<Row>) {
    if tasks == [] then [EmptyNotice(heading)] else RowsFrom(tasks, 0)
  }

  lemma {:induction false} RowsFromAt(tasks: seq<Task>, first: nat, k: nat)
    requires k < |tasks|
    ensures RowsFrom(tasks, first)[k] == TaskRow(first + k, tasks[k].text, tasks[k].completed)
    decreases k
  {
    if k > 0 {
      RowsFromAt(tasks[1..], first + 1, k - 1);
    }
  }

  /**
   * An empty list draws exactly the notice; otherwise row k is the row of task k,
   * with index k, its text and its flag, and no notice is drawn.
   */
  lemma TaskListShape(tasks: seq<Task>, heading: DateLabel)
    ensures tasks == [] ==> TaskList(tasks, heading) == [EmptyNotice(heading)]
    ensures tasks != [] ==> |TaskList(tasks, heading)| == |tasks|
    ensures tasks != [] ==> forall k :: 0 <= k < |tasks| ==>
      TaskList(tasks, heading)[k] == TaskRow(k, tasks[k].text, tasks[k].completed)
  {
    forall k | 0 <= k < |tasks|
      ensures TaskList(tasks, heading)[k] == TaskRow(k, tasks[k].text, tasks[k].completed)
    {
      RowsFromAt(tasks, 0, k);
    }
  }

  /** The forEach of renderTasks: one row appended per task, in order. */
  method RenderRows(tasks: seq<Task>, heading: DateLabel) returns (rows: seq<Row>)
    ensures rows == TaskList(tasks, heading)
  {
    if |tasks| == 0 {
      return [EmptyNotice(heading)];
    }
    rows := [];
    var i := 0;
    while i < |tasks|
      invariant 0 <= i <= |tasks|
      invariant |rows| == i
      invariant forall k :: 0 <= k < i ==> rows[k] == TaskRow(k, tasks[k].text, tasks[k].completed)
    {
      rows := rows + [TaskRow(i, tasks[i].text, tasks[i].completed)];
      i := i + 1;
    }
    TaskListShape(tasks, heading);
  }
}
