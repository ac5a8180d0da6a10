/**
 * The page itself: the task store as localStorage holds it, the selected date,
 * and the handlers that the date picker, the add control and clicks on the
 * list run. Every handler that changes the list saves it and re-renders; the
 * rendered screen is returned.
 */
module TodoApp {
  import opened Options
  import opened Text
  import opened Dates
  import opened Store
  import opened Render

  /** What was clicked inside a list item: its text, its delete button, or elsewhere. */
  datatype Part = TaskText | DeleteButton | Background

  /** A click on the list: the list item it fell in (none when outside every item) and the part hit. */
  datatype Click = Click(item: Option<Row>, part: Part)

  datatype Action = Ignore | Toggle(index: nat) | Delete(index: nat)

  /** handleTaskClick's dispatch: the notice row, clicks outside items and the background do nothing. */
  function ClickAction(click: Click): (action: Action) {
    if click.item.None? || click.item.value.EmptyNotice? then Ignore
    else match click.part
      case TaskText => Toggle(click.item.value.index)
      case DeleteButton => Delete(click.item.value.index)
      case Background => Ignore
  }

  /** The outcome of addTask: the blank-input notice, or the list re-rendered. */
  datatype AddOutcome = Rejected | Added(screen: Screen)

  class Planner {
    /** localStorage: one list of tasks per day key. */
    var storage: Storage
    /** The day whose list is shown; None until the page has initialised. */
    var selectedDate: Option<string>

    /** The page as loaded, over what the browser has already stored. */
    constructor (persisted: Storage)
      ensures storage == persisted && selectedDate == None
    {
      storage := persisted;
      selectedDate := None;
    }

    /** The list getTasks reads for the selected day. */
    function CurrentTasks(): (tasks: seq<Task>)
      reads this
    {
      GetTasks(storage, selectedDate)
    }

    /** What renderTasks puts on the page for the current state. */
    function View(now: Day): (screen: Screen)
      reads this
      requires selectedDate.Some?
    {
      var heading := DisplayDate(selectedDate.value, now);
      Screen(heading, TaskList(CurrentTasks(), heading))
    }

    /** saveTasks: overwrites the selected day's entry; without a selected day it returns at once. */
    method Save(tasks: seq<Task>)
      modifies this`storage
      ensures storage == SaveTasks(old(storage), selectedDate, tasks)
    {
      if !IsActive(selectedDate) {
        return;
      }
      storage := storage[selectedDate.value := tasks];
    }

    /** renderTasks: the heading of the selected day and the rows of its list. */
    method RenderTasks(now: Day) returns (screen: Screen)
      requires selectedDate.Some?
      ensures screen == View(now)
      ensures screen.heading == Today <==> selectedDate.value == FormatDate(now)
      ensures CurrentTasks() == [] ==> screen.rows == [EmptyNotice(screen.heading)]
      ensures CurrentTasks() != [] ==> |screen.rows| == |CurrentTasks()|
    {
      var heading := DisplayDate(selectedDate.value, now);
      var rows := RenderRows(CurrentTasks(), heading);
      screen := Screen(heading, rows);
      TaskListShape(CurrentTasks(), heading);
    }

    /** initialize: select today's key and render it, which is headed "Today". */
    method Initialize(now: Day) returns (screen: Screen)
      modifies this`selectedDate
      ensures selectedDate == Some(FormatDate(now)) && IsActive(selectedDate)
      ensures screen == View(now) && screen.heading == Today
    {
      selectedDate := Some(FormatDate(now));
      screen := RenderTasks(now);
    }

    /** The date picker's change handler: select whatever it holds, even "", and render. */
    method SelectDate(value: string, now: Day) returns (screen: Screen)
      modifies this`selectedDate
      ensures selectedDate == Some(value)
      ensures screen == View(now)
    {
      selectedDate := Some(value);
      screen := RenderTasks(now);
    }

    /**
     * addTask: a blank input is rejected and nothing is stored; otherwise the trimmed
     * text is appended, not completed, to the selected day's list, which is saved and
     * re-rendered.
     */
    method AddTask(input: string, now: Day) returns (outcome: AddOutcome)
      requires selectedDate.Some?
      modifies this`storage
      ensures Trim(input) == [] <==> outcome == Rejected
      ensures Trim(input) == [] ==> storage == old(storage)
      ensures Trim(input) != [] ==>
        storage == SaveTasks(old(storage), selectedDate, old(CurrentTasks()) + [Task(Trim(input), false)])
      ensures Trim(input) != [] && IsActive(selectedDate) ==>
        CurrentTasks() == old(CurrentTasks()) + [Task(Trim(input), false)]
      ensures outcome.Added? ==> outcome.screen == View(now)
      ensures ValidStorage(old(storage)) ==> ValidStorage(storage)
    {
      var text := Trim(input);
      if text == "" {
        return Rejected;
      }
      var tasks := CurrentTasks();
      tasks := tasks + [Task(text, false)];
      if ValidStorage(storage) {
        AppendPreservesValid(storage, selectedDate, input);
      }
      Save(tasks);
      var screen := RenderTasks(now);
      outcome := Added(screen);
    }

    /**
     * handleTaskClick: a click on a task's text toggles it, one on its delete button
     * removes it; either saves and re-renders. Any other click changes nothing.
     */
    method HandleTaskClick(click: Click, now: Day) returns (screen: Option<Screen>)
      requires selectedDate.Some?
      requires ClickAction(click).Toggle? ==> ClickAction(click).index < |CurrentTasks()|
      modifies this`storage
      ensures ClickAction(click) == Ignore ==> storage == old(storage) && screen == None
      ensures ClickAction(click).Toggle? ==>
        storage == SaveTasks(old(storage), selectedDate, Toggled(old(CurrentTasks()), ClickAction(click).index))
      ensures ClickAction(click).Delete? ==>
        storage == SaveTasks(old(storage), selectedDate, Spliced(old(CurrentTasks()), ClickAction(click).index))
      ensures ClickAction(click) != Ignore ==> screen == Some(View(now))
      ensures ValidStorage(old(storage)) ==> ValidStorage(storage)
    {
      var action := ClickAction(click);
      var tasks := CurrentTasks();
      match action {
        case Ignore =>
          return None;
        case Toggle(i) =>
          tasks := tasks[i := tasks[i].(completed := !tasks[i].completed)];
        case Delete(i) =>
          if i < |tasks| {
            tasks := tasks[..i] + tasks[i + 1..];
          }
      }
      if ValidStorage(storage) {
        EditPreservesValid(storage, selectedDate, tasks, action.index);
      }
      Save(tasks);
      var rendered := RenderTasks(now);
      screen := Some(rendered);
    }
  }

  /** Client checks, written against the contracts above alone: a blank input is rejected. */
  method BlankInputRejected(now: Day, blank: string)
    requires AllSpace(blank)
  {
    var page := new Planner(map[]);
    var screen := page.Initialize(now);
    TrimEmptyIff(blank);
    var outcome := page.AddTask(blank, now);
    assert outcome == Rejected && page.storage == map[];
  }

  /** A first visit shows the empty notice under "Today"; the first task added is stored and drawn. */
  method FirstVisit(now: Day, text: string)
    requires ValidText(text)
  {
    var page := new Planner(map[]);
    var screen := page.Initialize(now);
    assert screen == Screen(Today, [EmptyNotice(Today)]);

    TrimOfTrimmed(text);
    var added := page.AddTask(text, now);
    assert page.CurrentTasks() == [Task(text, false)];
    assert added.screen.rows == [TaskRow(0, text, false)];
  }

  /** Toggling a task twice restores it; a click on the row background changes nothing. */
  method ToggleTwiceRestores(now: Day, text: string)
  {
    var page := new Planner(map[FormatDate(now) := [Task(text, false)]]);
    var screen := page.Initialize(now);
    var row := TaskRow(0, text, false);
    assert screen.rows == [row];

    var shown := page.HandleTaskClick(Click(Some(row), TaskText), now);
    assert page.CurrentTasks() == [Task(text, true)];
    shown := page.HandleTaskClick(Click(Some(row), TaskText), now);
    assert page.CurrentTasks() == [Task(text, false)];

    shown := page.HandleTaskClick(Click(Some(row), Background), now);
    assert shown == None && page.CurrentTasks() == [Task(text, false)];
  }

  /** Deleting the only task leaves the day empty, and the empty notice is drawn. */
  method DeleteOnlyTask(now: Day, task: Task)
  {
    var page := new Planner(map[FormatDate(now) := [task]]);
    var screen := page.Initialize(now);
    var row := TaskRow(0, task.text, task.completed);

    var shown := page.HandleTaskClick(Click(Some(row), DeleteButton), now);
    assert page.CurrentTasks() == [];
    assert shown == Some(Screen(Today, [EmptyNotice(Today)]));
  }

  /** Another day's list is not shown, and with the date picker cleared nothing is stored. */
  method OtherDays(now: Day, other: string, task: Task, text: string)
    requires other != FormatDate(now) && other != ""
    requires ValidText(text)
  {
    var stored := map[FormatDate(now) := [task]];
    var page := new Planner(stored);
    var screen := page.SelectDate(other, now);
    assert screen == Screen(Localized(other), [EmptyNotice(Localized(other))]);

    screen := page.SelectDate("", now);
    TrimOfTrimmed(text);
    var added := page.AddTask(text, now);
    assert added.Added? && page.storage == stored;
  }
}
