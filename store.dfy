/**
 * The day-keyed task store: a table from a day key to the ordered list of
 * tasks of that day, as the page keeps it in localStorage (one JSON-encoded
 * array per key), with getTasks, saveTasks and the three list edits the page
 * performs on a fetched list before saving it back.
 */
module Store {
  import opened Options
  import opened Text

  /** One to-do item: its text and whether it is done. */
  datatype Task = Task(text: string, completed: bool)

  /** localStorage: a key that was never written has no entry. */
  type Storage = map<string, seq<Task>>

  /** `!selectedDate` is false only for a date that is present and not the empty string. */
  predicate IsActive(selected: Option<string>) {
    selected.Some? && selected.value != ""
  }

  /** getTasks: the stored list of the selected day, or [] when there is none. */
  function GetTasks(storage: Storage, selected: Option<string>): (tasks: seq<Task>)
    ensures !IsActive(selected) || selected.value !in storage ==> tasks == []
    ensures IsActive(selected) && selected.value in storage ==> tasks == storage[selected.value]
  {
    if !IsActive(selected) then []
    else if selected.value in storage then storage[selected.value]
    else []
  }

  /** saveTasks: the whole list of the selected day is replaced; nothing is written without a day. */
  function SaveTasks(storage: Storage, selected: Option<string>, tasks: seq<Task>): (storage': Storage)
    ensures IsActive(selected) ==>
      storage'.Keys == storage.Keys + {selected.value} && storage'[selected.value] == tasks
    ensures !IsActive(selected) ==> storage' == storage
    ensures forall k :: k in storage && (!IsActive(selected) || k != selected.value) ==>
      k in storage' && storage'[k] == storage[k]
  {
    if IsActive(selected) then storage[selected.value := tasks] else storage
  }

  /** Reading the selected day after saving yields exactly what was saved. */
  lemma ReadAfterSave(storage: Storage, selected: Option<string>, tasks: seq<Task>)
    requires IsActive(selected)
    ensures GetTasks(SaveTasks(storage, selected, tasks), selected) == tasks
  {
  }

  /** Saving under one day never changes what another day reads. */
  lemma SaveIsolatesDays(storage: Storage, day: string, other: string, tasks: seq<Task>)
    requires day != other
    ensures GetTasks(SaveTasks(storage, Some(day), tasks), Some(other)) == GetTasks(storage, Some(other))
  {
  }

  /** toggle: the completed flag of task i is flipped; nothing else changes. */
  function Toggled(tasks: seq<Task>, i: nat): (r: seq<Task>)
    requires i < |tasks|
    ensures |r| == |tasks|
    ensures r[i].text == tasks[i].text && r[i].completed == !tasks[i].completed
    ensures forall j :: 0 <= j < |tasks| && j != i ==> r[j] == tasks[j]
  {
    tasks[i := tasks[i].(completed := !tasks[i].completed)]
  }

  /** Toggling the same task twice restores the list. */
  lemma ToggleTwice(tasks: seq<Task>, i: nat)
    requires i < |tasks|
    ensures Toggled(Toggled(tasks, i), i) == tasks
  {
  }

  /**
   * splice(i, 1): task i is removed and the rest keep their order; an index at or
   * past the end removes nothing.
   */
  function Spliced(tasks: seq<Task>, i: nat): (r: seq<Task>)
    ensures i < |tasks| ==> |r| == |tasks| - 1
    ensures i < |tasks| ==> forall j :: 0 <= j < i ==> r[j] == tasks[j]
    ensures i < |tasks| ==> forall j :: i <= j < |r| ==> r[j] == tasks[j + 1]
    ensures i >= |tasks| ==> r == tasks
  {
    if i < |tasks| then tasks[..i] + tasks[i + 1..] else tasks
  }

  /** What splice removes is exactly one occurrence of task i. */
  lemma SplicedMultiset(tasks: seq<Task>, i: nat)
    requires i < |tasks|
    ensures multiset(Spliced(tasks, i)) + multiset{tasks[i]} == multiset(tasks)
  {
    assert tasks == tasks[..i] + [tasks[i]] + tasks[i + 1..];
  }

  /** A stored text as addTask creates it: not empty, and no whitespace at either end. */
  predicate ValidText(text: string) {
    text != [] && !IsSpace(text[0]) && !IsSpace(text[|text| - 1])
  }

  predicate ValidList(tasks: seq<Task>) {
    forall j :: 0 <= j < |tasks| ==> ValidText(tasks[j].text)
  }

  /** Every stored list holds only texts addTask could have produced. */
  predicate ValidStorage(storage: Storage) {
    forall k :: k in storage ==> ValidList(storage[k])
  }

  lemma SavePreservesValid(storage: Storage, selected: Option<string>, tasks: seq<Task>)
    requires ValidStorage(storage) && ValidList(tasks)
    ensures ValidStorage(SaveTasks(storage, selected, tasks))
  {
  }

  lemma ReadIsValid(storage: Storage, selected: Option<string>)
    requires ValidStorage(storage)
    ensures ValidList(GetTasks(storage, selected))
  {
  }

  /** The text addTask appends, the trim of a non-blank input, is valid. */
  lemma TrimmedIsValid(input: string)
    requires Trim(input) != []
    ensures ValidText(Trim(input))
  {
  }

  /** The valid texts are exactly the non-empty texts that trim leaves as they are. */
  lemma ValidTextIsTrimmed(text: string)
    ensures ValidText(text) <==> text != [] && Trim(text) == text
  {
    if text != [] && !ValidText(text) {
      assert Trim(text) != text;
    } else if ValidText(text) {
      TrimOfTrimmed(text);
    }
  }

  /** Appending the trim of a non-blank input to the selected day keeps the store valid. */
  lemma AppendPreservesValid(storage: Storage, selected: Option<string>, input: string)
    requires ValidStorage(storage) && Trim(input) != []
    ensures ValidStorage(SaveTasks(storage, selected, GetTasks(storage, selected) + [Task(Trim(input), false)]))
  {
    var current := GetTasks(storage, selected);
    var task := Task(Trim(input), false);
    ReadIsValid(storage, selected);
    TrimmedIsValid(input);
    AppendValid(current, task);
    SavePreservesValid(storage, selected, current + [task]);
  }

  lemma AppendValid(tasks: seq<Task>, task: Task)
    requires ValidList(tasks) && ValidText(task.text)
    ensures ValidList(tasks + [task])
  {
    assert forall j :: 0 <= j < |tasks| ==> (tasks + [task])[j] == tasks[j];
  }

  /** Saving a toggled or spliced copy of the selected day's list keeps the store valid. */
  lemma EditPreservesValid(storage: Storage, selected: Option<string>, edited: seq<Task>, i: nat)
    requires ValidStorage(storage)
    requires var tasks := GetTasks(storage, selected);
      (i < |tasks| && edited == Toggled(tasks, i)) || edited == Spliced(tasks, i)
    ensures ValidStorage(SaveTasks(storage, selected, edited))
  {
    EditsPreserveValid(GetTasks(storage, selected), i);
    SavePreservesValid(storage, selected, edited);
  }

  /** The edits keep every text, so they keep a list valid. */
  lemma EditsPreserveValid(tasks: seq<Task>, i: nat)
    requires ValidList(tasks)
    ensures i < |tasks| ==> ValidList(Toggled(tasks, i))
    ensures ValidList(Spliced(tasks, i))
  {
  }
}
