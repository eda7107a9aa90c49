/** client/src/components/tasks/KanbanBoard.tsx: the three status columns,
    the distribution of the tasks over them, the drag-end decision and the
    priority colour. */
module KanbanBoard {
  import opened Js

  datatype BoardTask = BoardTask(id: string, title: string, status: string, priority: Option<string>)
  datatype Column = Column(id: string, title: string, color: string, tasks: seq<BoardTask>)

  const ColumnIds := ["pending", "in_progress", "completed"]
  const ColumnTitles := ["Da fare", "In corso", "Completati"]
  const ColumnColors := ["#ff9800", "#2196f3", "#4caf50"]

  /** Column `c` as configured, before any task is placed. */
  function EmptyColumn(c: nat): (column: Column)
    requires c < 3
    ensures column.tasks == [] && column.id == ColumnIds[c]
  {
    Column(ColumnIds[c], ColumnTitles[c], ColumnColors[c], [])
  }

  /** `columns.find(col => col.id === status) || columns[0]`: the column
      whose id is the status, the first one for any other status. */
  function ColumnOf(status: string): (c: nat)
    ensures c < 3
    ensures c > 0 ==> ColumnIds[c] == status
    ensures status in ColumnIds ==> ColumnIds[c] == status
  {
    if status == "in_progress" then 1 else if status == "completed" then 2 else 0
  }

  /** The tasks column `c` ends up with: those whose status selects it, in
      input order. */
  function ColumnTasks(tasks: seq<BoardTask>, c: nat): (placed: seq<BoardTask>)
    ensures |placed| <= |tasks|
    ensures forall t | t in placed :: t in tasks && ColumnOf(t.status) == c
    ensures forall t | t in tasks && ColumnOf(t.status) == c :: t in placed
  {
    if tasks == [] then []
    else
      var last := tasks[|tasks| - 1];
      ColumnTasks(tasks[..|tasks| - 1], c) + (if ColumnOf(last.status) == c then [last] else [])
  }

  /** The distribution loop: each task is pushed onto the tasks of the
      column its status selects. */
  method Distribute(tasks: seq<BoardTask>) returns (columns: seq<Column>)
    ensures |columns| == 3
    ensures forall c | 0 <= c < 3 :: columns[c] == EmptyColumn(c).(tasks := ColumnTasks(tasks, c))
  {
    columns := [EmptyColumn(0), EmptyColumn(1), EmptyColumn(2)];
    var i := 0;
    while i < |tasks|
      invariant 0 <= i <= |tasks|
      invariant |columns| == 3
      invariant forall c | 0 <= c < 3 :: columns[c] == EmptyColumn(c).(tasks := ColumnTasks(tasks[..i], c))
    {
      var c := ColumnOf(tasks[i].status);
      columns := columns[c := columns[c].(tasks := columns[c].tasks + [tasks[i]])];
      ColumnTasksStep(tasks, i);
      i := i + 1;
    }
    assert tasks[..|tasks|] == tasks;
  }

  /** One more task extends exactly the column its status selects. */
  lemma ColumnTasksStep(tasks: seq<BoardTask>, i: nat)
    requires i < |tasks|
    ensures forall c: nat ::
      ColumnTasks(tasks[..i + 1], c) == ColumnTasks(tasks[..i], c) + (if ColumnOf(tasks[i].status) == c then [tasks[i]] else [])
  {
    var prefix := tasks[..i + 1];
    assert prefix[..|prefix| - 1] == tasks[..i];
    assert prefix[|prefix| - 1] == tasks[i];
  }

  /** No task is lost or duplicated: the column sizes add up to the number
      of tasks. */
  lemma {:induction false} ColumnSizesAddUp(tasks: seq<BoardTask>)
    ensures |ColumnTasks(tasks, 0)| + |ColumnTasks(tasks, 1)| + |ColumnTasks(tasks, 2)| == |tasks|
  {
    if tasks != [] {
      ColumnSizesAddUp(tasks[..|tasks| - 1]);
    }
  }

  /** Every task is in the column its status selects and in no other. */
  lemma ExactlyOneColumn(tasks: seq<BoardTask>, t: BoardTask, c: nat)
    requires t in tasks && c < 3
    ensures t in ColumnTasks(tasks, c) <==> c == ColumnOf(t.status)
  {
  }

  /** A status outside the three ids, such as "in-progress", shows the task
      in the first column. */
  lemma UnknownStatusGoesToPending(t: BoardTask)
    requires t.status !in ColumnIds
    ensures t in ColumnTasks([t], 0)
    ensures ColumnOf("in-progress") == 0
  {
    assert [t][..0] == [];
  }

  datatype Location = Location(droppableId: string, index: int)

  /** What a drop does: nothing, or one status change for the dragged task. */
  datatype DropEffect = NoCall | StatusChange(taskId: string, newStatus: string)

  /** `handleDragEnd`. */
  function HandleDragEnd(source: Location, destination: Option<Location>, draggableId: string): (effect: DropEffect)
    ensures effect.StatusChange? <==>
      destination.Some? && destination.value.droppableId != source.droppableId
    ensures effect.StatusChange? ==> effect == StatusChange(draggableId, destination.value.droppableId)
  {
    match destination
    case None => NoCall
    case Some(d) =>
      if source.droppableId == d.droppableId && source.index == d.index then NoCall
      else if source.droppableId != d.droppableId then StatusChange(draggableId, d.droppableId)
      else NoCall
  }

  /** Reordering within a column is not kept: it calls nothing. */
  lemma SameColumnDropCallsNothing(source: Location, index: int, draggableId: string)
    ensures HandleDragEnd(source, Some(Location(source.droppableId, index)), draggableId) == NoCall
  {
  }

  /** `getPriorityColor`. */
  function GetPriorityColor(priority: Option<string>): (color: string)
    ensures color == "error" <==> priority == Some("high")
    ensures color == "warning" <==> priority == Some("medium")
    ensures color == "info" <==> priority == Some("low")
    ensures color == "default" <==> priority !in {Some("high"), Some("medium"), Some("low")}
  {
    match priority
    case Some("high") => "error"
    case Some("medium") => "warning"
    case Some("low") => "info"
    case _ => "default"
  }
}
