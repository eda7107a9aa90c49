/** The task handlers of server/src/routes/tasks.ts over the server tables:
    create (defaults and the creator always assigned), read one with its
    assignees, partial update with assignment replacement, idempotent
    delete, and the unimplemented comment route. */
module TaskRoutes {
  import opened Js
  import opened ServerModel

  const DefaultPriority := "medium"
  const DefaultStatus := "pending"
  const TaskNotFound := "Task not found"

  /** The create body; `None` is a missing (or null) field. */
  datatype NewTaskBody = NewTaskBody(
    title: Option<string>, description: Option<string>, priority: Option<string>,
    dueDate: Option<string>, projectId: Option<string>, assignedTo: Option<seq<string>>)

  /** The update body. An outer `None` is `undefined` (leave the column);
      `Some(None)` is an explicit `null`. */
  datatype TaskPatchBody = TaskPatchBody(
    title: Option<string>, description: Option<Option<string>>, isDone: Option<Option<bool>>,
    priority: Option<string>, dueDate: Option<Option<string>>, assignedTo: Option<seq<string>>)

  /** A task as GET and PUT answer it: the row plus its assignee ids. */
  datatype TaskView = TaskView(task: TaskRow, assignedTo: seq<string>)

  /** The assignee list of a new task: the requested ids, with the creator
      appended when not among them. */
  function WithCreator(requested: seq<string>, creator: string): (assignees: seq<string>)
    ensures creator in assignees
    ensures |assignees| == if creator in requested then |requested| else |requested| + 1
    ensures assignees[..|requested|] == requested
    ensures forall u :: u in assignees <==> u in requested || u == creator
  {
    if creator in requested then requested else requested + [creator]
  }

  /** POST /api/tasks. `newId` and `now` are the id and time the store
      assigns to the new row. */
  method CreateTask(db: Tables, user: Option<Claims>, body: NewTaskBody, newId: string, now: int)
    returns (reply: Reply<TaskRow>)
    modifies db`tasks, db`assignments
    ensures user == None ==> reply == Status(401) && unchanged(db)
    ensures user.Some? && Blank(body.title) ==>
      reply == Message(400, "Task title is required") && unchanged(db)
    ensures user.Some? && !Blank(body.title) ==>
      var row := TaskRow(newId, body.title.value, body.description, DefaultStatus, None,
                         OrText(body.priority, DefaultPriority), OrNull(body.dueDate), OrNull(body.projectId), now, now);
      var assignees := WithCreator(if body.assignedTo.Some? then body.assignedTo.value else [], user.value.userId);
      db.tasks == old(db.tasks) + [row] &&
      db.assignments == old(db.assignments) + AssignmentRows(newId, assignees) &&
      reply == Payload(201, row)
  {
    if user == None {
      return Status(401);
    }
    if Blank(body.title) {
      return Message(400, "Task title is required");
    }
    var row := TaskRow(newId, body.title.value, body.description, DefaultStatus, None,
                       OrText(body.priority, DefaultPriority), OrNull(body.dueDate), OrNull(body.projectId), now, now);
    db.tasks := db.tasks + [row];
    var assignees := if body.assignedTo.Some? then body.assignedTo.value else [];
    if user.value.userId !in assignees {
      assignees := assignees + [user.value.userId];
    }
    if |assignees| > 0 {
      db.assignments := db.assignments + AssignmentRows(newId, assignees);
    }
    reply := Payload(201, row);
  }

  /** For a new id, the task's assignees read back as the requested list
      with the creator added: the creator is always assigned. */
  lemma CreatedTaskAssignees(assignments: seq<Assignment>, newId: string, requested: seq<string>, creator: string)
    requires AssigneesOf(assignments, newId) == []
    ensures AssigneesOf(assignments + AssignmentRows(newId, WithCreator(requested, creator)), newId) ==
      WithCreator(requested, creator)
    ensures creator in AssigneesOf(assignments + AssignmentRows(newId, WithCreator(requested, creator)), newId)
  {
    AssigneesOfAppend(assignments, AssignmentRows(newId, WithCreator(requested, creator)), newId);
    AssigneesOfRows(newId, WithCreator(requested, creator));
  }

  /** GET /api/tasks/:id: 404 for an unknown id, otherwise the row and every
      user assigned to it, whoever asks. */
  function GetTask(tasks: seq<TaskRow>, assignments: seq<Assignment>, user: Option<Claims>, taskId: string)
    : (reply: Reply<TaskView>)
    ensures user == None ==> reply == Status(401)
    ensures user.Some? && FindFirst(tasks, TaskId, taskId).None? ==> reply == Message(404, TaskNotFound)
    ensures user.Some? && FindFirst(tasks, TaskId, taskId).Some? ==>
      reply.Payload? && reply.code == 200 && reply.value.task == FindFirst(tasks, TaskId, taskId).value &&
      forall u :: u in reply.value.assignedTo <==> Assignment(taskId, u) in assignments
  {
    if user == None then Status(401)
    else
      match FindFirst(tasks, TaskId, taskId)
      case None => Message(404, TaskNotFound)
      case Some(t) => Payload(200, TaskView(t, AssigneesOf(assignments, taskId)))
  }

  /** The columns an update writes: each `Some` is a field the body defined. */
  datatype TaskChanges = TaskChanges(
    title: Option<string>, description: Option<Option<string>>, isDone: Option<Option<bool>>,
    priority: Option<string>, dueDate: Option<Option<string>>, updatedAt: int)

  /** `updateData`, built one field at a time: only fields that are not
      `undefined` are copied, a falsy due date becomes null, and
      `updatedAt` is always set. */
  method UpdateData(body: TaskPatchBody, now: int) returns (changes: TaskChanges)
    ensures changes.updatedAt == now
    ensures changes.title == body.title && changes.description == body.description
    ensures changes.isDone == body.isDone && changes.priority == body.priority
    ensures body.dueDate == None ==> changes.dueDate == None
    ensures body.dueDate.Some? ==> changes.dueDate == Some(OrNull(body.dueDate.value))
  {
    changes := TaskChanges(None, None, None, None, None, now);
    if body.title.Some? { changes := changes.(title := body.title); }
    if body.description.Some? { changes := changes.(description := body.description); }
    if body.isDone.Some? { changes := changes.(isDone := body.isDone); }
    if body.priority.Some? { changes := changes.(priority := body.priority); }
    if body.dueDate.Some? { changes := changes.(dueDate := Some(OrNull(body.dueDate.value))); }
  }

  function Pick<T>(change: Option<T>, current: T): T {
    if change.Some? then change.value else current
  }

  /** One row after `set(changes)`. */
  function ApplyChanges(row: TaskRow, changes: TaskChanges): (updated: TaskRow)
    ensures updated.id == row.id && updated.status == row.status && updated.projectId == row.projectId
    ensures updated.createdAt == row.createdAt && updated.updatedAt == changes.updatedAt
    ensures changes.title == None ==> updated.title == row.title
    ensures changes.description == None ==> updated.description == row.description
    ensures changes.isDone == None ==> updated.isDone == row.isDone
    ensures changes.priority == None ==> updated.priority == row.priority
    ensures changes.dueDate == None ==> updated.dueDate == row.dueDate
    ensures changes.title.Some? ==> updated.title == changes.title.value
    ensures changes.description.Some? ==> updated.description == changes.description.value
    ensures changes.isDone.Some? ==> updated.isDone == changes.isDone.value
    ensures changes.priority.Some? ==> updated.priority == changes.priority.value
    ensures changes.dueDate.Some? ==> updated.dueDate == changes.dueDate.value
  {
    row.(title := Pick(changes.title, row.title),
         description := Pick(changes.description, row.description),
         isDone := Pick(changes.isDone, row.isDone),
         priority := Pick(changes.priority, row.priority),
         dueDate := Pick(changes.dueDate, row.dueDate),
         updatedAt := changes.updatedAt)
  }

  /** The task table after `update ... where id = taskId`. */
  function UpdatedTasks(tasks: seq<TaskRow>, taskId: string, changes: TaskChanges): (rows: seq<TaskRow>)
    ensures |rows| == |tasks|
    ensures forall i | 0 <= i < |tasks| ::
      rows[i] == if tasks[i].id == taskId then ApplyChanges(tasks[i], changes) else tasks[i]
  {
    seq(|tasks|, i requires 0 <= i < |tasks| =>
      if tasks[i].id == taskId then ApplyChanges(tasks[i], changes) else tasks[i])
  }

  /** The task's assignments after the update: replaced by `assignedTo`
      when it is given, untouched otherwise. */
  function AssignmentsAfterUpdate(assignments: seq<Assignment>, taskId: string, assignedTo: Option<seq<string>>)
    : (rows: seq<Assignment>)
  {
    if assignedTo.None? then assignments
    else AssignmentsNotOf(assignments, taskId) + AssignmentRows(taskId, assignedTo.value)
  }

  /** PUT /api/tasks/:id. */
  method UpdateTask(db: Tables, user: Option<Claims>, taskId: string, body: TaskPatchBody, now: int)
    returns (reply: Reply<TaskView>)
    modifies db`tasks, db`assignments
    ensures user == None ==> reply == Status(401) && unchanged(db)
    ensures user.Some? && FindFirst(old(db.tasks), TaskId, taskId).None? ==>
      reply == Message(404, TaskNotFound) && unchanged(db)
    ensures user.Some? && FindFirst(old(db.tasks), TaskId, taskId).Some? ==>
      exists changes: TaskChanges ::
        changes.updatedAt == now && changes.title == body.title && changes.description == body.description &&
        changes.isDone == body.isDone && changes.priority == body.priority &&
        changes.dueDate == (if body.dueDate.Some? then Some(OrNull(body.dueDate.value)) else None) &&
        db.tasks == UpdatedTasks(old(db.tasks), taskId, changes) &&
        db.assignments == AssignmentsAfterUpdate(old(db.assignments), taskId, body.assignedTo) &&
        reply == Payload(200, TaskView(ApplyChanges(FindFirst(old(db.tasks), TaskId, taskId).value, changes),
                                       AssigneesOf(db.assignments, taskId)))
  {
    if user == None {
      return Status(401);
    }
    var found := FindFirst(db.tasks, TaskId, taskId);
    if found.None? {
      return Message(404, TaskNotFound);
    }
    var changes := UpdateData(body, now);
    db.tasks := UpdatedTasks(db.tasks, taskId, changes);
    if body.assignedTo.Some? {
      db.assignments := AssignmentsNotOf(db.assignments, taskId);
      if |body.assignedTo.value| > 0 {
        db.assignments := db.assignments + AssignmentRows(taskId, body.assignedTo.value);
      }
    }
    reply := Payload(200, TaskView(ApplyChanges(found.value, changes), AssigneesOf(db.assignments, taskId)));
  }

  /** The assignees an update reports: exactly `assignedTo` when given,
      the earlier ones otherwise; other tasks keep theirs. */
  lemma UpdateReportsAssignees(assignments: seq<Assignment>, taskId: string, assignedTo: Option<seq<string>>, other: string)
    requires other != taskId
    ensures assignedTo.Some? ==>
      AssigneesOf(AssignmentsAfterUpdate(assignments, taskId, assignedTo), taskId) == assignedTo.value
    ensures assignedTo.None? ==>
      AssigneesOf(AssignmentsAfterUpdate(assignments, taskId, assignedTo), taskId) == AssigneesOf(assignments, taskId)
    ensures AssigneesOf(AssignmentsAfterUpdate(assignments, taskId, assignedTo), other) == AssigneesOf(assignments, other)
  {
    if assignedTo.Some? {
      AssigneesAfterReplace(assignments, taskId, assignedTo.value);
      AssigneesOfAppend(AssignmentsNotOf(assignments, taskId), AssignmentRows(taskId, assignedTo.value), other);
      AssigneesOfOtherTask(assignments, taskId, other);
      AssigneesOfRowsOther(taskId, assignedTo.value, other);
    }
  }

  lemma {:induction false} AssigneesOfRowsOther(taskId: string, userIds: seq<string>, other: string)
    requires other != taskId
    ensures AssigneesOf(AssignmentRows(taskId, userIds), other) == []
  {
    if userIds != [] {
      assert AssignmentRows(taskId, userIds)[1..] == AssignmentRows(taskId, userIds[1..]);
      AssigneesOfRowsOther(taskId, userIds[1..], other);
    }
  }

  /** DELETE /api/tasks/:id: 204 whether or not the task exists; when it
      does, its assignments and its row are removed. */
  method DeleteTask(db: Tables, user: Option<Claims>, taskId: string) returns (reply: Reply<()>)
    modifies db`tasks, db`assignments
    ensures user == None ==> reply == Status(401) && unchanged(db)
    ensures user.Some? ==> reply == Status(204)
    ensures user.Some? && FindFirst(old(db.tasks), TaskId, taskId).None? ==> unchanged(db)
    ensures user.Some? && FindFirst(old(db.tasks), TaskId, taskId).Some? ==>
      db.tasks == RowsWithout(old(db.tasks), TaskId, taskId) &&
      db.assignments == AssignmentsNotOf(old(db.assignments), taskId)
  {
    if user == None {
      return Status(401);
    }
    if FindFirst(db.tasks, TaskId, taskId).None? {
      return Status(204);
    }
    db.assignments := AssignmentsNotOf(db.assignments, taskId);
    db.tasks := RowsWithout(db.tasks, TaskId, taskId);
    reply := Status(204);
  }

  /** POST /api/tasks/:id/comments: the content is checked, and then the
      route answers 501 without storing anything. */
  function AddComment(user: Option<Claims>, taskId: string, content: Option<string>): (reply: Reply<()>)
    ensures user == None ==> reply == Status(401)
    ensures user.Some? && Blank(content) ==> reply == Message(400, "Comment content is required")
    ensures user.Some? && !Blank(content) ==> reply.code == 501 && reply.Message?
    ensures reply.code != 201
  {
    if user == None then Status(401)
    else if Blank(content) then Message(400, "Comment content is required")
    else Message(501, "POST /api/tasks/" + taskId + "/comments - Not implemented yet")
  }
}
