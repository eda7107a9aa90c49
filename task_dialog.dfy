/** client/src/components/TaskDialog.tsx: the fields the dialog starts
    with, the resolution of the assignee ids against the known users, the
    title check and the payload handed to `onSave`. The due date is kept
    as the text the dialog holds; parsing and `toISOString` are not part
    of this model. */
module TaskDialog {
  import opened Js

  datatype DialogUser = DialogUser(id: string, name: string)

  /** The task being edited, with every field as optional as the dialog
      treats it. */
  datatype DialogTask = DialogTask(id: Option<string>, title: Option<string>, description: Option<string>,
                                   status: Option<string>, priority: Option<string>, dueDate: Option<string>,
                                   projectId: Option<string>, assignedTo: Option<seq<string>>)

  datatype Fields = Fields(title: string, description: string, status: string, priority: string,
                           dueDate: Option<string>, selectedProject: Option<string>, assignees: seq<DialogUser>)

  /** The object handed to `onSave`; `id` is present only when editing a
      task that has one. */
  datatype TaskData = TaskData(title: string, description: string, status: string, priority: string,
                               dueDate: Option<string>, projectId: Option<string>, assignedTo: seq<string>,
                               id: Option<string>)

  const TitleRequired := "Il titolo è obbligatorio"

  /** `users.find(u => u.id === id)` */
  function FindUser(users: seq<DialogUser>, id: string): (found: Option<DialogUser>)
    ensures found.None? <==> forall u | u in users :: u.id != id
    ensures found.Some? ==> found.value in users && found.value.id == id
  {
    if users == [] then None else if users[0].id == id then Some(users[0]) else FindUser(users[1..], id)
  }

  /** `ids.map(id => users.find(u => u.id === id)).filter(Boolean)` */
  function ResolveAssignees(ids: seq<string>, users: seq<DialogUser>): (resolved: seq<DialogUser>)
    ensures |resolved| <= |ids|
    ensures forall u | u in resolved :: u in users && u.id in ids
  {
    if ids == [] then []
    else
      var found := FindUser(users, ids[0]);
      (if found.Some? then [found.value] else []) + ResolveAssignees(ids[1..], users)
  }

  /** The ids of the users known to the dialog. */
  function KnownIds(ids: seq<string>, users: seq<DialogUser>): seq<string> {
    if ids == [] then []
    else (if FindUser(users, ids[0]).Some? then [ids[0]] else []) + KnownIds(ids[1..], users)
  }

  /** Resolving keeps the known ids in their order and drops the others. */
  lemma {:induction false} ResolvedIdsAreKnownIds(ids: seq<string>, users: seq<DialogUser>)
    ensures Ids(ResolveAssignees(ids, users)) == KnownIds(ids, users)
  {
    if ids != [] {
      ResolvedIdsAreKnownIds(ids[1..], users);
      var found := FindUser(users, ids[0]);
      IdsAppend(if found.Some? then [found.value] else [], ResolveAssignees(ids[1..], users));
    }
  }

  /** When every id belongs to a known user, nothing is dropped. */
  lemma {:induction false} AllKnownKeepsIds(ids: seq<string>, users: seq<DialogUser>)
    requires forall id | id in ids :: exists u | u in users :: u.id == id
    ensures KnownIds(ids, users) == ids
  {
    if ids != [] {
      assert ids[0] in ids;
      assert forall id | id in ids[1..] :: id in ids;
      AllKnownKeepsIds(ids[1..], users);
      assert [ids[0]] + ids[1..] == ids;
    }
  }

  /** `assignees.map(a => a.id)` */
  function Ids(assignees: seq<DialogUser>): (ids: seq<string>)
    ensures |ids| == |assignees|
    ensures forall i | 0 <= i < |assignees| :: ids[i] == assignees[i].id
  {
    seq(|assignees|, i requires 0 <= i < |assignees| => assignees[i].id)
  }

  lemma IdsAppend(a: seq<DialogUser>, b: seq<DialogUser>)
    ensures Ids(a + b) == Ids(a) + Ids(b)
  {
  }

  /** The initialisation effect: the task's values with their defaults
      when editing, a fresh form otherwise. */
  function InitialFields(task: Option<DialogTask>, users: seq<DialogUser>, projectId: Option<string>,
                         currentUser: Option<DialogUser>): (f: Fields)
    ensures task.Some? ==>
      var t := task.value;
      f.title == OrText(t.title, "") && f.description == OrText(t.description, "") &&
      f.status == OrText(t.status, "pending") && f.priority == OrText(t.priority, "medium") &&
      f.dueDate == OrNull(t.dueDate) && f.selectedProject == OrNull(t.projectId) &&
      f.assignees == (if t.assignedTo.Some? && |t.assignedTo.value| > 0 && |users| > 0
                      then ResolveAssignees(t.assignedTo.value, users) else [])
    ensures task.None? ==>
      f == Fields("", "", "pending", "medium", None, OrNull(projectId),
                  if currentUser.Some? then [currentUser.value] else [])
  {
    match task
    case Some(t) =>
      Fields(OrText(t.title, ""), OrText(t.description, ""), OrText(t.status, "pending"),
             OrText(t.priority, "medium"), OrNull(t.dueDate), OrNull(t.projectId),
             if t.assignedTo.Some? && |t.assignedTo.value| > 0 && |users| > 0
             then ResolveAssignees(t.assignedTo.value, users) else [])
    case None =>
      Fields("", "", "pending", "medium", None, OrNull(projectId),
             if currentUser.Some? then [currentUser.value] else [])
  }

  /** `validateForm`: the validity and the title error it sets. */
  function ValidateForm(title: string): (r: (bool, string))
    ensures r.0 <==> !IsBlankAfterTrim(title)
    ensures r.1 == if r.0 then "" else TitleRequired
  {
    if IsBlankAfterTrim(title) then (false, TitleRequired) else (true, "")
  }

  /** `handleSave`: nothing for an invalid title, otherwise the payload. */
  function HandleSave(f: Fields, task: Option<DialogTask>): (saved: Option<TaskData>)
    ensures saved.None? <==> IsBlankAfterTrim(f.title)
    ensures saved.Some? ==>
      var d := saved.value;
      d.title == f.title && d.description == f.description && d.status == f.status &&
      d.priority == f.priority && d.dueDate == f.dueDate && d.projectId == f.selectedProject &&
      d.assignedTo == Ids(f.assignees) &&
      (d.id.Some? <==> task.Some? && !Blank(task.value.id)) &&
      (d.id.Some? ==> d.id == task.value.id)
  {
    if !ValidateForm(f.title).0 then None
    else
      Some(TaskData(f.title, f.description, f.status, f.priority, f.dueDate, f.selectedProject,
                    Ids(f.assignees), if task.Some? && !Blank(task.value.id) then task.value.id else None))
  }

  /** Opening a task with a title whose assignees are all known users and
      saving it unchanged sends the same title and the same assignee ids,
      under the task's own id. */
  lemma EditUnchangedRoundTrip(t: DialogTask, users: seq<DialogUser>, currentUser: Option<DialogUser>)
    requires t.title.Some? && !IsBlankAfterTrim(t.title.value) && t.id.Some? && t.id.value != ""
    requires t.assignedTo.Some? && |users| > 0
    requires forall id | id in t.assignedTo.value :: exists u | u in users :: u.id == id
    ensures var saved := HandleSave(InitialFields(Some(t), users, None, currentUser), Some(t));
      saved.Some? && saved.value.title == t.title.value && saved.value.id == t.id &&
      saved.value.assignedTo == t.assignedTo.value
  {
    var ids := t.assignedTo.value;
    if |ids| > 0 {
      ResolvedIdsAreKnownIds(ids, users);
      AllKnownKeepsIds(ids, users);
    }
  }

  /** A new task from a signed-in user is assigned to that user. */
  lemma NewTaskAssignsCurrentUser(f: Fields, users: seq<DialogUser>, projectId: Option<string>, me: DialogUser)
    requires f == InitialFields(None, users, projectId, Some(me))
    ensures f.assignees == [me] && f.status == "pending" && f.priority == "medium"
    ensures HandleSave(f, None) == None
  {
  }
}
