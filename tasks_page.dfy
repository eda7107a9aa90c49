/** client/src/pages/TasksPage.tsx: the task list with its create form,
    the optimistic toggle and delete that revert when the server refuses,
    the replacement after an edit, and the id-to-name map of the
    assignees. Each handler is one step; the server's answer is a
    parameter. */
module TasksPage {
  import opened Js

  datatype ApiTask = ApiTask(id: string, title: string, description: Option<string>, priority: string,
                             dueDate: Option<string>, isDone: bool, assignedTo: Option<seq<string>>)

  /** A user as fetched; `username` is read although the declared user
      type has no such field, so it may well be missing. */
  datatype FetchedUser = FetchedUser(id: string, username: Option<string>)

  /** The body of the create request. */
  datatype NewTaskData = NewTaskData(title: string, assignedTo: seq<string>)

  /** What the server answered to a create request. */
  datatype CreateAnswer = Created(task: ApiTask) | CreateRefused(message: Option<string>)

  const TitleRequired := "Task title is required."
  const CreateFailed := "Failed to create task."
  const ToggleFailed := "Failed to update task status. Please try again."
  const DeleteFailed := "Failed to delete task. Please try again."
  const UnknownUser := "Unknown User"

  /** `tasks.map(t => t.id === id ? { ...t, isDone: !t.isDone } : t)` */
  function Toggled(tasks: seq<ApiTask>, id: string): (toggled: seq<ApiTask>)
    ensures |toggled| == |tasks|
    ensures forall i | 0 <= i < |tasks| ::
      toggled[i] == if tasks[i].id == id then tasks[i].(isDone := !tasks[i].isDone) else tasks[i]
  {
    seq(|tasks|, i requires 0 <= i < |tasks| =>
      if tasks[i].id == id then tasks[i].(isDone := !tasks[i].isDone) else tasks[i])
  }

  /** `tasks.map(t => t.id === id ? { ...t, isDone: value } : t)` */
  function WithDone(tasks: seq<ApiTask>, id: string, value: bool): (updated: seq<ApiTask>)
    ensures |updated| == |tasks|
    ensures forall i | 0 <= i < |tasks| ::
      updated[i] == if tasks[i].id == id then tasks[i].(isDone := value) else tasks[i]
  {
    seq(|tasks|, i requires 0 <= i < |tasks| => if tasks[i].id == id then tasks[i].(isDone := value) else tasks[i])
  }

  /** `tasks.filter(t => t.id !== id)` */
  function Without(tasks: seq<ApiTask>, id: string): (kept: seq<ApiTask>)
    ensures |kept| <= |tasks|
    ensures forall t | t in kept :: t in tasks && t.id != id
    ensures forall t | t in tasks && t.id != id :: t in kept
  {
    if tasks == [] then []
    else (if tasks[0].id != id then [tasks[0]] else []) + Without(tasks[1..], id)
  }

  /** The filter keeps list order. */
  lemma {:induction false} WithoutAppend(a: seq<ApiTask>, b: seq<ApiTask>, id: string)
    ensures Without(a + b, id) == Without(a, id) + Without(b, id)
  {
    if a == [] {
      assert a + b == b;
    } else {
      assert (a + b)[1..] == a[1..] + b;
      WithoutAppend(a[1..], b, id);
    }
  }

  /** Removing a task that is not listed changes nothing. */
  lemma {:induction false} WithoutAbsent(tasks: seq<ApiTask>, id: string)
    requires forall t | t in tasks :: t.id != id
    ensures Without(tasks, id) == tasks
  {
    if tasks != [] {
      WithoutAbsent(tasks[1..], id);
    }
  }

  /** `tasks.map(t => t.id === updated.id ? updated : t)` */
  function Replaced(tasks: seq<ApiTask>, updated: ApiTask): (replaced: seq<ApiTask>)
    ensures |replaced| == |tasks|
    ensures forall i | 0 <= i < |tasks| :: replaced[i] == if tasks[i].id == updated.id then updated else tasks[i]
  {
    seq(|tasks|, i requires 0 <= i < |tasks| => if tasks[i].id == updated.id then updated else tasks[i])
  }

  /** Toggling twice gives the list back. */
  lemma ToggleTwice(tasks: seq<ApiTask>, id: string)
    ensures Toggled(Toggled(tasks, id), id) == tasks
  {
    assert forall i | 0 <= i < |tasks| :: Toggled(Toggled(tasks, id), id)[i] == tasks[i];
  }

  /** The revert restores the list when every task with the clicked id
      had the clicked task's `isDone`, in particular when ids are unique. */
  lemma RevertRestores(tasks: seq<ApiTask>, clicked: ApiTask)
    requires forall t | t in tasks && t.id == clicked.id :: t.isDone == clicked.isDone
    ensures WithDone(tasks, clicked.id, clicked.isDone) == tasks
  {
    forall i | 0 <= i < |tasks| ensures WithDone(tasks, clicked.id, clicked.isDone)[i] == tasks[i] {
      assert tasks[i] in tasks;
    }
  }

  /** With two tasks under one id and different `isDone`, the revert
      cannot give both back their own value. */
  lemma RevertWithSharedId()
    ensures var a := ApiTask("1", "a", None, "low", None, false, None);
      var b := ApiTask("1", "b", None, "low", None, true, None);
      WithDone([a, b], a.id, a.isDone) != [a, b]
  {
    var a := ApiTask("1", "a", None, "low", None, false, None);
    var b := ApiTask("1", "b", None, "low", None, true, None);
    assert WithDone([a, b], a.id, a.isDone)[1] != b;
  }

  /** `map[user.id] = user.username` over the users in order: a later
      user with the same id overwrites an earlier one. */
  function UserMapOf(users: seq<FetchedUser>): (m: map<string, Option<string>>)
    ensures forall id :: id in m <==> exists u | u in users :: u.id == id
  {
    if users == [] then map[]
    else
      var last := users[|users| - 1];
      var before := UserMapOf(users[..|users| - 1]);
      assert forall u | u in users :: u in users[..|users| - 1] || u == last;
      before[last.id := last.username]
  }

  /** The name a user id maps to is the one of the last user with that id. */
  lemma {:induction false} UserMapHoldsLastName(users: seq<FetchedUser>, i: nat)
    requires i < |users|
    requires forall j | i < j < |users| :: users[j].id != users[i].id
    ensures UserMapOf(users)[users[i].id] == users[i].username
  {
    if i < |users| - 1 {
      UserMapHoldsLastName(users[..|users| - 1], i);
    }
  }

  /** The filling loop of the load effect. */
  method BuildUserMap(users: seq<FetchedUser>) returns (m: map<string, Option<string>>)
    ensures m == UserMapOf(users)
  {
    m := map[];
    var i := 0;
    while i < |users|
      invariant 0 <= i <= |users|
      invariant m == UserMapOf(users[..i])
    {
      assert users[..i + 1][..i] == users[..i];
      m := m[users[i].id := users[i].username];
      i := i + 1;
    }
    assert users[..|users|] == users;
  }

  /** `userMap[userId] || 'Unknown User'` */
  function AssigneeLabel(userMap: map<string, Option<string>>, userId: string): (shown: string)
    ensures shown == UnknownUser <==>
      userId !in userMap || Blank(userMap[userId]) || userMap[userId] == Some(UnknownUser)
    ensures shown != UnknownUser ==> Some(shown) == userMap[userId]
  {
    if userId in userMap && !Blank(userMap[userId]) then userMap[userId].value else UnknownUser
  }

  /** An id no fetched user has is shown as unknown. */
  lemma UnmappedIsUnknown(users: seq<FetchedUser>, userId: string)
    requires forall u | u in users :: u.id != userId
    ensures AssigneeLabel(UserMapOf(users), userId) == UnknownUser
  {
  }

  /** Users without a `username` map their ids to nothing. */
  lemma {:induction false} NamelessUsersMapToNothing(users: seq<FetchedUser>)
    requires forall u | u in users :: u.username == None
    ensures forall id | id in UserMapOf(users) :: UserMapOf(users)[id] == None
  {
    if users != [] {
      var before := users[..|users| - 1];
      assert forall u | u in before :: u in users;
      NamelessUsersMapToNothing(before);
      assert users[|users| - 1] in users;
    }
  }

  /** When the fetched users carry no `username`, as the declared user
      type has none, every assignee is shown as unknown. */
  lemma NamelessUsersShowUnknown(users: seq<FetchedUser>, userId: string)
    requires forall u | u in users :: u.username == None
    ensures AssigneeLabel(UserMapOf(users), userId) == UnknownUser
  {
    NamelessUsersMapToNothing(users);
  }

  class Page {
    var tasks: seq<ApiTask>
    var newTaskTitle: string
    var createError: Option<string>
    var error: Option<string>
    var userMap: map<string, Option<string>>

    constructor ()
      ensures tasks == [] && newTaskTitle == "" && createError == None && error == None && userMap == map[]
    {
      tasks, newTaskTitle, createError, error, userMap := [], "", None, None, map[];
    }

    /** The load effect once both requests answered. */
    method Loaded(fetchedTasks: seq<ApiTask>, fetchedUsers: seq<FetchedUser>)
      modifies this`tasks, this`userMap, this`error
      ensures tasks == fetchedTasks && userMap == UserMapOf(fetchedUsers) && error == None
    {
      error := None;
      tasks := fetchedTasks;
      userMap := BuildUserMap(fetchedUsers);
    }

    /** `handleCreateTask`: an empty title stops with an error and no
        request; otherwise the request assigns the current user, if any,
        and the created task is appended and the form cleared. */
    method HandleCreateTask(currentUserId: Option<string>, answer: CreateAnswer)
      returns (request: Option<NewTaskData>)
      modifies this`tasks, this`newTaskTitle, this`createError
      ensures old(newTaskTitle) == "" ==>
        request == None && createError == Some(TitleRequired) && tasks == old(tasks) && newTaskTitle == old(newTaskTitle)
      ensures old(newTaskTitle) != "" ==>
        request == Some(NewTaskData(old(newTaskTitle), if currentUserId.Some? then [currentUserId.value] else []))
      ensures old(newTaskTitle) != "" && answer.Created? ==>
        tasks == old(tasks) + [answer.task] && newTaskTitle == "" && createError == None
      ensures old(newTaskTitle) != "" && answer.CreateRefused? ==>
        tasks == old(tasks) && newTaskTitle == old(newTaskTitle) &&
        createError == Some(if Blank(answer.message) then CreateFailed else answer.message.value)
    {
      if newTaskTitle == "" {
        createError := Some(TitleRequired);
        return None;
      }
      createError := None;
      request := Some(NewTaskData(newTaskTitle, if currentUserId.Some? then [currentUserId.value] else []));
      match answer
      case Created(task) =>
        tasks := tasks + [task];
        newTaskTitle := "";
      case CreateRefused(message) =>
        createError := Some(if Blank(message) then CreateFailed else message.value);
    }

    /** `handleToggleTaskStatus`: the list shows the flip at once; when
        the server refuses, every task with that id gets the clicked
        task's old `isDone` back. */
    method HandleToggleTaskStatus(task: ApiTask, succeeded: bool) returns (requestIsDone: bool)
      modifies this`tasks, this`error
      ensures requestIsDone == !task.isDone
      ensures succeeded ==> tasks == Toggled(old(tasks), task.id) && error == old(error)
      ensures !succeeded ==> tasks == WithDone(old(tasks), task.id, task.isDone) && error == Some(ToggleFailed)
    {
      var original := tasks;
      var originalStatus := task.isDone;
      tasks := Toggled(original, task.id);
      requestIsDone := !task.isDone;
      if !succeeded {
        error := Some(ToggleFailed);
        tasks := WithDone(original, task.id, originalStatus);
      }
    }

    /** `handleDeleteTask`: the tasks with that id disappear at once and
        the saved list comes back when the server refuses. */
    method HandleDeleteTask(taskId: string, succeeded: bool)
      modifies this`tasks, this`error
      ensures succeeded ==> tasks == Without(old(tasks), taskId) && error == old(error)
      ensures !succeeded ==> tasks == old(tasks) && error == Some(DeleteFailed)
    {
      var originalTasks := tasks;
      tasks := Without(tasks, taskId);
      if !succeeded {
        error := Some(DeleteFailed);
        tasks := originalTasks;
      }
    }

    /** `handleUpdateTask`: the edited task takes the place of its id. */
    method HandleUpdateTask(updated: ApiTask)
      modifies this`tasks
      ensures tasks == Replaced(old(tasks), updated)
    {
      tasks := Replaced(tasks, updated);
    }
  }
}
