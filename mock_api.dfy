/** client/src/services/mockApi.ts: the stand-in backend the client can
    run against. Three module-level arrays (users, projects, tasks) are
    changed in place; failures are thrown as `{ response: { data: { message } } }`,
    modelled as `Failed(message)`. The artificial delay is left out.

    Projects and tasks are plain objects (the services spread whatever
    data the caller passes), users have the fixed shape the service builds. */
module MockApi {
  import opened Js

  datatype Outcome<T> = Ok(value: T) | Failed(message: string)

  datatype MockUser = MockUser(id: string, name: string, email: string, role: string, avatarUrl: Option<string>)
  datatype Session = Session(user: MockUser, token: string)

  const InvalidCredentials := "Credenziali non valide"
  const EmailInUse := "Email già in uso"
  const ProjectNotFound := "Progetto non trovato"
  const TaskNotFound := "Task non trovato"
  const MockToken := "mock-jwt-token"
  const MockPassword := "password"

  const SeedUsers: seq<MockUser> := [
    MockUser("1", "Mario Rossi", "mario@example.com", "admin", None),
    MockUser("2", "Giulia Bianchi", "giulia@example.com", "member", None)]

  function SeedProject(id: string, name: string, description: string, status: string, dueDate: string): Record {
    map["id" := Str(id), "name" := Str(name), "description" := Str(description),
        "status" := Str(status), "dueDate" := Str(dueDate)]
  }

  const SeedProjects: seq<Record> := [
    SeedProject("1", "Redesign Website", "Aggiornamento del sito web aziendale", "in-progress", "2025-06-15"),
    SeedProject("2", "App Mobile", "Sviluppo app mobile per clienti", "pending", "2025-07-30"),
    SeedProject("3", "Migrazione Database", "Migrazione da MySQL a PostgreSQL", "completed", "2025-03-10")]

  function SeedTask(id: string, title: string, description: string, status: string, priority: string,
                    dueDate: string, projectId: string, projectName: string): Record {
    map["id" := Str(id), "title" := Str(title), "description" := Str(description), "status" := Str(status),
        "priority" := Str(priority), "dueDate" := Str(dueDate), "projectId" := Str(projectId),
        "projectName" := Str(projectName)]
  }

  const SeedTasks: seq<Record> := [
    SeedTask("1", "Design Homepage", "Creare il nuovo design della homepage", "completed", "high", "2025-05-20", "1", "Redesign Website"),
    SeedTask("2", "Sviluppo Frontend", "Implementare il frontend responsive", "in-progress", "high", "2025-06-01", "1", "Redesign Website"),
    SeedTask("3", "Wireframe App", "Creare wireframe per app mobile", "pending", "medium", "2025-07-10", "2", "App Mobile"),
    SeedTask("4", "Schema Database", "Definire il nuovo schema database", "completed", "medium", "2025-03-01", "3", "Migrazione Database"),
    SeedTask("5", "Test Backend", "Testare le API del backend", "pending", "low", "2025-06-10", "1", "Redesign Website")]

  /** `rows.findIndex(r => r.id === id)`: the first index with that id, or -1. */
  function IndexOfId(rows: seq<Record>, id: string): (i: int)
    ensures -1 <= i < |rows|
    ensures i == -1 <==> forall k | 0 <= k < |rows| :: Get(rows[k], "id") != Str(id)
    ensures i >= 0 ==> Get(rows[i], "id") == Str(id) && forall k | 0 <= k < i :: Get(rows[k], "id") != Str(id)
  {
    if rows == [] then -1
    else if Get(rows[0], "id") == Str(id) then 0
    else
      var rest := IndexOfId(rows[1..], id);
      if rest == -1 then -1 else rest + 1
  }

  /** `{ id: String(n), ...data }`: a caller-supplied `id` wins. */
  function WithNumberedId(n: nat, data: Record): (item: Record)
    ensures item.Keys == data.Keys + {"id"}
    ensures "id" !in data ==> item["id"] == Str(NatToString(n))
    ensures forall k | k in data :: item[k] == data[k]
  {
    map["id" := Str(NatToString(n))] + data
  }

  /** `array.splice(i, 1)`. */
  function RemoveAt<T>(rows: seq<T>, i: nat): (rest: seq<T>)
    requires i < |rows|
    ensures |rest| == |rows| - 1
    ensures forall k | 0 <= k < i :: rest[k] == rows[k]
    ensures forall k | i <= k < |rest| :: rest[k] == rows[k + 1]
  {
    rows[..i] + rows[i + 1..]
  }

  /** `tasks.filter(t => t.projectId === projectId)`. */
  function TasksOfProject(tasks: seq<Record>, projectId: string): (found: seq<Record>)
    ensures |found| <= |tasks|
    ensures forall t | t in found :: t in tasks && Get(t, "projectId") == Str(projectId)
    ensures forall t | t in tasks && Get(t, "projectId") == Str(projectId) :: t in found
  {
    if tasks == [] then []
    else (if Get(tasks[0], "projectId") == Str(projectId) then [tasks[0]] else []) + TasksOfProject(tasks[1..], projectId)
  }

  /** The filter keeps array order. */
  lemma {:induction false} TasksOfProjectAppend(a: seq<Record>, b: seq<Record>, projectId: string)
    ensures TasksOfProject(a + b, projectId) == TasksOfProject(a, projectId) + TasksOfProject(b, projectId)
  {
    if a == [] {
      assert a + b == b;
    } else {
      assert (a + b)[1..] == a[1..] + b;
      TasksOfProjectAppend(a[1..], b, projectId);
    }
  }

  function FindUserByEmail(users: seq<MockUser>, email: string): (found: Option<MockUser>)
    ensures found.None? <==> forall u | u in users :: u.email != email
    ensures found.Some? ==> found.value in users && found.value.email == email
  {
    if users == [] then None
    else if users[0].email == email then Some(users[0])
    else FindUserByEmail(users[1..], email)
  }

  class MockStore {
    var users: seq<MockUser>
    var projects: seq<Record>
    var tasks: seq<Record>

    constructor ()
      ensures users == SeedUsers && projects == SeedProjects && tasks == SeedTasks
    {
      users, projects, tasks := SeedUsers, SeedProjects, SeedTasks;
    }

    // ---- mockAuthService ----

    /** `login`: the user with that email, when the password is the fixed
        mock password; one error for every other case. */
    function Login(email: string, password: string): (result: Outcome<Session>)
      reads this
      ensures result.Ok? <==> FindUserByEmail(users, email).Some? && password == MockPassword
      ensures result.Ok? ==> result.value == Session(FindUserByEmail(users, email).value, MockToken)
      ensures result.Failed? ==> result.message == InvalidCredentials
    {
      match FindUserByEmail(users, email)
      case None => Failed(InvalidCredentials)
      case Some(u) => if password != MockPassword then Failed(InvalidCredentials) else Ok(Session(u, MockToken))
    }

    /** `register`: refuses a taken email; otherwise appends a member whose
        id is the new length. The password is not kept. */
    method Register(name: string, email: string, password: string) returns (result: Outcome<MockUser>)
      modifies this`users
      ensures (exists u | u in old(users) :: u.email == email) ==>
        result == Failed(EmailInUse) && users == old(users)
      ensures (forall u | u in old(users) :: u.email != email) ==>
        var created := MockUser(NatToString(|old(users)| + 1), name, email, "member", None);
        users == old(users) + [created] && result == Ok(created)
    {
      if FindUserByEmail(users, email).Some? {
        return Failed(EmailInUse);
      }
      var created := MockUser(NatToString(|users| + 1), name, email, "member", None);
      users := users + [created];
      result := Ok(created);
    }

    function Logout(): (done: bool)
      ensures done
    {
      true
    }

    /** `getCurrentUser`: always the first user, whoever logged in. */
    function GetCurrentUser(): (current: Option<MockUser>)
      reads this
      ensures users != [] ==> current == Some(users[0])
      ensures users == [] ==> current == None
    {
      if users == [] then None else Some(users[0])
    }

    // ---- mockProjectsService ----

    function GetAllProjects(): (all: seq<Record>)
      reads this
      ensures all == projects
    {
      projects
    }

    function GetProjectById(id: string): (result: Outcome<Record>)
      reads this
      ensures IndexOfId(projects, id) == -1 <==> result == Failed(ProjectNotFound)
      ensures result.Ok? ==> result.value == projects[IndexOfId(projects, id)]
    {
      var i := IndexOfId(projects, id);
      if i == -1 then Failed(ProjectNotFound) else Ok(projects[i])
    }

    method CreateProject(data: Record) returns (created: Record)
      modifies this`projects
      ensures created == WithNumberedId(|old(projects)| + 1, data)
      ensures projects == old(projects) + [created]
    {
      created := WithNumberedId(|projects| + 1, data);
      projects := projects + [created];
    }

    method UpdateProject(id: string, data: Record) returns (result: Outcome<Record>)
      modifies this`projects
      ensures IndexOfId(old(projects), id) == -1 ==> result == Failed(ProjectNotFound) && projects == old(projects)
      ensures IndexOfId(old(projects), id) >= 0 ==>
        var i := IndexOfId(old(projects), id);
        projects == old(projects)[i := old(projects)[i] + data] && result == Ok(projects[i])
    {
      var i := IndexOfId(projects, id);
      if i == -1 {
        return Failed(ProjectNotFound);
      }
      projects := projects[i := projects[i] + data];
      result := Ok(projects[i]);
    }

    method DeleteProject(id: string) returns (result: Outcome<bool>)
      modifies this`projects
      ensures IndexOfId(old(projects), id) == -1 ==> result == Failed(ProjectNotFound) && projects == old(projects)
      ensures IndexOfId(old(projects), id) >= 0 ==>
        projects == RemoveAt(old(projects), IndexOfId(old(projects), id)) && result == Ok(true)
    {
      var i := IndexOfId(projects, id);
      if i == -1 {
        return Failed(ProjectNotFound);
      }
      projects := RemoveAt(projects, i);
      result := Ok(true);
    }

    // ---- mockTasksService ----

    function GetAllTasks(): (all: seq<Record>)
      reads this
      ensures all == tasks
    {
      tasks
    }

    function GetTasksByProject(projectId: string): (found: seq<Record>)
      reads this
      ensures found == TasksOfProject(tasks, projectId)
    {
      TasksOfProject(tasks, projectId)
    }

    function GetTaskById(id: string): (result: Outcome<Record>)
      reads this
      ensures IndexOfId(tasks, id) == -1 <==> result == Failed(TaskNotFound)
      ensures result.Ok? ==> result.value == tasks[IndexOfId(tasks, id)]
    {
      var i := IndexOfId(tasks, id);
      if i == -1 then Failed(TaskNotFound) else Ok(tasks[i])
    }

    method CreateTask(data: Record) returns (created: Record)
      modifies this`tasks
      ensures created == WithNumberedId(|old(tasks)| + 1, data)
      ensures tasks == old(tasks) + [created]
    {
      created := WithNumberedId(|tasks| + 1, data);
      tasks := tasks + [created];
    }

    method UpdateTask(id: string, data: Record) returns (result: Outcome<Record>)
      modifies this`tasks
      ensures IndexOfId(old(tasks), id) == -1 ==> result == Failed(TaskNotFound) && tasks == old(tasks)
      ensures IndexOfId(old(tasks), id) >= 0 ==>
        var i := IndexOfId(old(tasks), id);
        tasks == old(tasks)[i := old(tasks)[i] + data] && result == Ok(tasks[i])
    {
      var i := IndexOfId(tasks, id);
      if i == -1 {
        return Failed(TaskNotFound);
      }
      tasks := tasks[i := tasks[i] + data];
      result := Ok(tasks[i]);
    }

    method UpdateTaskStatus(id: string, status: string) returns (result: Outcome<Record>)
      modifies this`tasks
      ensures IndexOfId(old(tasks), id) == -1 ==> result == Failed(TaskNotFound) && tasks == old(tasks)
      ensures IndexOfId(old(tasks), id) >= 0 ==>
        var i := IndexOfId(old(tasks), id);
        tasks == old(tasks)[i := old(tasks)[i]["status" := Str(status)]] && result == Ok(tasks[i])
    {
      var i := IndexOfId(tasks, id);
      if i == -1 {
        return Failed(TaskNotFound);
      }
      tasks := tasks[i := tasks[i]["status" := Str(status)]];
      result := Ok(tasks[i]);
    }

    method DeleteTask(id: string) returns (result: Outcome<bool>)
      modifies this`tasks
      ensures IndexOfId(old(tasks), id) == -1 ==> result == Failed(TaskNotFound) && tasks == old(tasks)
      ensures IndexOfId(old(tasks), id) >= 0 ==>
        tasks == RemoveAt(old(tasks), IndexOfId(old(tasks), id)) && result == Ok(true)
    {
      var i := IndexOfId(tasks, id);
      if i == -1 {
        return Failed(TaskNotFound);
      }
      tasks := RemoveAt(tasks, i);
      result := Ok(true);
    }
  }

  /** An unknown email and a wrong password fail with the same message. */
  lemma LoginFailsAlike(store: MockStore, unknown: string, known: string, p1: string, p2: string)
    requires forall u | u in store.users :: u.email != unknown
    requires FindUserByEmail(store.users, known).Some? && p2 != MockPassword
    ensures store.Login(unknown, p1) == store.Login(known, p2) == Failed(InvalidCredentials)
  {
  }

  /** A user just registered can log in with the mock password, and gets
      the new record back. */
  lemma {:induction false} RegisteredCanLogIn(users: seq<MockUser>, created: MockUser)
    requires forall u | u in users :: u.email != created.email
    ensures FindUserByEmail(users + [created], created.email) == Some(created)
  {
    if users == [] {
      assert users + [created] == [created];
    } else {
      assert (users + [created])[1..] == users[1..] + [created];
      RegisteredCanLogIn(users[1..], created);
    }
  }

  /** Only the status of the task changes on a status update: every other
      field and every other task is as before. */
  lemma StatusUpdateChangesOnlyStatus(tasks: seq<Record>, i: nat, status: string, key: string)
    requires i < |tasks| && key != "status"
    ensures Get(tasks[i := tasks[i]["status" := Str(status)]][i], key) == Get(tasks[i], key)
    ensures forall k | 0 <= k < |tasks| && k != i :: tasks[i := tasks[i]["status" := Str(status)]][k] == tasks[k]
  {
  }

  /** Numbered ids can repeat: after the first seeded task is deleted, a
      new task is numbered "5", which the last seeded task already has. */
  lemma NumberedIdsCanCollide()
    ensures var afterDelete := RemoveAt(SeedTasks, 0);
      var created := WithNumberedId(|afterDelete| + 1, map[]);
      created["id"] == Str("5") && Get(afterDelete[3], "id") == Str("5")
  {
    var afterDelete := RemoveAt(SeedTasks, 0);
    assert |afterDelete| + 1 == 5;
    assert NatToString(5) == "5";
    assert afterDelete[3] == SeedTasks[4];
  }
}
