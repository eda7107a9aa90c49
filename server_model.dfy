/** The server's entities (the rows of its tables and the identity a token
    carries), the tables the route handlers read and write, and the shape of
    an HTTP reply. Row fields follow the table definitions; ids are strings,
    as the token payload declares them. */
module ServerModel {
  import opened Js

  /** The decoded token payload attached to a request as `req.user`:
      the three claims the login handler signs, plus the issue and expiry
      times (seconds) the signing library adds. */
  datatype Claims = Claims(userId: string, email: string, role: string, iat: int, exp: int)

  const AdminRole := "admin"
  const MemberRole := "member"

  /** A row of `users`. `passwordHash` holds the stored credential. */
  datatype UserRow = UserRow(
    id: string, name: string, email: string, passwordHash: string, role: string,
    avatarUrl: Option<string>, createdAt: int, updatedAt: int)

  /** A row of `projects`, with the columns the project handlers write. */
  datatype ProjectRow = ProjectRow(
    id: string, title: string, description: Option<string>, ownerId: string,
    createdAt: int, updatedAt: int)

  /** A row of `tasks`, with the columns the task handlers write. */
  datatype TaskRow = TaskRow(
    id: string, title: string, description: Option<string>, status: string,
    isDone: Option<bool>, priority: string, dueDate: Option<string>,
    projectId: Option<string>, createdAt: int, updatedAt: int)

  /** A row of `taskAssignments`: one user assigned to one task. */
  datatype Assignment = Assignment(taskId: string, userId: string)

  /** What a handler sends: a bare status, a status with a `{ message }`
      body, or a status with a JSON payload. */
  datatype Reply<T> = Status(code: int) | Message(code: int, message: string) | Payload(code: int, value: T)
  {
    function StatusCode(): int {
      match this
      case Status(c) => c
      case Message(c, _) => c
      case Payload(c, _) => c
    }
  }

  /** The tables behind the route handlers. A handler runs as one step. */
  class Tables {
    var users: seq<UserRow>
    var projects: seq<ProjectRow>
    var tasks: seq<TaskRow>
    var assignments: seq<Assignment>

    constructor ()
      ensures users == [] && projects == [] && tasks == [] && assignments == []
    {
      users, projects, tasks, assignments := [], [], [], [];
    }
  }

  /** `select ... where <column> = k limit 1`: the first row whose column
      (read by `key`) equals `k`. */
  function FindFirst<T>(rows: seq<T>, key: T -> string, k: string): (found: Option<T>)
    ensures found.None? <==> forall r | r in rows :: key(r) != k
    ensures found.Some? ==> found.value in rows && key(found.value) == k
  {
    if rows == [] then None
    else if key(rows[0]) == k then Some(rows[0])
    else FindFirst(rows[1..], key, k)
  }

  /** With several rows sharing the value, the earliest one is found. */
  lemma {:induction false} FindFirstIsEarliest<T>(rows: seq<T>, key: T -> string, k: string, i: nat)
    requires i < |rows| && key(rows[i]) == k
    requires forall j | 0 <= j < i :: key(rows[j]) != k
    ensures FindFirst(rows, key, k) == Some(rows[i])
  {
    if i > 0 {
      assert key(rows[0]) != k;
      FindFirstIsEarliest(rows[1..], key, k, i - 1);
    }
  }

  /** `delete ... where <column> = k`: the other rows, in order. */
  function RowsWithout<T>(rows: seq<T>, key: T -> string, k: string): (rest: seq<T>)
    ensures forall r | r in rest :: r in rows && key(r) != k
    ensures forall r | r in rows && key(r) != k :: r in rest
    ensures |rest| <= |rows|
  {
    if rows == [] then []
    else (if key(rows[0]) == k then [] else [rows[0]]) + RowsWithout(rows[1..], key, k)
  }

  /** Rows none of which has the value are all kept. */
  lemma {:induction false} RowsWithoutNone<T>(rows: seq<T>, key: T -> string, k: string)
    requires forall r | r in rows :: key(r) != k
    ensures RowsWithout(rows, key, k) == rows
  {
    if rows != [] {
      RowsWithoutNone(rows[1..], key, k);
      assert [rows[0]] + rows[1..] == rows;
    }
  }

  /** Deleting twice is deleting once, and nothing with the value is left. */
  lemma RowsWithoutIdempotent<T>(rows: seq<T>, key: T -> string, k: string)
    ensures FindFirst(RowsWithout(rows, key, k), key, k).None?
    ensures RowsWithout(RowsWithout(rows, key, k), key, k) == RowsWithout(rows, key, k)
  {
    RowsWithoutNone(RowsWithout(rows, key, k), key, k);
  }

  function UserId(u: UserRow): string { u.id }
  function UserEmail(u: UserRow): string { u.email }
  function ProjectId(p: ProjectRow): string { p.id }
  function TaskId(t: TaskRow): string { t.id }

  /** The user ids assigned to a task, in table order. */
  function AssigneesOf(assignments: seq<Assignment>, taskId: string): (ids: seq<string>)
    ensures |ids| <= |assignments|
    ensures forall u :: u in ids <==> Assignment(taskId, u) in assignments
  {
    if assignments == [] then []
    else
      var rest := AssigneesOf(assignments[1..], taskId);
      if assignments[0].taskId == taskId then [assignments[0].userId] + rest else rest
  }

  /** `AssigneesOf` distributes over concatenation. */
  lemma {:induction false} AssigneesOfAppend(a: seq<Assignment>, b: seq<Assignment>, taskId: string)
    ensures AssigneesOf(a + b, taskId) == AssigneesOf(a, taskId) + AssigneesOf(b, taskId)
  {
    if a == [] {
      assert a + b == b;
    } else {
      assert (a + b)[1..] == a[1..] + b;
      AssigneesOfAppend(a[1..], b, taskId);
    }
  }

  /** One assignment row per id, in order. */
  function AssignmentRows(taskId: string, userIds: seq<string>): (rows: seq<Assignment>)
    ensures |rows| == |userIds|
    ensures forall i | 0 <= i < |rows| :: rows[i] == Assignment(taskId, userIds[i])
  {
    seq(|userIds|, i requires 0 <= i < |userIds| => Assignment(taskId, userIds[i]))
  }

  /** The assignments of tasks other than `taskId`, in order. */
  function AssignmentsNotOf(assignments: seq<Assignment>, taskId: string): (rest: seq<Assignment>)
    ensures forall a :: a in rest <==> a in assignments && a.taskId != taskId
  {
    if assignments == [] then []
    else
      var tail := AssignmentsNotOf(assignments[1..], taskId);
      if assignments[0].taskId == taskId then tail else [assignments[0]] + tail
  }

  /** Rows for one task, appended after the others, read back as exactly
      the ids given, in order; removing a task's rows leaves it none. */
  lemma {:induction false} AssigneesAfterReplace(assignments: seq<Assignment>, taskId: string, userIds: seq<string>)
    ensures AssigneesOf(AssignmentsNotOf(assignments, taskId), taskId) == []
    ensures AssigneesOf(AssignmentsNotOf(assignments, taskId) + AssignmentRows(taskId, userIds), taskId) == userIds
  {
    RemovedHasNone(assignments, taskId);
    AssigneesOfAppend(AssignmentsNotOf(assignments, taskId), AssignmentRows(taskId, userIds), taskId);
    AssigneesOfRows(taskId, userIds);
  }

  lemma {:induction false} RemovedHasNone(assignments: seq<Assignment>, taskId: string)
    ensures AssigneesOf(AssignmentsNotOf(assignments, taskId), taskId) == []
  {
    if assignments != [] {
      RemovedHasNone(assignments[1..], taskId);
    }
  }

  lemma {:induction false} AssigneesOfRows(taskId: string, userIds: seq<string>)
    ensures AssigneesOf(AssignmentRows(taskId, userIds), taskId) == userIds
  {
    if userIds != [] {
      var rows := AssignmentRows(taskId, userIds);
      assert rows[1..] == AssignmentRows(taskId, userIds[1..]);
      AssigneesOfRows(taskId, userIds[1..]);
      assert [userIds[0]] + userIds[1..] == userIds;
    }
  }

  /** Removing a task's assignments does not change another task's. */
  lemma {:induction false} AssigneesOfOtherTask(assignments: seq<Assignment>, taskId: string, other: string)
    requires other != taskId
    ensures AssigneesOf(AssignmentsNotOf(assignments, taskId), other) == AssigneesOf(assignments, other)
  {
    if assignments != [] {
      AssigneesOfOtherTask(assignments[1..], taskId, other);
    }
  }
}
