/** The project handlers of server/src/routes/projects.ts: the owner
    filter, the title check, the owner-or-admin gate on update and delete,
    idempotent delete, and the admin-only member routes. */
module ProjectRoutes {
  import opened Js
  import opened ServerModel
  import opened AuthMiddleware

  const ProjectNotFound := "Project not found"
  const UpdateForbidden := "Forbidden: You do not have permission to update this project"
  const DeleteForbidden := "Forbidden: You do not have permission to delete this project"

  datatype ProjectBody = ProjectBody(title: Option<string>, description: Option<string>)

  /** The update body; `None` is `undefined`, which the update leaves out of
      the `set`. `Some(None)` is an explicit null description. */
  datatype ProjectPatch = ProjectPatch(title: Option<string>, description: Option<Option<string>>)

  /** The gate of update and delete: the requester owns the project or is
      an admin. */
  predicate OwnerOrAdmin(project: ProjectRow, user: Claims) {
    project.ownerId == user.userId || user.role == AdminRole
  }

  /** The projects owned by `ownerId`, in table order. */
  function OwnedBy(projects: seq<ProjectRow>, ownerId: string): (owned: seq<ProjectRow>)
    ensures forall p | p in owned :: p in projects && p.ownerId == ownerId
    ensures forall p | p in projects && p.ownerId == ownerId :: p in owned
  {
    if projects == [] then []
    else (if projects[0].ownerId == ownerId then [projects[0]] else []) + OwnedBy(projects[1..], ownerId)
  }

  /** The owner filter keeps table order. */
  lemma {:induction false} OwnedByAppend(a: seq<ProjectRow>, b: seq<ProjectRow>, ownerId: string)
    ensures OwnedBy(a + b, ownerId) == OwnedBy(a, ownerId) + OwnedBy(b, ownerId)
  {
    if a == [] {
      assert a + b == b;
    } else {
      assert (a + b)[1..] == a[1..] + b;
      OwnedByAppend(a[1..], b, ownerId);
    }
  }

  /** GET /api/projects: only the requester's own projects. */
  function ListProjects(projects: seq<ProjectRow>, user: Option<Claims>): (reply: Reply<seq<ProjectRow>>)
    ensures user == None ==> reply == Status(401)
    ensures user.Some? ==> (
      reply.Payload? && reply.code == 200 &&
      (forall p | p in reply.value :: p in projects && p.ownerId == user.value.userId) &&
      (forall p | p in projects && p.ownerId == user.value.userId :: p in reply.value))
  {
    if user == None then Status(401) else Payload(200, OwnedBy(projects, user.value.userId))
  }

  /** POST /api/projects: 400 without a title, otherwise one new project
      owned by the requester and a 201 with it. */
  method CreateProject(db: Tables, user: Option<Claims>, body: ProjectBody, newId: string, now: int)
    returns (reply: Reply<ProjectRow>)
    modifies db`projects
    ensures user == None ==> reply == Status(401) && db.projects == old(db.projects)
    ensures user.Some? && Blank(body.title) ==>
      reply == Message(400, "Title is required") && db.projects == old(db.projects)
    ensures user.Some? && !Blank(body.title) ==>
      var row := ProjectRow(newId, body.title.value, body.description, user.value.userId, now, now);
      db.projects == old(db.projects) + [row] && reply == Payload(201, row)
  {
    if user == None {
      return Status(401);
    }
    if Blank(body.title) {
      return Message(400, "Title is required");
    }
    var row := ProjectRow(newId, body.title.value, body.description, user.value.userId, now, now);
    db.projects := db.projects + [row];
    reply := Payload(201, row);
  }

  /** GET /api/projects/:id: any authenticated user gets the project; no
      ownership or membership is checked. */
  function GetProject(projects: seq<ProjectRow>, user: Option<Claims>, projectId: string): (reply: Reply<ProjectRow>)
    ensures user == None ==> reply == Status(401)
    ensures user.Some? && FindFirst(projects, ProjectId, projectId).None? ==> reply == Message(404, ProjectNotFound)
    ensures user.Some? && FindFirst(projects, ProjectId, projectId).Some? ==>
      reply == Payload(200, FindFirst(projects, ProjectId, projectId).value)
  {
    if user == None then Status(401)
    else
      match FindFirst(projects, ProjectId, projectId)
      case None => Message(404, ProjectNotFound)
      case Some(p) => Payload(200, p)
  }

  /** Anyone authenticated can read any existing project. */
  lemma AnyoneCanReadAProject(projects: seq<ProjectRow>, projectId: string, user: Claims)
    requires exists p | p in projects :: p.id == projectId
    ensures GetProject(projects, Some(user), projectId).Payload?
  {
  }

  function PickTitle(patch: Option<string>, current: string): string {
    if patch.Some? then patch.value else current
  }

  function PickDescription(patch: Option<Option<string>>, current: Option<string>): Option<string> {
    if patch.Some? then patch.value else current
  }

  /** One project after `set({ title, description, updatedAt })`. */
  function PatchProject(p: ProjectRow, patch: ProjectPatch, now: int): (updated: ProjectRow)
    ensures updated.id == p.id && updated.ownerId == p.ownerId && updated.createdAt == p.createdAt
    ensures updated.updatedAt == now
    ensures patch.title == None ==> updated.title == p.title
    ensures patch.title.Some? ==> updated.title == patch.title.value
    ensures patch.description == None ==> updated.description == p.description
    ensures patch.description.Some? ==> updated.description == patch.description.value
  {
    p.(title := PickTitle(patch.title, p.title),
       description := PickDescription(patch.description, p.description),
       updatedAt := now)
  }

  /** The project table after `update ... where id = projectId`. */
  function PatchedProjects(projects: seq<ProjectRow>, projectId: string, patch: ProjectPatch, now: int)
    : (rows: seq<ProjectRow>)
    ensures |rows| == |projects|
    ensures forall i | 0 <= i < |projects| ::
      rows[i] == if projects[i].id == projectId then PatchProject(projects[i], patch, now) else projects[i]
  {
    seq(|projects|, i requires 0 <= i < |projects| =>
      if projects[i].id == projectId then PatchProject(projects[i], patch, now) else projects[i])
  }

  /** PUT /api/projects/:id. */
  method UpdateProject(db: Tables, user: Option<Claims>, projectId: string, patch: ProjectPatch, now: int)
    returns (reply: Reply<ProjectRow>)
    modifies db`projects
    ensures user == None ==> reply == Status(401) && db.projects == old(db.projects)
    ensures user.Some? && FindFirst(old(db.projects), ProjectId, projectId).None? ==>
      reply == Message(404, ProjectNotFound) && db.projects == old(db.projects)
    ensures user.Some? && FindFirst(old(db.projects), ProjectId, projectId).Some? ==>
      var found := FindFirst(old(db.projects), ProjectId, projectId).value;
      if !OwnerOrAdmin(found, user.value) then
        reply == Message(403, UpdateForbidden) && db.projects == old(db.projects)
      else
        db.projects == PatchedProjects(old(db.projects), projectId, patch, now) &&
        reply == Payload(200, PatchProject(found, patch, now))
  {
    if user == None {
      return Status(401);
    }
    var found := FindFirst(db.projects, ProjectId, projectId);
    if found.None? {
      return Message(404, ProjectNotFound);
    }
    if found.value.ownerId != user.value.userId && user.value.role != AdminRole {
      return Message(403, UpdateForbidden);
    }
    db.projects := PatchedProjects(db.projects, projectId, patch, now);
    reply := Payload(200, PatchProject(found.value, patch, now));
  }

  /** An update changes only the project with that id. */
  lemma PatchTouchesOnlyThatProject(projects: seq<ProjectRow>, projectId: string, patch: ProjectPatch, now: int, i: nat)
    requires i < |projects| && projects[i].id != projectId
    ensures PatchedProjects(projects, projectId, patch, now)[i] == projects[i]
  {
  }

  /** DELETE /api/projects/:id: 204 for a missing project, 403 for a
      requester who is neither owner nor admin, otherwise the row is
      removed and 204. */
  method DeleteProject(db: Tables, user: Option<Claims>, projectId: string) returns (reply: Reply<()>)
    modifies db`projects
    ensures user == None ==> reply == Status(401) && db.projects == old(db.projects)
    ensures user.Some? && FindFirst(old(db.projects), ProjectId, projectId).None? ==>
      reply == Status(204) && db.projects == old(db.projects)
    ensures user.Some? && FindFirst(old(db.projects), ProjectId, projectId).Some? ==>
      if !OwnerOrAdmin(FindFirst(old(db.projects), ProjectId, projectId).value, user.value) then
        reply == Message(403, DeleteForbidden) && db.projects == old(db.projects)
      else
        reply == Status(204) && db.projects == RowsWithout(old(db.projects), ProjectId, projectId)
  {
    if user == None {
      return Status(401);
    }
    var found := FindFirst(db.projects, ProjectId, projectId);
    if found.None? {
      return Status(204);
    }
    if found.value.ownerId != user.value.userId && user.value.role != AdminRole {
      return Message(403, DeleteForbidden);
    }
    db.projects := RowsWithout(db.projects, ProjectId, projectId);
    reply := Status(204);
  }

  /** POST /api/projects/:id/members and DELETE /api/projects/:id/members/:userId:
      admins get 501, everyone else the role refusal. */
  function MemberRoute(user: Option<Claims>, notImplemented: string): (reply: Reply<()>)
    ensures reply.code == 403 <==> AuthorizeRole([AdminRole], user) == Refused
    ensures reply.code == 403 ==> reply == Message(403, InsufficientRoleMessage)
    ensures reply.code != 403 ==> reply == Message(501, notImplemented)
  {
    if AuthorizeRole([AdminRole], user) == Refused then Message(403, InsufficientRoleMessage)
    else Message(501, notImplemented)
  }

  function AddMember(user: Option<Claims>): (reply: Reply<()>)
    ensures reply.code == 403 <==> user.None? || user.value.role != AdminRole
    ensures reply.code != 403 ==> reply == Message(501, "Add project member - Not implemented yet")
  {
    MemberRoute(user, "Add project member - Not implemented yet")
  }

  function RemoveMember(user: Option<Claims>): (reply: Reply<()>)
    ensures reply.code == 403 <==> user.None? || user.value.role != AdminRole
    ensures reply.code != 403 ==> reply == Message(501, "Remove project member - Not implemented yet")
  {
    MemberRoute(user, "Remove project member - Not implemented yet")
  }

  /** The member routes ignore ownership: a member who owns the project is
      refused there, although the owner gate lets that member update it. */
  lemma MemberRoutesIgnoreOwnership(project: ProjectRow, owner: Claims)
    requires owner.userId == project.ownerId && owner.role == MemberRole
    ensures OwnerOrAdmin(project, owner)
    ensures AddMember(Some(owner)).code == 403 && RemoveMember(Some(owner)).code == 403
  {
  }
}
