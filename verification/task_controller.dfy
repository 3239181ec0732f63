/** The task handlers. Each runs after the middleware has attached a principal,
    issues one SQL statement, and maps any thrown error to 500 "Server error".
    `fault` stands for the store raising on the handler's own statement
    (independently of the middleware's lookup); `now` is `CURRENT_TIMESTAMP`. */
module TaskController {
  import opened Wrappers
  import opened Js
  import opened Text
  import opened Rows
  import opened Schema
  import opened Http

  /** The task fields a client sends in a request body; absent fields are `None`. */
  datatype TaskFields = TaskFields(
    title: Option<string>,
    description: Option<string>,
    status: Option<string>,
    dueDate: Option<string>)

  function TaskCreated(t: Task): int { t.createdAt }
  function SummaryCreated(s: UserSummary): int { s.createdAt }
  function OwnedTaskCreated(o: OwnedTask): int { o.task.createdAt }

  // ---------------------------------------------------------------- getTasks

  /** The `status` query narrows the listing only when it is non-empty and not `'all'`. */
  predicate StatusFilterActive(status: Option<string>) {
    Truthy(status) && status.value != "all"
  }

  /** `WHERE user_id = $1 [AND status = $2]`. */
  predicate Listed(t: Task, p: Principal, status: Option<string>) {
    t.userId == p.id && (StatusFilterActive(status) ==> t.status == status)
  }

  function ListFilter(p: Principal, status: Option<string>): Task -> bool {
    t => Listed(t, p, status)
  }

  /** `getTasks`: the caller's own tasks, optionally of one status, newest first. */
  function GetTasks(db: Db, p: Principal, status: Option<string>, fault: bool): (r: Response)
    ensures fault ==> r == ServerError
    ensures !fault ==> r.status == 200 && r.body.TaskRows?
    ensures !fault ==> NewestFirst(r.body.tasks, TaskCreated)
    ensures !fault ==> forall i | 0 <= i < |r.body.tasks| ::
              r.body.tasks[i] in db.tasks && r.body.tasks[i].userId == p.id
    ensures !fault && StatusFilterActive(status) ==>
              forall i | 0 <= i < |r.body.tasks| :: r.body.tasks[i].status == status
    ensures !fault ==> forall i | 0 <= i < |db.tasks| && Listed(db.tasks[i], p, status) ::
              db.tasks[i] in r.body.tasks
    ensures !fault ==> multiset(r.body.tasks) == multiset(Select(db.tasks, ListFilter(p, status)))
  {
    if fault then ServerError
    else Response(200, TaskRows(SortNewestFirst(Select(db.tasks, ListFilter(p, status)), TaskCreated)))
  }

  // -------------------------------------------------------------- createTask

  /** `createTask`: insert one row owned by the caller; a falsy `due_date` is
      stored as NULL, `status` takes its default, and the title is not checked
      beyond the column's NOT NULL. */
  function CreateTask(db: Db, p: Principal, body: TaskFields, now: int, fault: bool): (r: Outcome)
    ensures r.response.status == 201 <==> !fault && body.title.Some?
    ensures r.response.status != 201 ==> r == Outcome(ServerError, db)
    ensures r.response.status == 201 ==> r.response.body.TaskRow? && var t := r.response.body.task;
      && r.db.tasks == db.tasks + [t] && r.db.users == db.users
      && t.userId == p.id && t.title == body.title.value && t.description == body.description
      && t.status == Some(DefaultStatus) && t.dueDate == OrNull(body.dueDate)
      && t.createdAt == now && t.updatedAt == now
      && (Valid(db) ==> forall i | 0 <= i < |db.tasks| :: db.tasks[i].id != t.id)
    ensures Valid(db) ==> Valid(r.db)
  {
    if fault then Outcome(ServerError, db)
    else
      match InsertTask(db, p.id, body.title, body.description, OrNull(body.dueDate), now)
      case Err(_) => Outcome(ServerError, db)
      case Ok((db', t)) => Outcome(Response(201, TaskRow(t)), db')
  }

  // ------------------------------------------------------ updateTask / deleteTask

  /** The ownership predicate `WHERE id = $n AND user_id = $m`: the id must
      match AND the row must belong to the caller. */
  predicate Targets(t: Task, id: Option<nat>, owner: int) {
    id.Some? && t.id == id.value && t.userId == owner
  }

  function TargetFilter(id: Option<nat>, owner: int): Task -> bool {
    t => Targets(t, id, owner)
  }

  function KeepFilter(id: Option<nat>, owner: int): Task -> bool {
    t => !Targets(t, id, owner)
  }

  /** Some row is addressed by the route parameter and owned by the caller. */
  predicate OwnsTask(db: Db, p: Principal, idParam: string) {
    exists i | 0 <= i < |db.tasks| :: Targets(db.tasks[i], ParseId(idParam), p.id)
  }

  /** The `SET` list of the update: all four fields are overwritten (a falsy
      `due_date` becomes NULL) and `updated_at` is refreshed. */
  function Overwrite(t: Task, body: TaskFields, now: int): (u: Task)
    requires body.title.Some?
    ensures u.id == t.id && u.userId == t.userId && u.createdAt == t.createdAt
    ensures u.title == body.title.value && u.description == body.description && u.status == body.status
    ensures u.dueDate == OrNull(body.dueDate) && u.updatedAt == now
  {
    t.(title := body.title.value, description := body.description, status := body.status,
       dueDate := OrNull(body.dueDate), updatedAt := now)
  }

  /** The table after `UPDATE ... WHERE id = $5 AND user_id = $6`: targeted
      rows overwritten, every other row as it was. */
  function OverwriteTargets(tasks: seq<Task>, id: Option<nat>, owner: int, body: TaskFields, now: int): (r: seq<Task>)
    requires body.title.Some?
    ensures |r| == |tasks|
    ensures forall i | 0 <= i < |tasks| :: r[i].id == tasks[i].id && (Targets(r[i], id, owner) <==> Targets(tasks[i], id, owner))
    ensures forall i | 0 <= i < |tasks| && !Targets(tasks[i], id, owner) :: r[i] == tasks[i]
    ensures forall i | 0 <= i < |tasks| && Targets(tasks[i], id, owner) :: r[i] == Overwrite(tasks[i], body, now)
  {
    seq(|tasks|, i requires 0 <= i < |tasks| =>
          if Targets(tasks[i], id, owner) then Overwrite(tasks[i], body, now) else tasks[i])
  }

  /** Rewriting rows in place without changing their ids keeps the table constraints. */
  lemma SameIdsValid(db: Db, tasks': seq<Task>)
    requires Valid(db) && |tasks'| == |db.tasks|
    requires forall i | 0 <= i < |tasks'| :: tasks'[i].id == db.tasks[i].id
    ensures Valid(db.(tasks := tasks'))
  {
  }

  /** A successful update: the targeted rows are overwritten and the first of
      them (`RETURNING *`, `rows[0]`) is the response. */
  function ApplyUpdate(db: Db, id: Option<nat>, owner: int, body: TaskFields, now: int): (r: Outcome)
    requires body.title.Some?
    requires exists k | 0 <= k < |db.tasks| :: Targets(db.tasks[k], id, owner)
    ensures r.response.status == 200 && r.db == db.(tasks := OverwriteTargets(db.tasks, id, owner, body, now))
    ensures r.response.body.TaskRow? && var t := r.response.body.task;
      && t in r.db.tasks && Targets(t, id, owner)
      && t.title == body.title.value && t.status == body.status && t.updatedAt == now
    ensures Valid(db) ==> Valid(r.db)
  {
    var tasks' := OverwriteTargets(db.tasks, id, owner, body, now);
    var returned := Select(tasks', TargetFilter(id, owner));
    var k :| 0 <= k < |db.tasks| && Targets(db.tasks[k], id, owner);
    assert Targets(tasks'[k], id, owner);
    assert tasks'[k] in returned;
    assert returned[0] in tasks' && Targets(returned[0], id, owner);
    assert returned[0].title == body.title.value && returned[0].status == body.status && returned[0].updatedAt == now by {
      var j :| 0 <= j < |tasks'| && tasks'[j] == returned[0];
      assert Targets(db.tasks[j], id, owner);
      assert tasks'[j] == Overwrite(db.tasks[j], body, now);
    }
    var db' := db.(tasks := tasks');
    assert Valid(db) ==> Valid(db') by {
      if Valid(db) { SameIdsValid(db, tasks'); }
    }
    Outcome(Response(200, TaskRow(returned[0])), db')
  }

  /** `updateTask`: overwrite the addressed row only when it exists AND is the
      caller's; otherwise 404 "Task not found" with the store unchanged, the
      same answer for an id that does not exist and for another user's id. A
      missing title violates NOT NULL only when a row is actually updated. */
  function UpdateTask(db: Db, p: Principal, idParam: string, body: TaskFields, now: int, fault: bool): (r: Outcome)
    ensures r.response.status == 200 <==> !fault && OwnsTask(db, p, idParam) && body.title.Some?
    ensures fault ==> r == Outcome(ServerError, db)
    ensures !fault && !OwnsTask(db, p, idParam) ==> r == Outcome(TaskNotFound, db)
    ensures !fault && OwnsTask(db, p, idParam) && body.title.None? ==> r == Outcome(ServerError, db)
    ensures r.response.status != 200 ==> r.db == db
    ensures r.response.status == 200 ==>
      && r.db.users == db.users && r.db.nextTaskId == db.nextTaskId && r.db.nextUserId == db.nextUserId
      && |r.db.tasks| == |db.tasks|
      && (forall i | 0 <= i < |db.tasks| && !Targets(db.tasks[i], ParseId(idParam), p.id) ::
            r.db.tasks[i] == db.tasks[i])
      && (forall i | 0 <= i < |db.tasks| && Targets(db.tasks[i], ParseId(idParam), p.id) ::
            r.db.tasks[i] == Overwrite(db.tasks[i], body, now))
    ensures r.response.status == 200 ==> r.response.body.TaskRow? && var t := r.response.body.task;
      && t in r.db.tasks && Targets(t, ParseId(idParam), p.id)
      && t.title == body.title.value && t.status == body.status && t.updatedAt == now
    ensures Valid(db) ==> Valid(r.db)
  {
    if fault then Outcome(ServerError, db)
    else if !OwnsTask(db, p, idParam) then Outcome(TaskNotFound, db)
    else if body.title.None? then Outcome(ServerError, db)
    else ApplyUpdate(db, ParseId(idParam), p.id, body, now)
  }

  /** `deleteTask`: remove exactly the addressed row when it is the caller's;
      otherwise 404 "Task not found" with the store unchanged. */
  function DeleteTask(db: Db, p: Principal, idParam: string, fault: bool): (r: Outcome)
    ensures r.response.status == 200 <==> !fault && OwnsTask(db, p, idParam)
    ensures fault ==> r == Outcome(ServerError, db)
    ensures !fault && !OwnsTask(db, p, idParam) ==> r == Outcome(TaskNotFound, db)
    ensures r.response.status == 200 ==>
      && r.response == Response(200, Message(TaskDeletedMessage))
      && r.db.users == db.users && r.db.nextTaskId == db.nextTaskId && r.db.nextUserId == db.nextUserId
      && (forall i | 0 <= i < |r.db.tasks| ::
            r.db.tasks[i] in db.tasks && !Targets(r.db.tasks[i], ParseId(idParam), p.id))
      && (forall i | 0 <= i < |db.tasks| && !Targets(db.tasks[i], ParseId(idParam), p.id) ::
            db.tasks[i] in r.db.tasks)
      && |r.db.tasks| < |db.tasks|
    ensures Valid(db) ==> Valid(r.db)
  {
    var id := ParseId(idParam);
    if fault then Outcome(ServerError, db)
    else
      var deleted := Select(db.tasks, TargetFilter(id, p.id));
      if |deleted| == 0 then
        assert !OwnsTask(db, p, idParam);
        Outcome(TaskNotFound, db)
      else
        assert deleted[0] in db.tasks;
        var kept := Select(db.tasks, KeepFilter(id, p.id));
        assert Valid(db) ==> Valid(db.(tasks := kept)) by {
          if Valid(db) { SelectUniqueBy(db.tasks, KeepFilter(id, p.id), (t: Task) => t.id); }
        }
        Outcome(Response(200, Message(TaskDeletedMessage)), db.(tasks := kept))
  }

  /** Deleting the same id twice: the second attempt finds nothing and answers 404. */
  lemma {:induction false} DeleteTwiceNotFound(db: Db, p: Principal, idParam: string, fault: bool)
    requires DeleteTask(db, p, idParam, fault).response.status == 200
    ensures var once := DeleteTask(db, p, idParam, fault).db;
            DeleteTask(once, p, idParam, false) == Outcome(TaskNotFound, once)
  {
    var once := DeleteTask(db, p, idParam, fault).db;
    assert forall i | 0 <= i < |once.tasks| :: !Targets(once.tasks[i], ParseId(idParam), p.id);
  }

  /** Another user's task is invisible to the caller: it is not listed, and
      updating or deleting it answers 404 and changes nothing, exactly as for an
      id that does not exist. */
  lemma ForeignTaskNotFound(db: Db, p: Principal, t: Task, id: nat, body: TaskFields, now: int, status: Option<string>)
    requires Valid(db) && t in db.tasks && t.id == id && t.userId != p.id
    ensures t !in GetTasks(db, p, status, false).body.tasks
    ensures UpdateTask(db, p, ShowNat(id), body, now, false) == Outcome(TaskNotFound, db)
    ensures DeleteTask(db, p, ShowNat(id), false) == Outcome(TaskNotFound, db)
  {
    var idParam := ShowNat(id);
    ParseShowNat(id);
    var k :| 0 <= k < |db.tasks| && db.tasks[k] == t;
    assert !OwnsTask(db, p, idParam);
  }

  // ------------------------------------------------------------ admin views

  function TaskCount(tasks: seq<Task>, userId: int): nat {
    Count(tasks, (t: Task) => t.userId == userId)
  }

  function Summarize(u: User, tasks: seq<Task>): UserSummary {
    UserSummary(u.id, u.name, u.email, u.createdAt, TaskCount(tasks, u.id))
  }

  /** `WHERE u.is_admin = FALSE`. */
  predicate NonAdmin(u: User) {
    u.isAdmin == 0
  }

  /** `s` is the summary of some non-admin user of `users`: that user's id,
      name, email, creation time and task count, and nothing else. */
  predicate SummarizesMember(s: UserSummary, users: seq<User>, tasks: seq<Task>) {
    exists i | 0 <= i < |users| :: NonAdmin(users[i]) && s == Summarize(users[i], tasks)
  }

  /** The summaries of the non-admin users, in table order. */
  function MemberSummaries(users: seq<User>, tasks: seq<Task>): (rows: seq<UserSummary>)
    ensures |rows| == Count(users, NonAdmin)
    ensures forall j | 0 <= j < |rows| :: SummarizesMember(rows[j], users, tasks)
    ensures forall i | 0 <= i < |users| && NonAdmin(users[i]) :: Summarize(users[i], tasks) in rows
  {
    var members := Select(users, NonAdmin);
    var rows := seq(|members|, i requires 0 <= i < |members| => Summarize(members[i], tasks));
    forall j | 0 <= j < |rows|
      ensures SummarizesMember(rows[j], users, tasks)
    {
      assert members[j] in users;
      var i :| 0 <= i < |users| && users[i] == members[j];
      assert NonAdmin(users[i]) && rows[j] == Summarize(users[i], tasks);
    }
    forall i | 0 <= i < |users| && NonAdmin(users[i])
      ensures Summarize(users[i], tasks) in rows
    {
      var k :| 0 <= k < |members| && members[k] == users[i];
      assert rows[k] == Summarize(users[i], tasks);
    }
    rows
  }

  /** `getAllUsers`: one summary per non-admin user with that user's task count
      (0 for a user without tasks: LEFT JOIN with COUNT(t.id)), newest first,
      and no password column. */
  function GetAllUsers(db: Db, fault: bool): (r: Response)
    ensures fault ==> r == ServerError
    ensures !fault ==> r.status == 200 && r.body.UserSummaries?
    ensures !fault ==> NewestFirst(r.body.users, SummaryCreated)
    ensures !fault ==> forall j | 0 <= j < |r.body.users| :: SummarizesMember(r.body.users[j], db.users, db.tasks)
    ensures !fault ==> forall i | 0 <= i < |db.users| && NonAdmin(db.users[i]) ::
              Summarize(db.users[i], db.tasks) in r.body.users
    ensures !fault ==> |r.body.users| == Count(db.users, NonAdmin)
  {
    if fault then ServerError
    else
      var rows := MemberSummaries(db.users, db.tasks);
      var sorted := SortNewestFirst(rows, SummaryCreated);
      SortKeepsProperty(rows, SummaryCreated, (s: UserSummary) => SummarizesMember(s, db.users, db.tasks));
      Response(200, UserSummaries(sorted))
  }

  /** The owner row a task joins with, if any. */
  function OwnerOf(users: seq<User>, t: Task): Option<User> {
    FindUser(users, t.userId)
  }

  /** The join condition: the task's owner has a user row. */
  function HasOwner(users: seq<User>): Task -> bool {
    t => OwnerOf(users, t).Some?
  }

  /** `JOIN users u ON t.user_id = u.id`: each task whose owner exists, with the
      owner's name and email, in table order; tasks without an owner row drop out. */
  function JoinOwners(tasks: seq<Task>, users: seq<User>): (r: seq<OwnedTask>)
    ensures forall j | 0 <= j < |r| :: r[j].task in tasks && OwnerOf(users, r[j].task).Some?
    ensures forall j | 0 <= j < |r| :: var u := OwnerOf(users, r[j].task).value;
              r[j].userName == u.name && r[j].userEmail == u.email
    ensures forall k | 0 <= k < |tasks| && OwnerOf(users, tasks[k]).Some? ::
              var u := OwnerOf(users, tasks[k]).value; OwnedTask(tasks[k], u.name, u.email) in r
  {
    if |tasks| == 0 then []
    else
      var rest := JoinOwners(tasks[1..], users);
      assert forall k | 1 <= k < |tasks| :: tasks[k] == tasks[1..][k - 1];
      match OwnerOf(users, tasks[0])
      case None => rest
      case Some(u) => [OwnedTask(tasks[0], u.name, u.email)] + rest
  }

  /** The join lists each owned task once: as many rows as tasks with an owner. */
  lemma {:induction false} JoinOwnersCount(tasks: seq<Task>, users: seq<User>)
    ensures |JoinOwners(tasks, users)| == Count(tasks, HasOwner(users))
  {
    if |tasks| > 0 {
      JoinOwnersCount(tasks[1..], users);
    }
  }

  /** `getAllTasks`: every task whose owner exists, annotated with the owner's
      name and email, newest first. */
  function GetAllTasks(db: Db, fault: bool): (r: Response)
    ensures fault ==> r == ServerError
    ensures !fault ==> r.status == 200 && r.body.OwnedTasks?
    ensures !fault ==> NewestFirst(r.body.rows, OwnedTaskCreated)
    ensures !fault ==> |r.body.rows| == Count(db.tasks, HasOwner(db.users))
    ensures !fault ==> forall j | 0 <= j < |r.body.rows| :: var row := r.body.rows[j];
              && row.task in db.tasks && OwnerOf(db.users, row.task).Some?
              && row.userName == OwnerOf(db.users, row.task).value.name
              && row.userEmail == OwnerOf(db.users, row.task).value.email
    ensures !fault ==> forall k | 0 <= k < |db.tasks| && OwnerOf(db.users, db.tasks[k]).Some? ::
              var u := OwnerOf(db.users, db.tasks[k]).value;
              OwnedTask(db.tasks[k], u.name, u.email) in r.body.rows
  {
    if fault then ServerError
    else
      var joined := JoinOwners(db.tasks, db.users);
      JoinOwnersCount(db.tasks, db.users);
      var sorted := SortNewestFirst(joined, OwnedTaskCreated);
      Response(200, OwnedTasks(sorted))
  }
}
