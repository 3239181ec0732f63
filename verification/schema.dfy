/** The two tables created at start-up, their column constraints and defaults,
    and the idempotent seeding of the administrator account. */
module Schema {
  import opened Wrappers
  import opened Rows

  /** A row of `users`. `isAdmin` is the stored BOOLEAN, an integer in SQLite. */
  datatype User = User(id: int, name: string, email: string, password: string, isAdmin: int, createdAt: int)

  /** A row of `tasks`. Nullable columns are `Option`s; timestamps are seconds. */
  datatype Task = Task(
    id: int,
    userId: int,
    title: string,
    description: Option<string>,
    status: Option<string>,
    dueDate: Option<string>,
    createdAt: int,
    updatedAt: int)

  /** The store: both tables in row order, plus the next AUTOINCREMENT value of each. */
  datatype Db = Db(users: seq<User>, tasks: seq<Task>, nextUserId: int, nextTaskId: int)

  /** The principal the middleware reads: `SELECT id, name, email, is_admin`. */
  datatype Principal = Principal(id: int, name: string, email: string, isAdmin: int)

  datatype SqlError = NotNullViolation(column: string) | UniqueViolation(column: string)

  const DefaultStatus := "pending"
  const DefaultAdminEmail := "admin@example.com"
  const DefaultAdminPassword := "admin123"
  const AdminName := "Admin"

  /** A fresh database: both tables empty, AUTOINCREMENT counters at 1. */
  const Empty := Db([], [], 1, 1)

  /** The table constraints: primary keys and `users.email` are unique, and
      every id was handed out by its table's AUTOINCREMENT counter. */
  predicate Valid(db: Db) {
    && 1 <= db.nextUserId && 1 <= db.nextTaskId
    && UniqueBy(db.users, (u: User) => u.id)
    && UniqueBy(db.users, (u: User) => u.email)
    && UniqueBy(db.tasks, (t: Task) => t.id)
    && (forall i | 0 <= i < |db.users| :: 1 <= db.users[i].id < db.nextUserId)
    && (forall i | 0 <= i < |db.tasks| :: 1 <= db.tasks[i].id < db.nextTaskId)
  }

  predicate EmailTaken(users: seq<User>, email: string) {
    exists i | 0 <= i < |users| :: users[i].email == email
  }

  /** The row of `users` with primary key `id` (`WHERE id = ?`), if any. */
  function FindUser(users: seq<User>, id: int): (r: Option<User>)
    ensures r.Some? ==> r.value in users && r.value.id == id
    ensures r.None? <==> forall i | 0 <= i < |users| :: users[i].id != id
  {
    if |users| == 0 then None
    else if users[0].id == id then Some(users[0])
    else
      assert forall i | 1 <= i < |users| :: users[i] == users[1..][i - 1];
      FindUser(users[1..], id)
  }

  /** `INSERT INTO users (name, email, password[, is_admin])`: `name`, `email`
      and `password` are NOT NULL, `email` is UNIQUE, an omitted `is_admin`
      defaults to 0, and the new id is the table's next AUTOINCREMENT value. */
  function InsertUser(db: Db, name: Option<string>, email: Option<string>, password: Option<string>,
                      isAdmin: Option<int>, now: int): (r: Result<(Db, User), SqlError>)
    ensures r.Ok? <==> name.Some? && email.Some? && password.Some? && !EmailTaken(db.users, email.value)
    ensures name.Some? && email.Some? && password.Some? && EmailTaken(db.users, email.value) ==>
              r == Err(UniqueViolation("email"))
    ensures r.Ok? ==> var (db', u) := r.value;
      && db'.users == db.users + [u] && db'.tasks == db.tasks
      && u.id == db.nextUserId && db'.nextUserId == db.nextUserId + 1 && db'.nextTaskId == db.nextTaskId
      && u.name == name.value && u.email == email.value && u.password == password.value
      && u.isAdmin == isAdmin.GetOr(0) && u.createdAt == now
    ensures r.Ok? && Valid(db) ==> Valid(r.value.0)
  {
    if name.None? then Err(NotNullViolation("name"))
    else if email.None? then Err(NotNullViolation("email"))
    else if password.None? then Err(NotNullViolation("password"))
    else if EmailTaken(db.users, email.value) then Err(UniqueViolation("email"))
    else
      var u := User(db.nextUserId, name.value, email.value, password.value, isAdmin.GetOr(0), now);
      var db' := db.(users := db.users + [u], nextUserId := db.nextUserId + 1);
      assert forall i | 0 <= i < |db.users| :: db'.users[i] == db.users[i];
      Ok((db', u))
  }

  /** `INSERT INTO tasks (user_id, title, description, due_date)`: `title` is
      NOT NULL, the omitted `status` takes its default `'pending'`, both
      timestamps default to the current time, and the new id is the table's
      next AUTOINCREMENT value. The owner id is not checked against `users`. */
  function InsertTask(db: Db, userId: int, title: Option<string>, description: Option<string>,
                      dueDate: Option<string>, now: int): (r: Result<(Db, Task), SqlError>)
    ensures title.None? <==> r == Err(NotNullViolation("title"))
    ensures r.Ok? <==> title.Some?
    ensures r.Ok? ==> var (db', t) := r.value;
      && db'.tasks == db.tasks + [t] && db'.users == db.users
      && t.id == db.nextTaskId && db'.nextTaskId == db.nextTaskId + 1 && db'.nextUserId == db.nextUserId
      && t.userId == userId && t.title == title.value && t.description == description
      && t.status == Some(DefaultStatus) && t.dueDate == dueDate
      && t.createdAt == now && t.updatedAt == now
    ensures r.Ok? && Valid(db) ==> Valid(r.value.0)
  {
    if title.None? then Err(NotNullViolation("title"))
    else
      var t := Task(db.nextTaskId, userId, title.value, description, Some(DefaultStatus), dueDate, now, now);
      var db' := db.(tasks := db.tasks + [t], nextTaskId := db.nextTaskId + 1);
      assert forall i | 0 <= i < |db.tasks| :: db'.tasks[i] == db.tasks[i];
      Ok((db', t))
  }

  /** `process.env.ADMIN_EMAIL || 'admin@example.com'`. */
  function AdminEmail(configured: Option<string>): (e: string)
    ensures configured.Some? && configured.value != "" ==> e == configured.value
    ensures configured.None? || configured.value == "" ==> e == DefaultAdminEmail
    ensures e != ""
  {
    if configured.Some? && configured.value != "" then configured.value else DefaultAdminEmail
  }

  /** `process.env.ADMIN_PASSWORD || 'admin123'`, the text that gets hashed. */
  function AdminPassword(configured: Option<string>): (p: string)
    ensures configured.Some? && configured.value != "" ==> p == configured.value
    ensures configured.None? || configured.value == "" ==> p == DefaultAdminPassword
  {
    if configured.Some? && configured.value != "" then configured.value else DefaultAdminPassword
  }

  /** The seeding step of `createTables`: insert an `'Admin'` user with
      `is_admin = 1` unless some user already has the admin email. The password
      hash is computed by `hash` (bcrypt, outside the model). A failure of the
      store (`fault`) is caught and logged, so the step never raises and leaves
      the tables as they were. */
  function Seed(db: Db, emailEnv: Option<string>, passwordEnv: Option<string>,
                hash: string -> string, now: int, fault: bool): (r: Db)
    ensures fault || EmailTaken(db.users, AdminEmail(emailEnv)) ==> r == db
    ensures !fault && !EmailTaken(db.users, AdminEmail(emailEnv)) ==>
      && r.users == db.users + [User(db.nextUserId, AdminName, AdminEmail(emailEnv), hash(AdminPassword(passwordEnv)), 1, now)]
      && r.tasks == db.tasks
    ensures !fault ==> EmailTaken(r.users, AdminEmail(emailEnv))
    ensures Valid(db) ==> Valid(r)
  {
    var email := AdminEmail(emailEnv);
    if fault || EmailTaken(db.users, email) then db
    else
      match InsertUser(db, Some(AdminName), Some(email), Some(hash(AdminPassword(passwordEnv))), Some(1), now)
      case Ok((db', u)) =>
        assert db'.users[|db.users|] == u;
        db'
      case Err(_) => db
  }

  /** Seeding twice is seeding once: the second run finds the admin email taken. */
  lemma SeedIdempotent(db: Db, emailEnv: Option<string>, passwordEnv: Option<string>,
                       hash: string -> string, now: int, hash': string -> string, now': int, fault': bool)
    ensures var once := Seed(db, emailEnv, passwordEnv, hash, now, false);
            Seed(once, emailEnv, passwordEnv, hash', now', fault') == once
  {
  }

  /** `createTables`: `CREATE TABLE IF NOT EXISTS` keeps an existing database
      (or starts from empty tables), then seeds the administrator. */
  function CreateTables(existing: Option<Db>, emailEnv: Option<string>, passwordEnv: Option<string>,
                        hash: string -> string, now: int, fault: bool): (r: Db)
    ensures existing.Some? ==> r.tasks == existing.value.tasks
    ensures existing.Some? ==>
              |existing.value.users| <= |r.users| && r.users[..|existing.value.users|] == existing.value.users
    ensures existing.None? && !fault ==>
      r.users == [User(1, AdminName, AdminEmail(emailEnv), hash(AdminPassword(passwordEnv)), 1, now)] && r.tasks == []
    ensures existing.None? || Valid(existing.value) ==> Valid(r)
  {
    var base := existing.GetOr(Empty);
    assert Valid(Empty);
    var r := Seed(base, emailEnv, passwordEnv, hash, now, fault);
    assert r.users[..|base.users|] == base.users;
    r
  }
}
