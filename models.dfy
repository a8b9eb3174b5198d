/**
 * The records of app/models.py, app/schemas.py and app/enums.py. The user
 * table is keyed by username (the column is unique) and the task table by
 * id (the primary key).
 */
module Models {
  import opened Http
  import opened Tokens

  /**
   * A bcrypt digest. Salt and cost are abstracted away: the digest is taken
   * to determine the password it was computed from.
   */
  datatype PasswordHash = Bcrypt(password: string)

  datatype User = User(id: nat, username: string, passwordHash: PasswordHash)

  /** Body of register and login. */
  datatype UserCreate = UserCreate(username: string, password: string)

  datatype TaskStatus = InProgress | Completed {
    /** The enum's string value. */
    function Value(): string {
      match this
      case InProgress => "В процессе"
      case Completed => "Завершена"
    }

    /** The enum member's name, which is what the `Enum(TaskStatus)` column stores. */
    function Name(): string {
      match this
      case InProgress => "IN_PROGRESS"
      case Completed => "COMPLETED"
    }
  }

  /**
   * How a string compared with the `Enum(TaskStatus)` column is read: the
   * column type looks the string up among the members, and because
   * TaskStatus is a `str` enum a member's value finds it as well as its
   * name. Any other string names no status.
   */
  function ParseStatus(s: string): (r: Option<TaskStatus>)
    ensures forall st: TaskStatus :: r == Some(st) <==> s == st.Value() || s == st.Name()
  {
    if s == InProgress.Value() || s == InProgress.Name() then Some(InProgress)
    else if s == Completed.Value() || s == Completed.Name() then Some(Completed)
    else None
  }

  datatype Task = Task(id: nat, title: string, description: string, status: TaskStatus, userId: nat)

  datatype TaskCreate = TaskCreate(title: string, description: string, status: TaskStatus)

  /** A partial update: None is a field the client did not set. */
  datatype TaskUpdate = TaskUpdate(title: Option<string>, description: Option<string>, status: Option<TaskStatus>)

  /** The token pair of the login response (schema Token). */
  datatype TokenPair = TokenPair(accessToken: Token, refreshToken: Token)

  type Users = map<string, User>
  type Tasks = map<nat, Task>

  /** One (attribute, value) item of a patch, as setattr receives it. */
  datatype FieldValue = Title(title: string) | Description(description: string) | Status(status: TaskStatus)

  /** setattr(task, key, value) for one patch item. */
  function SetAttr(t: Task, item: FieldValue): (r: Task)
    ensures r.id == t.id && r.userId == t.userId
    ensures r.title == (if item.Title? then item.title else t.title)
    ensures r.description == (if item.Description? then item.description else t.description)
    ensures r.status == (if item.Status? then item.status else t.status)
  {
    match item
    case Title(v) => t.(title := v)
    case Description(v) => t.(description := v)
    case Status(v) => t.(status := v)
  }

  /** Every row sits under its own username. */
  ghost predicate UsersWellFormed(users: Users) {
    forall name :: name in users ==> users[name].username == name
  }

  /** Every task sits under its own id. */
  ghost predicate TasksWellFormed(tasks: Tasks) {
    forall k :: k in tasks ==> tasks[k].id == k
  }
}
