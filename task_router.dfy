/**
 * app/task_router.py: five endpoints, each running the guard
 * (get_token_from_cookies, then get_current_user) against the session store
 * before calling one CRUD operation scoped to the authenticated user's id.
 * A request the guard refuses reads and changes nothing; an accepted one
 * can never reach a task of another user.
 */
module TaskRouter {
  import opened Http
  import opened Web
  import opened Models
  import opened Storage
  import opened Auth
  import opened Crud

  /** POST /tasks */
  method CreateTaskEndpoint(form: TaskCreate, request: Request, db: Database, redis: Redis, now: nat)
    returns (r: Result<Task>)
    requires db.Valid()
    modifies db
    ensures db.Valid() && db.users == old(db.users)
    ensures var caller := Guard(db.users, redis.entries, request, now);
      && (caller.Err? ==> r == Err(caller.error) && db.tasks == old(db.tasks))
      && (caller.Ok? ==>
            && r.Ok? && r.value.userId == caller.value.id && r.value.id !in old(db.tasks)
            && CreateTaskStep(old(db.tasks), r.value.id, form, caller.value.id) == TaskOutcome(r, db.tasks))
  {
    var tokens := GetTokenFromCookies(request);
    if tokens.Err? {
      return Err(tokens.error);
    }
    var currentUser := GetCurrentUser(db.users, redis.entries, request, tokens.value.accessToken, tokens.value.refreshToken, now);
    if currentUser.Err? {
      return Err(currentUser.error);
    }
    var newTask := CreateTask(db, form, currentUser.value.id);
    return Ok(newTask);
  }

  /** GET /tasks?status=... */
  method GetTasksEndpoint(request: Request, db: Database, redis: Redis, status: Option<string>, now: nat)
    returns (r: Result<Tasks>)
    ensures var caller := Guard(db.users, redis.entries, request, now);
      && (caller.Err? ==> r == Err(caller.error))
      && (caller.Ok? ==> r == Ok(GetTasks(db.tasks, caller.value.id, status)))
    ensures r.Ok? ==> forall k :: k in r.value ==> k in db.tasks && r.value[k] == db.tasks[k]
    ensures r.Ok? ==> forall k :: k in r.value ==> r.value[k].userId == Guard(db.users, redis.entries, request, now).value.id
  {
    var tokens := GetTokenFromCookies(request);
    if tokens.Err? {
      return Err(tokens.error);
    }
    var currentUser := GetCurrentUser(db.users, redis.entries, request, tokens.value.accessToken, tokens.value.refreshToken, now);
    if currentUser.Err? {
      return Err(currentUser.error);
    }
    var tasks := GetTasks(db.tasks, currentUser.value.id, status);
    return Ok(tasks);
  }

  /** GET /tasks/{task_id}: 404 exactly when get_task finds nothing. */
  method GetTaskEndpoint(taskId: nat, request: Request, db: Database, redis: Redis, now: nat)
    returns (r: Result<Task>)
    ensures var caller := Guard(db.users, redis.entries, request, now);
      && (caller.Err? ==> r == Err(caller.error))
      && (caller.Ok? && !Owns(db.tasks, taskId, caller.value.id) ==> r == Err(TASK_NOT_FOUND))
      && (caller.Ok? && Owns(db.tasks, taskId, caller.value.id) ==> r == Ok(db.tasks[taskId]))
  {
    var tokens := GetTokenFromCookies(request);
    if tokens.Err? {
      return Err(tokens.error);
    }
    var currentUser := GetCurrentUser(db.users, redis.entries, request, tokens.value.accessToken, tokens.value.refreshToken, now);
    if currentUser.Err? {
      return Err(currentUser.error);
    }
    var task := GetTask(db.tasks, currentUser.value.id, taskId);
    if task.None? {
      return Err(TASK_NOT_FOUND);
    }
    return Ok(task.value);
  }

  /** PUT /tasks/{task_id} */
  method UpdateTaskEndpoint(taskId: nat, patch: TaskUpdate, request: Request, db: Database, redis: Redis, now: nat)
    returns (r: Result<Task>)
    requires db.Valid()
    modifies db
    ensures db.Valid() && db.users == old(db.users)
    ensures var caller := Guard(db.users, redis.entries, request, now);
      && (caller.Err? ==> r == Err(caller.error) && db.tasks == old(db.tasks))
      && (caller.Ok? ==> UpdateTaskStep(old(db.tasks), taskId, patch, caller.value.id) == TaskOutcome(r, db.tasks))
      && (caller.Ok? ==> ForeignTasksKept(old(db.tasks), db.tasks, caller.value.id))
  {
    var tokens := GetTokenFromCookies(request);
    if tokens.Err? {
      return Err(tokens.error);
    }
    var currentUser := GetCurrentUser(db.users, redis.entries, request, tokens.value.accessToken, tokens.value.refreshToken, now);
    if currentUser.Err? {
      return Err(currentUser.error);
    }
    r := UpdateTask(db, taskId, patch, currentUser.value.id);
  }

  /** DELETE /tasks/{task_id}: the message names the id of the removed task. */
  method DeleteTaskEndpoint(taskId: nat, request: Request, db: Database, redis: Redis, now: nat)
    returns (r: Result<string>)
    requires db.Valid()
    modifies db
    ensures db.Valid() && db.users == old(db.users)
    ensures var caller := Guard(db.users, redis.entries, request, now);
      && (caller.Err? ==> r == Err(caller.error) && db.tasks == old(db.tasks))
      && (caller.Ok? ==>
            var o := DeleteTaskStep(old(db.tasks), taskId, caller.value.id);
            && db.tasks == o.tasks
            && (o.result.Err? ==> r == Err(o.result.error))
            && (o.result.Ok? ==> r == Ok(DeletedMessage(taskId))))
      && (caller.Ok? ==> ForeignTasksKept(old(db.tasks), db.tasks, caller.value.id))
  {
    var tokens := GetTokenFromCookies(request);
    if tokens.Err? {
      return Err(tokens.error);
    }
    var currentUser := GetCurrentUser(db.users, redis.entries, request, tokens.value.accessToken, tokens.value.refreshToken, now);
    if currentUser.Err? {
      return Err(currentUser.error);
    }
    var deleted := DeleteTask(db, taskId, currentUser.value.id);
    if deleted.Err? {
      return Err(deleted.error);
    }
    return Ok(DeletedMessage(deleted.value.id));
  }

  /** f"Task {id} deleted successfully": the fixed frame around the id, written in decimal. */
  function DeletedMessage(id: nat): (m: string)
    ensures 27 <= |m| && m[..5] == "Task " && m[|m| - 21..] == " deleted successfully"
    ensures forall i :: 5 <= i < |m| - 21 ==> '0' <= m[i] <= '9'
    ensures DecimalValue(m[5..|m| - 21]) == id
  {
    var digits := DecimalString(id);
    var m := "Task " + digits + " deleted successfully";
    DecimalRoundTrip(id);
    assert m[5..|m| - 21] == digits;
    m
  }

  /** Python's str() of a non-negative int: decimal digits, no leading zero. */
  function DecimalString(n: nat): (s: string)
    ensures 0 < |s| && forall i :: 0 <= i < |s| ==> '0' <= s[i] <= '9'
    ensures |s| > 1 ==> s[0] != '0'
    decreases n
  {
    if n < 10 then [DigitChar(n)] else DecimalString(n / 10) + [DigitChar(n % 10)]
  }

  function DigitChar(d: nat): (c: char)
    requires d < 10
    ensures '0' <= c <= '9' && (c as int) - ('0' as int) == d
  {
    (('0' as int) + d) as char
  }

  /** The number a string of decimal digits denotes. */
  function DecimalValue(s: string): nat
    requires forall i :: 0 <= i < |s| ==> '0' <= s[i] <= '9'
    decreases |s|
  {
    if s == [] then 0 else 10 * DecimalValue(s[..|s| - 1]) + ((s[|s| - 1] as int) - ('0' as int))
  }

  /** Reading the digits back gives the number. */
  lemma {:induction false} DecimalRoundTrip(n: nat)
    ensures DecimalValue(DecimalString(n)) == n
    decreases n
  {
    var s := DecimalString(n);
    if n >= 10 {
      DecimalRoundTrip(n / 10);
      assert s[..|s| - 1] == DecimalString(n / 10);
    }
  }

  /** Two deletions report the same message only if they removed the same id. */
  lemma DeletedMessageNamesTask(a: nat, b: nat)
    requires DeletedMessage(a) == DeletedMessage(b)
    ensures a == b
  {
    var m := DeletedMessage(a);
    assert m[5..|m| - 21] == DeletedMessage(b)[5..|DeletedMessage(b)| - 21];
  }
}
