/**
 * The two stores the core talks to: the SQL database holding users and
 * tasks (rows get their ids from an autoincrement counter) and the Redis
 * session store, whose entries expire after a time-to-live.
 */
module Storage {
  import opened Http
  import opened Models

  /** A stored pair with the time at which Redis forgets it. */
  datatype SessionEntry = SessionEntry(tokens: TokenPair, expiresAt: nat)

  type Sessions = map<string, SessionEntry>

  /** redis.get(key) at time `now`: nothing once the entry's TTL has run out. */
  function LiveSession(sessions: Sessions, key: string, now: nat): (r: Option<TokenPair>)
    ensures r.Some? <==> key in sessions && now < sessions[key].expiresAt
    ensures r.Some? ==> r.value == sessions[key].tokens
  {
    if key in sessions && now < sessions[key].expiresAt then Some(sessions[key].tokens) else None
  }

  class Redis {
    var entries: Sessions

    constructor ()
      ensures entries == map[]
    {
      entries := map[];
    }

    /** redis.set(key, value, ex=ttl): replaces any previous entry. */
    method Set(key: string, value: TokenPair, ttl: nat, now: nat)
      modifies this
      ensures entries == old(entries)[key := SessionEntry(value, now + ttl)]
    {
      entries := entries[key := SessionEntry(value, now + ttl)];
    }

    /** redis.delete(key): a missing key is not an error. */
    method Delete(key: string)
      modifies this
      ensures entries == old(entries) - {key}
    {
      entries := entries - {key};
    }
  }

  class Database {
    var users: Users
    var tasks: Tasks
    var nextUserId: nat
    var nextTaskId: nat

    ghost predicate Valid()
      reads this
    {
      && UsersWellFormed(users)
      && TasksWellFormed(tasks)
      && (forall name :: name in users ==> users[name].id < nextUserId)
      && (forall k :: k in tasks ==> k < nextTaskId)
    }

    constructor ()
      ensures Valid() && users == map[] && tasks == map[]
    {
      users, tasks := map[], map[];
      nextUserId, nextTaskId := 1, 1;
    }

    /** db.add(User(...)); commit; refresh: the row gets a fresh id. */
    method AddUser(username: string, hash: PasswordHash) returns (user: User)
      requires Valid() && username !in users
      modifies this
      ensures Valid() && tasks == old(tasks) && nextTaskId == old(nextTaskId)
      ensures user.username == username && user.passwordHash == hash
      ensures forall name :: name in old(users) ==> old(users)[name].id != user.id
      ensures users == old(users)[username := user]
    {
      user := User(nextUserId, username, hash);
      users := users[username := user];
      nextUserId := nextUserId + 1;
    }

    /** db.add(Task(...)); commit; refresh: the row gets a fresh id. */
    method AddTask(form: TaskCreate, userId: nat) returns (task: Task)
      requires Valid()
      modifies this
      ensures Valid() && users == old(users) && nextUserId == old(nextUserId)
      ensures task.id !in old(tasks)
      ensures task == Task(task.id, form.title, form.description, form.status, userId)
      ensures tasks == old(tasks)[task.id := task]
    {
      task := Task(nextTaskId, form.title, form.description, form.status, userId);
      tasks := tasks[nextTaskId := task];
      nextTaskId := nextTaskId + 1;
    }

    /** setattr on a loaded task row, committed. */
    method SetTaskField(taskId: nat, item: FieldValue)
      requires Valid() && taskId in tasks
      modifies this
      ensures Valid() && users == old(users)
      ensures nextUserId == old(nextUserId) && nextTaskId == old(nextTaskId)
      ensures tasks == old(tasks)[taskId := SetAttr(old(tasks)[taskId], item)]
    {
      tasks := tasks[taskId := SetAttr(tasks[taskId], item)];
    }

    /** db.delete(task); commit. */
    method DeleteTask(taskId: nat)
      requires Valid()
      modifies this
      ensures Valid() && users == old(users)
      ensures nextUserId == old(nextUserId) && nextTaskId == old(nextTaskId)
      ensures tasks == old(tasks) - {taskId}
    {
      tasks := tasks - {taskId};
    }
  }
}
