/**
 * app/crud.py: the task queries and writes, each scoped by the id of the
 * user on whose behalf it runs. A task that exists but belongs to someone
 * else is treated exactly like a missing one.
 */
module Crud {
  import opened Http
  import opened Models
  import opened Storage

  const TASK_NOT_FOUND := HttpError(404, "Task not found")

  /** What a task write returns or raises, with the table it leaves. */
  datatype TaskOutcome<T> = TaskOutcome(result: Result<T>, tasks: Tasks)

  /** `taskId` names a task of user `userId`. */
  predicate Owns(tasks: Tasks, taskId: nat, userId: nat) {
    taskId in tasks && tasks[taskId].userId == userId
  }

  /** Every task of a user other than `userId` is still there, unchanged. */
  ghost predicate ForeignTasksKept(before: Tasks, after: Tasks, userId: nat) {
    forall k :: k in before && before[k].userId != userId ==> k in after && after[k] == before[k]
  }

  /** Python truthiness of the optional status filter: not None, not "". */
  predicate FilterActive(status: Option<string>) {
    status.Some? && status.value != ""
  }

  /**
   * get_tasks: the user's tasks, narrowed to one status when the filter is
   * truthy. The column reads the filter string as a status, so either the
   * status's value or its member name selects it.
   */
  function GetTasks(tasks: Tasks, userId: nat, status: Option<string>): (r: Tasks)
    ensures forall k :: k in r <==>
      && k in tasks && tasks[k].userId == userId
      && (FilterActive(status) ==> status.value == tasks[k].status.Value() || status.value == tasks[k].status.Name())
    ensures forall k :: k in r ==> r[k] == tasks[k]
  {
    var owned := map k | k in tasks && tasks[k].userId == userId :: tasks[k];
    if FilterActive(status) then map k | k in owned && ParseStatus(status.value) == Some(owned[k].status) :: owned[k]
    else owned
  }

  /** get_task: the task with that id, if the user owns it. */
  function GetTask(tasks: Tasks, userId: nat, taskId: nat): (r: Option<Task>)
    ensures r.Some? <==> Owns(tasks, taskId, userId)
    ensures r.Some? ==> r.value == tasks[taskId]
  {
    if taskId in tasks && tasks[taskId].userId == userId then Some(tasks[taskId]) else None
  }

  /** The effect of create_task when the database hands out `newId`. */
  function CreateTaskStep(tasks: Tasks, newId: nat, form: TaskCreate, userId: nat): (o: TaskOutcome<Task>)
    requires newId !in tasks
    ensures o.result.Ok? && o.result.value.id == newId && o.result.value.userId == userId
    ensures o.result.value.title == form.title && o.result.value.description == form.description
    ensures o.result.value.status == form.status
    ensures o.tasks.Keys == tasks.Keys + {newId} && o.tasks[newId] == o.result.value
    ensures forall k :: k in tasks ==> o.tasks[k] == tasks[k]
  {
    var task := Task(newId, form.title, form.description, form.status, userId);
    TaskOutcome(Ok(task), tasks[newId := task])
  }

  /** create_task: a new row owned by `userId`. */
  method CreateTask(db: Database, form: TaskCreate, userId: nat) returns (task: Task)
    requires db.Valid()
    modifies db
    ensures db.Valid() && db.users == old(db.users)
    ensures task.id !in old(db.tasks)
    ensures CreateTaskStep(old(db.tasks), task.id, form, userId) == TaskOutcome(Ok(task), db.tasks)
  {
    task := db.AddTask(form, userId);
  }

  /** The patch sets this attribute to this value. */
  predicate Sets(patch: TaskUpdate, item: FieldValue) {
    match item
    case Title(v) => patch.title == Some(v)
    case Description(v) => patch.description == Some(v)
    case Status(v) => patch.status == Some(v)
  }

  /** Position of an attribute among the schema's fields. */
  function FieldRank(item: FieldValue): nat {
    match item
    case Title(_) => 0
    case Description(_) => 1
    case Status(_) => 2
  }

  /**
   * task.dict(exclude_unset=True).items(): exactly the items the patch sets,
   * each attribute at most once, in the schema's field order.
   */
  function SetFields(patch: TaskUpdate): (r: seq<FieldValue>)
    ensures forall item :: item in r <==> Sets(patch, item)
    ensures forall i, j :: 0 <= i < j < |r| ==> FieldRank(r[i]) < FieldRank(r[j])
  {
    TitleItem(patch) + DescriptionItem(patch) + StatusItem(patch)
  }

  function TitleItem(patch: TaskUpdate): seq<FieldValue> {
    if patch.title.Some? then [Title(patch.title.value)] else []
  }

  function DescriptionItem(patch: TaskUpdate): seq<FieldValue> {
    if patch.description.Some? then [Description(patch.description.value)] else []
  }

  function StatusItem(patch: TaskUpdate): seq<FieldValue> {
    if patch.status.Some? then [Status(patch.status.value)] else []
  }

  /** The task after the setattr loop has run over `items`. */
  function SetAttrs(t: Task, items: seq<FieldValue>): (r: Task)
    ensures r.id == t.id && r.userId == t.userId
    decreases |items|
  {
    if items == [] then t else SetAttr(SetAttrs(t, items[..|items| - 1]), items[|items| - 1])
  }

  /**
   * The intended meaning of a partial update, field by field: a field the
   * patch sets takes the patch's value, every other field keeps its own.
   */
  function ApplyPatch(t: Task, patch: TaskUpdate): Task {
    Task(t.id,
         if patch.title.Some? then patch.title.value else t.title,
         if patch.description.Some? then patch.description.value else t.description,
         if patch.status.Some? then patch.status.value else t.status,
         t.userId)
  }

  /** The effect of update_task. */
  function UpdateTaskStep(tasks: Tasks, taskId: nat, patch: TaskUpdate, userId: nat): (o: TaskOutcome<Task>)
    ensures !Owns(tasks, taskId, userId) ==> o == TaskOutcome(Err(TASK_NOT_FOUND), tasks)
    ensures Owns(tasks, taskId, userId) ==>
      o.result == Ok(ApplyPatch(tasks[taskId], patch)) && o.tasks == tasks[taskId := o.result.value]
    ensures o.result.Ok? ==> taskId in o.tasks && o.result.value == o.tasks[taskId] && o.result.value.userId == userId
    ensures o.tasks.Keys == tasks.Keys
    ensures forall k :: k in tasks && k != taskId ==> o.tasks[k] == tasks[k]
    ensures ForeignTasksKept(tasks, o.tasks, userId)
  {
    if !Owns(tasks, taskId, userId) then TaskOutcome(Err(TASK_NOT_FOUND), tasks)
    else
      var task := ApplyPatch(tasks[taskId], patch);
      TaskOutcome(Ok(task), tasks[taskId := task])
  }

  /** update_task: ownership check, then setattr for each item the patch sets. */
  method UpdateTask(db: Database, taskId: nat, patch: TaskUpdate, userId: nat) returns (r: Result<Task>)
    requires db.Valid()
    modifies db
    ensures db.Valid() && db.users == old(db.users)
    ensures UpdateTaskStep(old(db.tasks), taskId, patch, userId) == TaskOutcome(r, db.tasks)
  {
    if taskId !in db.tasks || db.tasks[taskId].userId != userId {
      return Err(TASK_NOT_FOUND);
    }
    ghost var before := db.tasks;
    var items := SetFields(patch);
    var i := 0;
    while i < |items|
      invariant 0 <= i <= |items|
      invariant db.Valid() && db.users == old(db.users)
      invariant db.tasks == before[taskId := SetAttrs(before[taskId], items[..i])]
    {
      ghost var done := SetAttrs(before[taskId], items[..i]);
      SetAttrsPrefix(before[taskId], items, i);
      db.SetTaskField(taskId, items[i]);
      assert before[taskId := done][taskId := SetAttr(done, items[i])] == before[taskId := SetAttr(done, items[i])];
      i := i + 1;
    }
    assert items[..i] == items;
    SetAttrsIsPatch(before[taskId], patch);
    r := Ok(db.tasks[taskId]);
  }

  /** One more iteration of the loop is one more setattr. */
  lemma SetAttrsPrefix(t: Task, xs: seq<FieldValue>, i: nat)
    requires i < |xs|
    ensures SetAttrs(t, xs[..i + 1]) == SetAttr(SetAttrs(t, xs[..i]), xs[i])
  {
    assert xs[..i + 1][..i] == xs[..i];
  }

  /** Running the loop over `xs + ys` is running it over `xs`, then over `ys`. */
  lemma {:induction false} SetAttrsAppend(t: Task, xs: seq<FieldValue>, ys: seq<FieldValue>)
    ensures SetAttrs(t, xs + ys) == SetAttrs(SetAttrs(t, xs), ys)
    decreases |ys|
  {
    if ys == [] {
      assert xs + ys == xs;
    } else {
      var n := |ys| - 1;
      assert (xs + ys)[..|xs + ys| - 1] == xs + ys[..n];
      SetAttrsAppend(t, xs, ys[..n]);
    }
  }

  /** The loop over at most one item is at most one setattr. */
  lemma SetAttrsAtMostOne(t: Task, xs: seq<FieldValue>)
    requires |xs| <= 1
    ensures SetAttrs(t, xs) == if xs == [] then t else SetAttr(t, xs[0])
  {
    if xs != [] {
      assert xs[..0] == [];
    }
  }

  /** The title item alone sets the title, if the patch has one. */
  lemma TitleStep(t: Task, patch: TaskUpdate)
    ensures SetAttrs(t, TitleItem(patch)) == t.(title := if patch.title.Some? then patch.title.value else t.title)
  {
    SetAttrsAtMostOne(t, TitleItem(patch));
  }

  /** The description item alone sets the description, if the patch has one. */
  lemma DescriptionStep(t: Task, patch: TaskUpdate)
    ensures SetAttrs(t, DescriptionItem(patch))
      == t.(description := if patch.description.Some? then patch.description.value else t.description)
  {
    SetAttrsAtMostOne(t, DescriptionItem(patch));
  }

  /** The status item alone sets the status, if the patch has one. */
  lemma StatusStep(t: Task, patch: TaskUpdate)
    ensures SetAttrs(t, StatusItem(patch)) == t.(status := if patch.status.Some? then patch.status.value else t.status)
  {
    SetAttrsAtMostOne(t, StatusItem(patch));
  }

  /** The setattr loop over the set items computes the field-by-field patch. */
  lemma SetAttrsIsPatch(t: Task, patch: TaskUpdate)
    ensures SetAttrs(t, SetFields(patch)) == ApplyPatch(t, patch)
  {
    var a, b, c := TitleItem(patch), DescriptionItem(patch), StatusItem(patch);
    SetAttrsAppend(t, a + b, c);
    SetAttrsAppend(t, a, b);
    var one := SetAttrs(t, a);
    TitleStep(t, patch);
    var two := SetAttrs(one, b);
    DescriptionStep(one, patch);
    StatusStep(two, patch);
  }

  /** Applying the same patch a second time changes nothing further. */
  lemma UpdateTaskIdempotent(tasks: Tasks, taskId: nat, patch: TaskUpdate, userId: nat)
    ensures var once := UpdateTaskStep(tasks, taskId, patch, userId);
      UpdateTaskStep(once.tasks, taskId, patch, userId) == once
  {
    var once := UpdateTaskStep(tasks, taskId, patch, userId);
    if Owns(tasks, taskId, userId) {
      assert once.tasks[taskId := ApplyPatch(once.tasks[taskId], patch)] == once.tasks;
    }
  }

  /** The effect of delete_task. */
  function DeleteTaskStep(tasks: Tasks, taskId: nat, userId: nat): (o: TaskOutcome<Task>)
    ensures !Owns(tasks, taskId, userId) ==> o == TaskOutcome(Err(TASK_NOT_FOUND), tasks)
    ensures Owns(tasks, taskId, userId) ==> o.result == Ok(tasks[taskId])
    ensures o.result.Ok? ==> o.tasks.Keys == tasks.Keys - {taskId}
    ensures forall k :: k in o.tasks ==> k in tasks && o.tasks[k] == tasks[k]
    ensures ForeignTasksKept(tasks, o.tasks, userId)
  {
    if !Owns(tasks, taskId, userId) then TaskOutcome(Err(TASK_NOT_FOUND), tasks)
    else TaskOutcome(Ok(tasks[taskId]), tasks - {taskId})
  }

  /** delete_task: ownership check, then the row is removed and returned. */
  method DeleteTask(db: Database, taskId: nat, userId: nat) returns (r: Result<Task>)
    requires db.Valid()
    modifies db
    ensures db.Valid() && db.users == old(db.users)
    ensures DeleteTaskStep(old(db.tasks), taskId, userId) == TaskOutcome(r, db.tasks)
  {
    if taskId !in db.tasks || db.tasks[taskId].userId != userId {
      return Err(TASK_NOT_FOUND);
    }
    var task := db.tasks[taskId];
    db.DeleteTask(taskId);
    return Ok(task);
  }
}
