/** Creating and partially updating tasks. */
module TaskPatch {
  import opened Prelude

  type Id = int

  const NIL_ID: Id := 0

  /** Library functions the service applies to its inputs. `parseTime` and `parseId` may reject. */
  datatype Env = Env(
    trim: string -> string,
    upper: string -> string,
    parseTime: string -> Option<int>,
    parseId: string -> Option<Id>)

  datatype Task = Task(
    workspace: Id,
    title: string,
    description: string,
    status: string,
    priority: string,
    dueDate: Option<int>,
    assignee: Option<Id>,
    createdBy: Id)

  /** Absent fields are left alone. For the due date and the assignee an empty string clears the field. */
  datatype Patch = Patch(
    title: Option<string>,
    description: Option<string>,
    status: Option<string>,
    priority: Option<string>,
    dueDate: Option<string>,
    assignee: Option<string>)

  datatype TaskError = InvalidInput | NotFound | Forbidden | ConstraintViolated

  predicate IsStatus(s: string) { s == "TODO" || s == "IN_PROGRESS" || s == "DONE" }

  predicate IsPriority(p: string) { p == "LOW" || p == "MEDIUM" || p == "HIGH" || p == "URGENT" }

  /** Every present field is acceptable, whatever the task. */
  predicate Acceptable(env: Env, p: Patch) {
    && (p.title.Some? ==> env.trim(p.title.value) != "")
    && (p.status.Some? ==> IsStatus(env.upper(env.trim(p.status.value))))
    && (p.priority.Some? ==> IsPriority(env.upper(env.trim(p.priority.value))))
    && (p.dueDate.Some? && p.dueDate.value != "" ==> env.parseTime(p.dueDate.value).Some?)
    && (p.assignee.Some? && p.assignee.value != "" ==>
          env.parseId(p.assignee.value).Some? && env.parseId(p.assignee.value) != Some(NIL_ID))
  }

  /** The task with exactly the present fields replaced. */
  function Overlay(env: Env, t: Task, p: Patch): Task {
    t.(title := if p.title.Some? then env.trim(p.title.value) else t.title,
       description := if p.description.Some? then p.description.value else t.description,
       status := if p.status.Some? then env.upper(env.trim(p.status.value)) else t.status,
       priority := if p.priority.Some? then env.upper(env.trim(p.priority.value)) else t.priority,
       dueDate := if p.dueDate.None? then t.dueDate
                  else if p.dueDate.value == "" then None else env.parseTime(p.dueDate.value),
       assignee := if p.assignee.None? then t.assignee
                   else if p.assignee.value == "" then None else env.parseId(p.assignee.value))
  }

  datatype Store = Store(tasks: map<Id, Task>, members: set<(Id, Id)>, users: set<Id>)

  /** The foreign key of the assignee column. */
  predicate Storable(s: Store, t: Task) {
    t.assignee.Some? ==> t.assignee.value in s.users
  }

  /** A task that is already stored satisfies the foreign keys; user rows are not deleted under it. */
  ghost predicate StoredTasksAreStorable(s: Store) {
    forall id :: id in s.tasks ==> Storable(s, s.tasks[id])
  }

  /** Does the update go through? Asked before the call, of the call's inputs and the store. */
  predicate Accepts(env: Env, s: Store, actor: Id, taskId: Id, p: Patch) {
    && actor != NIL_ID && taskId != NIL_ID && taskId in s.tasks
    && (s.tasks[taskId].workspace, actor) in s.members
    && Acceptable(env, p)
    && Storable(s, Overlay(env, s.tasks[taskId], p))
  }

  /** Why an update that does not go through is refused; the first reason found. */
  function Refusal(env: Env, s: Store, actor: Id, taskId: Id, p: Patch): TaskError {
    if actor == NIL_ID || taskId == NIL_ID then InvalidInput
    else if taskId !in s.tasks then NotFound
    else if (s.tasks[taskId].workspace, actor) !in s.members then Forbidden
    else if !Acceptable(env, p) then InvalidInput
    else ConstraintViolated
  }

  function Updated(env: Env, s: Store, actor: Id, taskId: Id, p: Patch): Store {
    if Accepts(env, s, actor, taskId, p) then s.(tasks := s.tasks[taskId := Overlay(env, s.tasks[taskId], p)]) else s
  }

  function WithDefaults(env: Env, actor: Id, t: Task): Task {
    var priority := env.upper(env.trim(t.priority));
    t.(createdBy := actor, status := "TODO", priority := if priority == "" then "MEDIUM" else priority)
  }

  predicate Creates(env: Env, s: Store, actor: Id, t: Task) {
    && actor != NIL_ID && t.workspace != NIL_ID && (t.workspace, actor) in s.members
    && IsPriority(WithDefaults(env, actor, t).priority)
    && Storable(s, t)
  }

  function Created(env: Env, s: Store, actor: Id, id: Id, t: Task): Store {
    if Creates(env, s, actor, t) then s.(tasks := s.tasks[id := WithDefaults(env, actor, t)]) else s
  }

  // ----- what the calls promise -----

  predicate GoodPatch(env: Env, p: Patch) {
    && (p.title.Some? ==> env.trim(p.title.value) != "")
    && (p.status.Some? ==> env.upper(env.trim(p.status.value)) in ["TODO", "IN_PROGRESS", "DONE"])
    && (p.priority.Some? ==> env.upper(env.trim(p.priority.value)) in ["LOW", "MEDIUM", "HIGH", "URGENT"])
    && (p.dueDate.Some? ==> p.dueDate.value == "" || env.parseTime(p.dueDate.value).Some?)
    && (p.assignee.Some? ==>
          p.assignee.value == ""
          || (env.parseId(p.assignee.value).Some? && env.parseId(p.assignee.value).value != 0))
  }

  /** Field by field: what is present is stored as given, what is absent is kept. */
  predicate FieldsStored(env: Env, p: Patch, before: Task, after: Task) {
    && after.title == (if p.title.Some? then env.trim(p.title.value) else before.title)
    && after.description == (if p.description.Some? then p.description.value else before.description)
    && after.status == (if p.status.Some? then env.upper(env.trim(p.status.value)) else before.status)
    && after.priority == (if p.priority.Some? then env.upper(env.trim(p.priority.value)) else before.priority)
    && (p.dueDate.None? ==> after.dueDate == before.dueDate)
    && (p.dueDate == Some("") ==> after.dueDate == None)
    && (p.dueDate.Some? && p.dueDate.value != "" ==> after.dueDate == env.parseTime(p.dueDate.value))
    && (p.assignee.None? ==> after.assignee == before.assignee)
    && (p.assignee == Some("") ==> after.assignee == None)
    && (p.assignee.Some? && p.assignee.value != "" ==> after.assignee == env.parseId(p.assignee.value))
    && after.workspace == before.workspace && after.createdBy == before.createdBy
  }

  predicate MaySee(s: Store, actor: Id, taskId: Id) {
    actor != 0 && taskId != 0 && taskId in s.tasks && (s.tasks[taskId].workspace, actor) in s.members
  }

  /** The task is missing, or not the actor's to touch. */
  predicate TouchRefusals(s: Store, actor: Id, taskId: Id, error: Option<TaskError>) {
    && (error == Some(NotFound) <==> actor != 0 && taskId != 0 && taskId !in s.tasks)
    && (error == Some(Forbidden) <==>
          actor != 0 && taskId != 0 && taskId in s.tasks && (s.tasks[taskId].workspace, actor) !in s.members)
  }

  function ErrorOf<T>(r: Result<T, TaskError>): Option<TaskError> {
    if r.Err? then Some(r.error) else None
  }

  predicate UpdateAnswers(env: Env, s: Store, actor: Id, taskId: Id, p: Patch, s': Store, r: Result<Task, TaskError>) {
    && TouchRefusals(s, actor, taskId, ErrorOf(r))
    && (r == Err(InvalidInput) <==> actor == 0 || taskId == 0 || (MaySee(s, actor, taskId) && !GoodPatch(env, p)))
    && (r.Ok? ==>
          && MaySee(s, actor, taskId) && GoodPatch(env, p) && FieldsStored(env, p, s.tasks[taskId], r.value)
          && s' == s.(tasks := s.tasks[taskId := r.value]))
    && (r.Err? ==> s' == s)
    && (r == Err(ConstraintViolated) <==>
          && MaySee(s, actor, taskId) && GoodPatch(env, p)
          && p.assignee.Some? && p.assignee.value != "" && env.parseId(p.assignee.value).Some?
          && env.parseId(p.assignee.value).value !in s.users)
  }

  /** The answer of an update, as the functions above give it. */
  function Answer(env: Env, s: Store, actor: Id, taskId: Id, p: Patch): Result<Task, TaskError> {
    if Accepts(env, s, actor, taskId, p) then Ok(Overlay(env, s.tasks[taskId], p))
    else Err(Refusal(env, s, actor, taskId, p))
  }

  lemma UpdateExactly(env: Env, s: Store, actor: Id, taskId: Id, p: Patch)
    requires StoredTasksAreStorable(s)
    ensures UpdateAnswers(env, s, actor, taskId, p, Updated(env, s, actor, taskId, p), Answer(env, s, actor, taskId, p))
  {
  }

  predicate CreateAnswers(env: Env, s: Store, actor: Id, id: Id, input: Task, s': Store, r: Result<Task, TaskError>) {
    var named := actor != 0 && input.workspace != 0;
    var priority := env.upper(env.trim(input.priority));
    var good := priority in ["", "LOW", "MEDIUM", "HIGH", "URGENT"];
    && (r == Err(Forbidden) <==> named && (input.workspace, actor) !in s.members)
    && (r == Err(InvalidInput) <==> !named || ((input.workspace, actor) in s.members && !good))
    && (r == Err(ConstraintViolated) <==>
          && named && (input.workspace, actor) in s.members && good
          && input.assignee.Some? && input.assignee.value !in s.users)
    && (r.Ok? <==>
          && named && (input.workspace, actor) in s.members && good
          && (input.assignee.Some? ==> input.assignee.value in s.users))
    && (r.Ok? ==>
          && r.value.createdBy == actor && r.value.status == "TODO"
          && r.value.priority == (if priority == "" then "MEDIUM" else priority)
          && r.value.workspace == input.workspace && r.value.title == input.title
          && r.value.description == input.description
          && r.value.dueDate == input.dueDate && r.value.assignee == input.assignee
          && s' == s.(tasks := s.tasks[id := r.value]))
    && (r.Err? ==> s' == s)
  }

  class TaskService {
    const env: Env
    var tasks: map<Id, Task>
    const members: set<(Id, Id)>
    const users: set<Id>

    constructor (env: Env, members: set<(Id, Id)>, users: set<Id>)
      ensures this.env == env && Contents() == Store(map[], members, users)
    {
      this.env, this.members, this.users := env, members, users;
      tasks := map[];
    }

    function Contents(): Store
      reads this
    {
      Store(tasks, members, users)
    }

    /** `id` is the fresh identifier the database assigns. */
    method Create(actor: Id, id: Id, input: Task) returns (r: Result<Task, TaskError>)
      requires id !in tasks
      modifies this
      ensures Contents() == Created(env, old(Contents()), actor, id, input)
      ensures r.Ok? <==> Creates(env, old(Contents()), actor, input)
      ensures r.Ok? ==> r.value == WithDefaults(env, actor, input)
      ensures CreateAnswers(env, old(Contents()), actor, id, input, Contents(), r)
    {
      if actor == NIL_ID || input.workspace == NIL_ID {
        return Err(InvalidInput);
      }
      if (input.workspace, actor) !in members {
        return Err(Forbidden);
      }
      var t := input.(createdBy := actor, status := "TODO");
      t := t.(priority := env.upper(env.trim(t.priority)));
      if t.priority == "" {
        t := t.(priority := "MEDIUM");
      }
      if !IsPriority(t.priority) {
        return Err(InvalidInput);
      }
      if t.assignee.Some? && t.assignee.value !in users {
        return Err(ConstraintViolated);
      }
      tasks := tasks[id := t];
      return Ok(t);
    }

    method UpdateTask(actor: Id, taskId: Id, input: Patch) returns (r: Result<Task, TaskError>)
      requires StoredTasksAreStorable(Contents())
      modifies this
      ensures Contents() == Updated(env, old(Contents()), actor, taskId, input)
      ensures r == Answer(env, old(Contents()), actor, taskId, input)
      ensures UpdateAnswers(env, old(Contents()), actor, taskId, input, Contents(), r)
    {
      UpdateExactly(env, Contents(), actor, taskId, input);
      if actor == NIL_ID || taskId == NIL_ID {
        return Err(InvalidInput);
      }
      if taskId !in tasks {
        return Err(NotFound);
      }
      var t := tasks[taskId];
      ghost var before, target := t, Overlay(env, t, input);
      if (t.workspace, actor) !in members {
        return Err(Forbidden);
      }
      var changed := false;

      if input.title.Some? {
        var title := env.trim(input.title.value);
        if title == "" {
          return Err(InvalidInput);
        }
        if t.title != title {
          t := t.(title := title);
          changed := true;
        }
      }
      assert t == before.(title := target.title) && (!changed ==> t == before);

      if input.description.Some? {
        if t.description != input.description.value {
          t := t.(description := input.description.value);
          changed := true;
        }
      }
      assert t == before.(title := target.title, description := target.description) && (!changed ==> t == before);

      if input.status.Some? {
        var status := env.upper(env.trim(input.status.value));
        if !IsStatus(status) {
          return Err(InvalidInput);
        }
        if t.status != status {
          t := t.(status := status);
          changed := true;
        }
      }
      assert t == before.(title := target.title, description := target.description, status := target.status)
             && (!changed ==> t == before);

      if input.priority.Some? {
        var priority := env.upper(env.trim(input.priority.value));
        if !IsPriority(priority) {
          return Err(InvalidInput);
        }
        if t.priority != priority {
          t := t.(priority := priority);
          changed := true;
        }
      }
      assert t == target.(dueDate := before.dueDate, assignee := before.assignee) && (!changed ==> t == before);

      if input.dueDate.Some? {
        if input.dueDate.value == "" {
          t := t.(dueDate := None);
          changed := true;
        } else {
          var parsed := env.parseTime(input.dueDate.value);
          if parsed.None? {
            return Err(InvalidInput);
          }
          t := t.(dueDate := parsed);
          changed := true;
        }
      }
      assert t == target.(assignee := before.assignee) && (!changed ==> t == before);

      if input.assignee.Some? {
        if input.assignee.value == "" {
          t := t.(assignee := None);
          changed := true;
        } else {
          var id := env.parseId(input.assignee.value);
          if id.None? || id.value == NIL_ID {
            return Err(InvalidInput);
          }
          t := t.(assignee := id);
          changed := true;
        }
      }
      assert t == target && (!changed ==> t == before);

      if !changed {
        assert tasks == tasks[taskId := t];
        return Ok(t);
      }
      if t.assignee.Some? && t.assignee.value !in users {
        return Err(ConstraintViolated);
      }
      tasks := tasks[taskId := t];
      return Ok(t);
    }

    method DeleteTask(actor: Id, taskId: Id) returns (r: Result<(), TaskError>)
      modifies this
      ensures Contents() == Deleted(old(Contents()), actor, taskId)
      ensures TouchRefusals(old(Contents()), actor, taskId, ErrorOf(r))
      ensures r == Err(InvalidInput) <==> actor == 0 || taskId == 0
      ensures r.Ok? <==> MaySee(old(Contents()), actor, taskId)
      ensures r.Ok? ==> tasks == old(tasks) - {taskId}
      ensures r.Err? ==> tasks == old(tasks)
    {
      if actor == NIL_ID || taskId == NIL_ID {
        return Err(InvalidInput);
      }
      if taskId !in tasks {
        return Err(NotFound);
      }
      if (tasks[taskId].workspace, actor) !in members {
        return Err(Forbidden);
      }
      tasks := tasks - {taskId};
      return Ok(());
    }
  }

  // ----- what follows for callers -----

  lemma UpdateIsIdempotent(env: Env, s: Store, actor: Id, taskId: Id, p: Patch)
    ensures var once := Updated(env, s, actor, taskId, p);
            Updated(env, once, actor, taskId, p) == once
  {
    if Accepts(env, s, actor, taskId, p) {
      var t := Overlay(env, s.tasks[taskId], p);
      assert Overlay(env, t, p) == t;
      assert s.tasks[taskId := t][taskId := t] == s.tasks[taskId := t];
    }
  }

  predicate DisjointFields(p: Patch, q: Patch) {
    && !(p.title.Some? && q.title.Some?)
    && !(p.description.Some? && q.description.Some?)
    && !(p.status.Some? && q.status.Some?)
    && !(p.priority.Some? && q.priority.Some?)
    && !(p.dueDate.Some? && q.dueDate.Some?)
    && !(p.assignee.Some? && q.assignee.Some?)
  }

  lemma AcceptanceIsOfThePatch(env: Env, s: Store, actor: Id, taskId: Id, p: Patch, t: Task)
    requires StoredTasksAreStorable(s) && taskId in s.tasks && t.workspace == s.tasks[taskId].workspace
        && Storable(s, t)
    ensures Accepts(env, s.(tasks := s.tasks[taskId := t]), actor, taskId, p) <==> Accepts(env, s, actor, taskId, p)
  {
    assert p.assignee.None? ==> Overlay(env, t, p).assignee == t.assignee;
  }

  /** Updates to different fields can be applied in either order, accepted or not, by any actors. */
  lemma DisjointUpdatesCommute(env: Env, s: Store, actor: Id, other: Id, taskId: Id, p: Patch, q: Patch)
    requires StoredTasksAreStorable(s) && DisjointFields(p, q)
    ensures Updated(env, Updated(env, s, actor, taskId, p), other, taskId, q)
         == Updated(env, Updated(env, s, other, taskId, q), actor, taskId, p)
  {
    if Accepts(env, s, actor, taskId, p) && Accepts(env, s, other, taskId, q) {
      var t := s.tasks[taskId];
      var tp, tq := Overlay(env, t, p), Overlay(env, t, q);
      AcceptanceIsOfThePatch(env, s, other, taskId, q, tp);
      AcceptanceIsOfThePatch(env, s, actor, taskId, p, tq);
      assert Overlay(env, tp, q) == Overlay(env, tq, p);
      assert s.tasks[taskId := tp][taskId := Overlay(env, tp, q)]
          == s.tasks[taskId := tq][taskId := Overlay(env, tq, p)];
    } else if Accepts(env, s, actor, taskId, p) {
      AcceptanceIsOfThePatch(env, s, other, taskId, q, Overlay(env, s.tasks[taskId], p));
    } else if Accepts(env, s, other, taskId, q) {
      AcceptanceIsOfThePatch(env, s, actor, taskId, p, Overlay(env, s.tasks[taskId], q));
    }
  }

  // ----- runs -----

  datatype Call =
    | CreateCall(actor: Id, id: Id, task: Task)
    | UpdateCall(actor: Id, taskId: Id, patch: Patch)
    | DeleteCall(actor: Id, taskId: Id)

  function Deleted(s: Store, actor: Id, taskId: Id): Store {
    if actor != NIL_ID && taskId != NIL_ID && taskId in s.tasks && (s.tasks[taskId].workspace, actor) in s.members
    then s.(tasks := s.tasks - {taskId}) else s
  }

  function Apply(env: Env, s: Store, c: Call): Store {
    match c
    case CreateCall(actor, id, task) => if id in s.tasks then s else Created(env, s, actor, id, task)
    case UpdateCall(actor, taskId, patch) => Updated(env, s, actor, taskId, patch)
    case DeleteCall(actor, taskId) => Deleted(s, actor, taskId)
  }

  function Run(env: Env, s: Store, calls: seq<Call>): Store
    decreases |calls|
  {
    if calls == [] then s else Run(env, Apply(env, s, calls[0]), calls[1..])
  }

  /** Every stored status and priority is one of the service's own, and every assignee exists. */
  ghost predicate Closed(s: Store) {
    forall id :: id in s.tasks ==>
      && IsStatus(s.tasks[id].status)
      && IsPriority(s.tasks[id].priority)
      && Storable(s, s.tasks[id])
  }

  lemma {:induction false} RunsStayClosed(env: Env, s: Store, calls: seq<Call>)
    requires Closed(s)
    ensures Closed(Run(env, s, calls))
    decreases |calls|
  {
    if calls != [] {
      RunsStayClosed(env, Apply(env, s, calls[0]), calls[1..]);
    }
  }

  /** In a run every call does to the tasks what its contract says, for some answer the contract allows. */
  ghost predicate KeepsContract(env: Env, s: Store, c: Call, s': Store) {
    match c
    case CreateCall(actor, id, task) => id in s.tasks || exists r :: CreateAnswers(env, s, actor, id, task, s', r)
    case UpdateCall(actor, taskId, patch) => exists r :: UpdateAnswers(env, s, actor, taskId, patch, s', r)
    case DeleteCall(actor, taskId) =>
      s' == if MaySee(s, actor, taskId) then s.(tasks := s.tasks - {taskId}) else s
  }

  lemma EveryCallKeepsItsContract(env: Env, s: Store, c: Call)
    requires StoredTasksAreStorable(s)
    ensures KeepsContract(env, s, c, Apply(env, s, c))
  {
    match c {
      case CreateCall(actor, id, task) => CreateExactly(env, s, actor, id, task);
      case UpdateCall(actor, taskId, patch) => UpdateExactly(env, s, actor, taskId, patch);
      case DeleteCall(actor, taskId) =>
    }
  }

  lemma CreateExactly(env: Env, s: Store, actor: Id, id: Id, task: Task)
    ensures exists r :: CreateAnswers(env, s, actor, id, task, Created(env, s, actor, id, task), r)
  {
    var named := actor != 0 && task.workspace != 0;
    var r: Result<Task, TaskError> :=
      if Creates(env, s, actor, task) then Ok(WithDefaults(env, actor, task))
      else if !named then Err(InvalidInput)
      else if (task.workspace, actor) !in s.members then Err(Forbidden)
      else if !IsPriority(WithDefaults(env, actor, task).priority) then Err(InvalidInput)
      else Err(ConstraintViolated);
    assert CreateAnswers(env, s, actor, id, task, Created(env, s, actor, id, task), r);
  }
}
