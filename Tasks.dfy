/**
 * The task hook: the task record and its inputs, and `TaskStore`, the client-side mirror of the
 * signed-in user's task rows. Every remote call is an input of the operation that makes it (the
 * reply the hosted table gives), and every operation returns the request it sends, so that
 * "nothing was sent" and "what was sent" can both be stated.
 */
module Tasks {
  import opened Wrappers
  import opened Seqs

  datatype TaskStatus = Pending | InProgress | Completed
  datatype TaskPriority = Low | Medium | High

  /** A row of the `tasks` table as the client receives it. */
  datatype Task = Task(
    id: string,
    userId: string,
    title: string,
    description: Option<string>,
    status: TaskStatus,
    priority: TaskPriority,
    dueDate: Option<string>,
    createdAt: string,
    updatedAt: string)

  /** The fields a caller supplies to create a task; `None` is an omitted optional field. */
  datatype CreateTaskInput = CreateTaskInput(
    title: string,
    description: Option<string>,
    status: Option<TaskStatus>,
    priority: Option<TaskPriority>,
    dueDate: Option<string>)

  /** A partial update; `None` leaves a column alone, and `dueDate` may be set to `Some(None)` (null). */
  datatype UpdateTaskInput = UpdateTaskInput(
    title: Option<string>,
    description: Option<string>,
    status: Option<TaskStatus>,
    priority: Option<TaskPriority>,
    dueDate: Option<Option<string>>)

  /** The row sent with the insert request. */
  datatype NewTaskRow = NewTaskRow(
    userId: string,
    title: string,
    description: Option<string>,
    status: TaskStatus,
    priority: TaskPriority,
    dueDate: Option<string>)

  /** The requests the mirror sends to the hosted table. */
  datatype ListQuery = ListQuery(userId: string)  // all rows of the user, newest first
  datatype UpdateQuery = UpdateQuery(id: string, userId: string, patch: UpdateTaskInput)
  datatype DeleteQuery = DeleteQuery(id: string, userId: string)

  const NotAuthenticated: string := "Not authenticated"

  /** JavaScript's `x || null` for an optional string: absent and empty both become null. */
  function OrNull(s: Option<string>): (r: Option<string>)
    ensures r.Some? <==> s.Some? && s.value != ""
    ensures r.Some? ==> r == s
  {
    if s.Some? && s.value != "" then s else None
  }

  /** The insert row for `input`, owned by `userId`, with the defaults filled in. */
  function NewRow(userId: string, input: CreateTaskInput): (row: NewTaskRow)
    ensures row.userId == userId && row.title == input.title
    ensures row.status == (if input.status.Some? then input.status.value else Pending)
    ensures row.priority == (if input.priority.Some? then input.priority.value else Medium)
    ensures row.description == OrNull(input.description) && row.dueDate == OrNull(input.dueDate)
  {
    NewTaskRow(
      userId,
      input.title,
      OrNull(input.description),
      if input.status.Some? then input.status.value else Pending,
      if input.priority.Some? then input.priority.value else Medium,
      OrNull(input.dueDate))
  }

  /** A create with only a title gets status pending, priority medium and null description and due date. */
  lemma TitleOnlyDefaults(userId: string, title: string)
    ensures NewRow(userId, CreateTaskInput(title, None, None, None, None))
            == NewTaskRow(userId, title, None, Pending, Medium, None)
  {
  }

  /** The list after a successful update: every entry with the given id becomes the returned row. */
  function ReplaceById(tasks: seq<Task>, id: string, row: Task): (r: seq<Task>)
    ensures |r| == |tasks|
    ensures forall i :: 0 <= i < |tasks| ==> r[i] == if tasks[i].id == id then row else tasks[i]
  {
    if tasks == [] then []
    else [if tasks[0].id == id then row else tasks[0]] + ReplaceById(tasks[1..], id, row)
  }

  /** The delete's filter predicate: the task has an id other than `id`. */
  function OtherId(id: string): Task -> bool
  {
    (t: Task) => t.id != id
  }

  /** The list after a successful delete: the entries with other ids, in their original order. */
  function RemoveById(tasks: seq<Task>, id: string): seq<Task>
  {
    Filter(tasks, OtherId(id))
  }

  /**
   * After a delete no entry has the id, every entry with another id is kept as often as it
   * occurs, and the order is preserved.
   */
  lemma RemoveByIdSpec(tasks: seq<Task>, id: string)
    ensures forall t :: t in RemoveById(tasks, id) ==> t.id != id
    ensures forall t :: t in tasks && t.id != id ==> t in RemoveById(tasks, id)
    ensures forall t :: multiset(RemoveById(tasks, id))[t] == if t.id != id then multiset(tasks)[t] else 0
    ensures IsSubsequence(RemoveById(tasks, id), tasks)
    ensures (forall t :: t in tasks ==> t.id != id) ==> RemoveById(tasks, id) == tasks
  {
    FilterIsSubsequence(tasks, OtherId(id));
    FilterCounts(tasks, OtherId(id));
    if forall t :: t in tasks ==> t.id != id {
      FilterKeepsAll(tasks, OtherId(id));
    }
  }

  /** The task mirror of one mounted hook. */
  class TaskStore {
    /** The signed-in user's id, from the authentication context; `None` when signed out. */
    var user: Option<string>
    /** The cached rows, newest first. */
    var tasks: seq<Task>
    var loading: bool

    constructor (user: Option<string>)
      ensures this.user == user && tasks == [] && loading
    {
      this.user := user;
      tasks := [];
      loading := true;
    }

    /**
     * A fetch. With no user it returns at once and touches nothing (not even `loading`);
     * otherwise it lists the user's rows, replaces the mirror only on success, and clears
     * `loading` either way.
     */
    method FetchTasks(reply: Outcome<seq<Task>>) returns (sent: Option<ListQuery>)
      modifies this
      ensures user == old(user)
      ensures old(user).None? ==> sent.None? && tasks == old(tasks) && loading == old(loading)
      ensures old(user).Some? ==> sent == Some(ListQuery(old(user).value)) && !loading
      ensures old(user).Some? ==> tasks == if reply.Ok? then reply.value else old(tasks)
    {
      if user.None? {
        return None;
      }
      sent := Some(ListQuery(user.value));
      if reply.Ok? {
        tasks := reply.value;
      }
      loading := false;
    }

    /**
     * The effect that runs when the user changes: fetch for a present user, and for an absent
     * one empty the mirror and clear `loading`.
     */
    method UserChanged(newUser: Option<string>, reply: Outcome<seq<Task>>) returns (sent: Option<ListQuery>)
      modifies this
      ensures user == newUser && !loading
      ensures newUser.None? ==> sent.None? && tasks == []
      ensures newUser.Some? ==> sent == Some(ListQuery(newUser.value))
      ensures newUser.Some? ==> tasks == if reply.Ok? then reply.value else old(tasks)
    {
      user := newUser;
      if newUser.Some? {
        sent := FetchTasks(reply);
      } else {
        tasks := [];
        loading := false;
        sent := None;
      }
    }

    /**
     * Create. With no user: "Not authenticated", nothing sent, nothing changed. Otherwise it
     * inserts the defaulted row; the returned row goes in front of the mirror, and an error
     * leaves the mirror as it was and is handed back.
     */
    method CreateTask(input: CreateTaskInput, reply: Outcome<Task>) returns (sent: Option<NewTaskRow>, result: Outcome<Task>)
      modifies this`tasks
      ensures old(user).None? ==> sent.None? && result == Err(NotAuthenticated) && tasks == old(tasks)
      ensures old(user).Some? ==> sent == Some(NewRow(old(user).value, input)) && result == reply
      ensures old(user).Some? && reply.Err? ==> tasks == old(tasks)
      ensures old(user).Some? && reply.Ok? ==>
                |tasks| == |old(tasks)| + 1 && tasks[0] == reply.value && tasks[1..] == old(tasks)
    {
      if user.None? {
        return None, Err(NotAuthenticated);
      }
      sent := Some(NewRow(user.value, input));
      result := reply;
      if reply.Ok? {
        tasks := [reply.value] + tasks;
      }
    }

    /**
     * Update. With no user: "Not authenticated", nothing sent. Otherwise it sends the patch
     * scoped by the id and the user's id; on success every entry with that id becomes the
     * returned row and all others stay where they were.
     */
    method UpdateTask(id: string, patch: UpdateTaskInput, reply: Outcome<Task>) returns (sent: Option<UpdateQuery>, result: Outcome<Task>)
      modifies this`tasks
      ensures old(user).None? ==> sent.None? && result == Err(NotAuthenticated) && tasks == old(tasks)
      ensures old(user).Some? ==> sent == Some(UpdateQuery(id, old(user).value, patch)) && result == reply
      ensures old(user).Some? && reply.Err? ==> tasks == old(tasks)
      ensures old(user).Some? && reply.Ok? ==> tasks == ReplaceById(old(tasks), id, reply.value)
    {
      if user.None? {
        return None, Err(NotAuthenticated);
      }
      sent := Some(UpdateQuery(id, user.value, patch));
      result := reply;
      if reply.Ok? {
        tasks := ReplaceById(tasks, id, reply.value);
      }
    }

    /**
     * Delete. With no user: "Not authenticated", nothing sent. Otherwise it sends the delete
     * scoped by the id and the user's id; on success the entries with that id leave the mirror.
     */
    method DeleteTask(id: string, reply: Outcome<()>) returns (sent: Option<DeleteQuery>, result: Outcome<()>)
      modifies this`tasks
      ensures old(user).None? ==> sent.None? && result == Err(NotAuthenticated) && tasks == old(tasks)
      ensures old(user).Some? ==> sent == Some(DeleteQuery(id, old(user).value)) && result == reply
      ensures old(user).Some? && reply.Err? ==> tasks == old(tasks)
      ensures old(user).Some? && reply.Ok? ==> tasks == RemoveById(old(tasks), id)
    {
      if user.None? {
        return None, Err(NotAuthenticated);
      }
      sent := Some(DeleteQuery(id, user.value));
      result := reply;
      if reply.Ok? {
        tasks := RemoveById(tasks, id);
      }
    }
  }
}
