/**
 * The task list page: the composite search / status / priority filter, the empty-state choice,
 * and the panel state that routes a dialog save to the hook's update or create.
 */
module TasksView {
  import opened Wrappers
  import opened Seqs
  import opened Text
  import opened Tasks

  /** What the filter bar holds: the search text and the two selects (`All` is the "all" item). */
  datatype TaskQuery = TaskQuery(search: string, status: Choice<TaskStatus>, priority: Choice<TaskPriority>)

  /** Case-insensitive (ASCII) substring test on the title or on a present description. */
  predicate MatchesSearch(t: Task, search: string)
  {
    Contains(Lower(t.title), Lower(search))
    || (t.description.Some? && Contains(Lower(t.description.value), Lower(search)))
  }

  predicate MatchesStatus(t: Task, status: Choice<TaskStatus>)
  {
    status.All? || t.status == status.value
  }

  predicate MatchesPriority(t: Task, priority: Choice<TaskPriority>)
  {
    priority.All? || t.priority == priority.value
  }

  /** The callback handed to `filter`: all three tests together. */
  function Matches(q: TaskQuery): Task -> bool
  {
    (t: Task) => MatchesSearch(t, q.search) && MatchesStatus(t, q.status) && MatchesPriority(t, q.priority)
  }

  /** `filteredTasks`. */
  function FilteredTasks(tasks: seq<Task>, q: TaskQuery): seq<Task>
  {
    Filter(tasks, Matches(q))
  }

  /**
   * The filtered list is an order-preserving subsequence of the tasks; a task is shown exactly
   * when it passes the search, the status and the priority test, and then as often as it occurs.
   */
  lemma FilteredTasksSpec(tasks: seq<Task>, q: TaskQuery)
    ensures IsSubsequence(FilteredTasks(tasks, q), tasks)
    ensures forall t :: t in FilteredTasks(tasks, q) <==>
              t in tasks && MatchesSearch(t, q.search) && MatchesStatus(t, q.status) && MatchesPriority(t, q.priority)
    ensures forall t :: multiset(FilteredTasks(tasks, q))[t] ==
              if MatchesSearch(t, q.search) && MatchesStatus(t, q.status) && MatchesPriority(t, q.priority)
              then multiset(tasks)[t] else 0
  {
    FilterIsSubsequence(tasks, Matches(q));
    FilterCounts(tasks, Matches(q));
  }

  /** "All" constrains nothing, for either select. */
  lemma AllMatchesEverything(t: Task)
    ensures MatchesStatus(t, All) && MatchesPriority(t, All)
  {
  }

  /** An empty search matches every task, null description or not. */
  lemma EmptySearchMatches(t: Task)
    ensures MatchesSearch(t, "")
  {
    ContainsEmpty(Lower(t.title));
  }

  /** Searching matches the lower-cased text: an upper-case title is found by a lower-case search. */
  lemma SearchIgnoresCase(t: Task, search: string)
    ensures MatchesSearch(t, search) == MatchesSearch(t, Lower(search))
  {
    LowerIdempotent(search);
  }

  /** An empty search with both selects on "all" shows every task, in order. */
  lemma NoFilterShowsAll(tasks: seq<Task>)
    ensures FilteredTasks(tasks, TaskQuery("", All, All)) == tasks
  {
    forall t | t in tasks ensures Matches(TaskQuery("", All, All))(t) {
      EmptySearchMatches(t);
    }
    FilterKeepsAll(tasks, Matches(TaskQuery("", All, All)));
  }

  /** The three tests as three separate filters. */
  function BySearch(search: string): Task -> bool { (t: Task) => MatchesSearch(t, search) }
  function ByStatus(status: Choice<TaskStatus>): Task -> bool { (t: Task) => MatchesStatus(t, status) }
  function ByPriority(priority: Choice<TaskPriority>): Task -> bool { (t: Task) => MatchesPriority(t, priority) }

  /** Filtering by search, then status, then priority is the composite filter, and the order of the three does not matter. */
  lemma FilterOrderIrrelevant(tasks: seq<Task>, q: TaskQuery)
    ensures Filter(Filter(Filter(tasks, BySearch(q.search)), ByStatus(q.status)), ByPriority(q.priority))
            == FilteredTasks(tasks, q)
    ensures Filter(Filter(Filter(tasks, ByPriority(q.priority)), ByStatus(q.status)), BySearch(q.search))
            == FilteredTasks(tasks, q)
  {
    var ss := (t: Task) => MatchesSearch(t, q.search) && MatchesStatus(t, q.status);
    FilterFilter(tasks, BySearch(q.search), ByStatus(q.status), ss);
    FilterFilter(tasks, ss, ByPriority(q.priority), Matches(q));
    var pp := (t: Task) => MatchesPriority(t, q.priority) && MatchesStatus(t, q.status);
    var all := (t: Task) => MatchesPriority(t, q.priority) && MatchesStatus(t, q.status) && MatchesSearch(t, q.search);
    FilterFilter(tasks, ByPriority(q.priority), ByStatus(q.status), pp);
    FilterFilter(tasks, pp, BySearch(q.search), all);
    FilterExtensional(tasks, all, Matches(q));
  }

  const GetStartedHint: string := "Get started by creating your first task!"
  const AdjustFiltersHint: string := "Try adjusting your search or filters"

  /** The task grid: the cards of the filtered tasks, or the "No tasks found" panel. */
  datatype TaskListing = NoTasksFound(hint: string, offerCreate: bool) | Cards(shown: seq<Task>)

  function Listing(tasks: seq<Task>, q: TaskQuery): TaskListing
  {
    var shown := FilteredTasks(tasks, q);
    if |shown| == 0 then
      NoTasksFound(if |tasks| == 0 then GetStartedHint else AdjustFiltersHint, |tasks| == 0)
    else Cards(shown)
  }

  /**
   * The empty panel appears exactly when nothing passes the filter; it invites creating a first
   * task exactly when there are no tasks at all, and suggests adjusting the filters otherwise.
   */
  lemma ListingSpec(tasks: seq<Task>, q: TaskQuery)
    ensures Listing(tasks, q).NoTasksFound? <==> FilteredTasks(tasks, q) == []
    ensures Listing(tasks, q).Cards? ==> Listing(tasks, q).shown == FilteredTasks(tasks, q)
    ensures tasks == [] ==> Listing(tasks, q) == NoTasksFound(GetStartedHint, true)
    ensures Listing(tasks, q).NoTasksFound? && tasks != [] ==> Listing(tasks, q) == NoTasksFound(AdjustFiltersHint, false)
  {
  }

  /** The patch a status change sends: the status and nothing else. */
  function StatusPatch(status: TaskStatus): UpdateTaskInput
  {
    UpdateTaskInput(None, None, Some(status), None, None)
  }

  /** The dialog's fields sent as an update patch. */
  function AsPatch(data: CreateTaskInput): UpdateTaskInput
  {
    UpdateTaskInput(Some(data.title), data.description, data.status, data.priority,
                    if data.dueDate.Some? then Some(data.dueDate) else None)
  }

  /** The request a dialog save makes, if any. */
  datatype SaveRequest = SentUpdate(update: UpdateQuery) | SentCreate(insert: NewTaskRow) | NothingSent

  /** The page's own state next to the hook it uses. */
  class TasksPanel {
    const store: TaskStore
    var dialogOpen: bool
    var editingTask: Option<Task>

    constructor (store: TaskStore)
      ensures this.store == store && !dialogOpen && editingTask.None?
    {
      this.store := store;
      dialogOpen := false;
      editingTask := None;
    }

    /** Opens the dialog on an existing task. */
    method HandleEdit(t: Task)
      modifies this
      ensures editingTask == Some(t) && dialogOpen
    {
      editingTask := Some(t);
      dialogOpen := true;
    }

    /** Opens the dialog for a new task. */
    method HandleOpenDialog()
      modifies this
      ensures editingTask.None? && dialogOpen
    {
      editingTask := None;
      dialogOpen := true;
    }

    /**
     * The dialog's save: an update of the edited task's id when a task is being edited, a create
     * otherwise. `reply` is the hosted table's answer to whichever request is sent.
     */
    method HandleSave(data: CreateTaskInput, reply: Outcome<Task>) returns (sent: SaveRequest)
      modifies store`tasks
      ensures old(store.user).None? ==> sent == NothingSent
      ensures old(store.user).Some? && old(editingTask).Some? ==>
                sent == SentUpdate(UpdateQuery(old(editingTask).value.id, old(store.user).value, AsPatch(data)))
      ensures old(store.user).Some? && old(editingTask).None? ==>
                sent == SentCreate(NewRow(old(store.user).value, data))
      ensures old(editingTask).Some? && old(store.user).Some? && reply.Ok? ==>
                store.tasks == ReplaceById(old(store.tasks), old(editingTask).value.id, reply.value)
      ensures old(editingTask).None? && old(store.user).Some? && reply.Ok? ==>
                store.tasks == [reply.value] + old(store.tasks)
      ensures old(store.user).None? || reply.Err? ==> store.tasks == old(store.tasks)
    {
      if editingTask.Some? {
        var update, _ := store.UpdateTask(editingTask.value.id, AsPatch(data), reply);
        sent := if update.Some? then SentUpdate(update.value) else NothingSent;
      } else {
        var insert, _ := store.CreateTask(data, reply);
        sent := if insert.Some? then SentCreate(insert.value) else NothingSent;
        if store.user.Some? && reply.Ok? {
          assert store.tasks == [reply.value] + old(store.tasks);
        }
      }
    }

    /** A status change from a card: an update whose patch carries only the new status. */
    method HandleStatusChange(id: string, status: TaskStatus, reply: Outcome<Task>) returns (sent: Option<UpdateQuery>)
      modifies store`tasks
      ensures old(store.user).Some? ==> sent == Some(UpdateQuery(id, old(store.user).value, StatusPatch(status)))
      ensures old(store.user).None? ==> sent.None?
      ensures old(store.user).Some? && reply.Ok? ==> store.tasks == ReplaceById(old(store.tasks), id, reply.value)
      ensures old(store.user).None? || reply.Err? ==> store.tasks == old(store.tasks)
    {
      var result;
      sent, result := store.UpdateTask(id, StatusPatch(status), reply);
    }
  }
}
