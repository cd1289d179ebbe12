/** The four summary cards of the dashboard: the total and the number of tasks in each status. */
module StatsCards {
  import opened Seqs
  import opened Tasks

  /** The card filter: the task is in status `s`. */
  function HasStatus(s: TaskStatus): Task -> bool
  {
    (t: Task) => t.status == s
  }

  /** `tasks.filter((t) => t.status === s).length`. */
  function StatusCount(tasks: seq<Task>, s: TaskStatus): nat
  {
    |Filter(tasks, HasStatus(s))|
  }

  datatype Stats = Stats(total: nat, completed: nat, inProgress: nat, pending: nat)

  /** The card values. Because a status has exactly three values, the three counts partition the total. */
  function ComputeStats(tasks: seq<Task>): (st: Stats)
    ensures st.total == |tasks|
    ensures st.completed + st.inProgress + st.pending == st.total
    ensures st.completed <= st.total && st.inProgress <= st.total && st.pending <= st.total
  {
    StatusCountsPartition(tasks);
    Stats(|tasks|, StatusCount(tasks, Completed), StatusCount(tasks, InProgress), StatusCount(tasks, Pending))
  }

  /** Every task is counted in exactly one status card. */
  lemma {:induction false} StatusCountsPartition(tasks: seq<Task>)
    ensures StatusCount(tasks, Completed) + StatusCount(tasks, InProgress) + StatusCount(tasks, Pending) == |tasks|
  {
    if tasks != [] {
      StatusCountsPartition(tasks[1..]);
    }
  }

  /** Prepending a task (what a successful create does) raises the total and its own status's count by one, and no other count. */
  lemma PrependStats(t: Task, tasks: seq<Task>)
    ensures ComputeStats([t] + tasks).total == ComputeStats(tasks).total + 1
    ensures forall s :: StatusCount([t] + tasks, s) == StatusCount(tasks, s) + (if t.status == s then 1 else 0)
  {
    forall s ensures StatusCount([t] + tasks, s) == StatusCount(tasks, s) + (if t.status == s then 1 else 0) {
      FilterAppend([t], tasks, HasStatus(s));
    }
  }

  /** A pending, a completed and an in-progress task give 3, 1, 1, 1. */
  lemma ThreeStatusesExample(a: Task, b: Task, c: Task)
    requires a.status == Pending && b.status == Completed && c.status == InProgress
    ensures ComputeStats([a, b, c]) == Stats(3, 1, 1, 1)
  {
    PrependStats(c, []);
    PrependStats(b, [c]);
    PrependStats(a, [b, c]);
    assert [c] == [c] + [] && [b, c] == [b] + [c] && [a, b, c] == [a] + [b, c];
  }
}
