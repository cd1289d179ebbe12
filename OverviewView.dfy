/** The dashboard overview: the greeting, the waiting-tasks line and the six most recent tasks. */
module OverviewView {
  import opened Wrappers
  import opened Seqs
  import opened Text
  import opened Tasks
  import opened StatsCards

  const RecentLimit: nat := 6

  /** `tasks.slice(0, 6)`. */
  function RecentTasks(tasks: seq<Task>): seq<Task>
  {
    if |tasks| <= RecentLimit then tasks else tasks[..RecentLimit]
  }

  /** The recent tasks are the first min(6, |tasks|) tasks; all of them when there are at most six; none exactly when there are none. */
  lemma RecentTasksSpec(tasks: seq<Task>)
    ensures |RecentTasks(tasks)| == if |tasks| < RecentLimit then |tasks| else RecentLimit
    ensures RecentTasks(tasks) == tasks[..|RecentTasks(tasks)|]
    ensures |tasks| <= RecentLimit ==> RecentTasks(tasks) == tasks
    ensures RecentTasks(tasks) == [] <==> tasks == []
  {
  }

  /** The overview's "No tasks yet" panel shows exactly when there are no tasks. */
  function ShowsNoTasksYet(tasks: seq<Task>): (empty: bool)
    ensures empty <==> tasks == []
  {
    |RecentTasks(tasks)| == 0
  }

  /** The waiting filter: any status but completed. */
  function NotCompleted(): Task -> bool
  {
    (t: Task) => t.status != Completed
  }

  /** The number of tasks still waiting: those not completed. */
  function WaitingCount(tasks: seq<Task>): (n: nat)
    ensures n == |tasks| - StatusCount(tasks, Completed)
    ensures n == StatusCount(tasks, Pending) + StatusCount(tasks, InProgress)
  {
    FilterComplement(tasks, HasStatus(Completed), NotCompleted());
    StatusCountsPartition(tasks);
    |Filter(tasks, NotCompleted())|
  }

  const CaughtUp: string := "You're all caught up! Great job!"

  /** The line under the greeting. */
  function WaitingMessage(n: nat): string
  {
    if n > 0 then "You have " + DecimalString(n) + WaitingTail(n) else CaughtUp
  }

  /** The words after the count: "task" plus an "s" unless the count is one. */
  function WaitingTail(n: nat): string
  {
    " task" + (if n == 1 then "" else "s") + " waiting for you."
  }

  /** The message is the caught-up text exactly when nothing waits. */
  lemma CaughtUpIffNoneWaiting(n: nat)
    ensures WaitingMessage(n) == CaughtUp <==> n == 0
  {
    if n > 0 {
      assert WaitingMessage(n)[3] == ' ' && CaughtUp[3] == '\'';
    }
  }

  /** A non-zero message starts "You have " followed by the count, which reads back as `n`. */
  lemma WaitingMessageCount(n: nat)
    requires n > 0
    ensures WaitingMessage(n)[..9] == "You have "
    ensures 9 + |DecimalString(n)| <= |WaitingMessage(n)|
    ensures DecimalValue(WaitingMessage(n)[9..9 + |DecimalString(n)|]) == n
  {
    var d := DecimalString(n);
    var m := WaitingMessage(n);
    assert m[9..9 + |d|] == d;
    DecimalRoundTrip(n);
  }

  /** A non-zero message uses the singular "task" exactly when the count is one. */
  lemma SingularIffOne(n: nat)
    requires n > 0
    ensures EndsWith(WaitingMessage(n), " task waiting for you.") <==> n == 1
  {
    var head, tail := "You have " + DecimalString(n), WaitingTail(n);
    assert WaitingMessage(n) == head + tail;
    if n == 1 {
      SingularTail();
      EndsWithAppend(head, tail);
    } else {
      PluralTail(n);
      NotEndsWithSingular(head, tail);
    }
  }

  lemma SingularTail()
    ensures WaitingTail(1) == " task waiting for you."
  {
  }

  lemma PluralTail(n: nat)
    requires n != 1
    ensures WaitingTail(n) == " tasks waiting for you."
  {
  }

  lemma EndsWithAppend(head: string, tail: string)
    ensures EndsWith(head + tail, tail)
  {
    assert (head + tail)[|head|..] == tail;
  }

  lemma NotEndsWithSingular(head: string, tail: string)
    requires tail == " tasks waiting for you."
    ensures !EndsWith(head + tail, " task waiting for you.")
  {
    var m, singular := head + tail, " task waiting for you.";
    // the plural ends in "tasks waiting for you.", which has a 't' where the singular has its leading space
    assert m[|m| - |singular|] == tail[1];
    assert m[|m| - |singular|..][0] == m[|m| - |singular|];
  }

  predicate EndsWith(s: string, suffix: string)
  {
    |suffix| <= |s| && s[|s| - |suffix|..] == suffix
  }

  /** `profile?.full_name?.split(" ")[0] || "there"`. */
  function GreetingName(fullName: Option<string>): (name: string)
    ensures name != ""
  {
    if fullName.Some? && FirstToken(fullName.value, ' ') != "" then FirstToken(fullName.value, ' ') else "there"
  }

  /**
   * The greeting is "there" for a missing name or one that starts with a space; otherwise it is
   * the name's first word: a space-free prefix that is either the whole name or stops at a space.
   */
  lemma GreetingNameSpec(fullName: Option<string>)
    ensures fullName.None? ==> GreetingName(fullName) == "there"
    ensures fullName.Some? && (fullName.value == "" || fullName.value[0] == ' ') ==> GreetingName(fullName) == "there"
    ensures fullName.Some? && fullName.value != "" && fullName.value[0] != ' ' ==>
              var g := GreetingName(fullName);
              IsPrefix(g, fullName.value) && ' ' !in g && (g == fullName.value || fullName.value[|g|] == ' ')
  {
    if fullName.Some? && fullName.value != "" {
      var t := FirstToken(fullName.value, ' ');
      assert |t| == 0 || t[0] == fullName.value[0];
    }
  }
}
