# Task dashboard client — a Dafny model

This project models the client-side logic of a small task-management web application whose
storage and authentication live in a hosted backend. What the client itself decides is modelled
and proved:

- **The task mirror** (`Tasks`, from `src/hooks/useTasks.ts`). `TaskStore` is a class holding the
  signed-in user, the cached `tasks` sequence (newest first) and the `loading` flag. It has
  `FetchTasks`, `UserChanged` (the effect that runs when the user changes), `CreateTask`,
  `UpdateTask` and `DeleteTask`. Each remote call is an input of the operation: `reply`, the
  hosted table's answer, is `Ok(..)` or `Err(message)`. Each operation returns the request it
  sends, or `None` when nothing is sent. So the no-user guard ("Not authenticated", no request,
  mirror unchanged) and the scoping of updates and deletes by both task id and user id are part
  of the contracts.
- **The derived views**:
  - the composite search / status / priority filter and the empty-state choice (`TasksView`);
  - the four stats cards (`StatsCards`);
  - the six recent tasks, the waiting count and its message, and the greeting name (`OverviewView`).
- **The forms**:
  - the login and signup schemas and the error-message rewriting (`Auth`);
  - the profile name check on the trimmed name and the avatar initials (`ProfileView`);
  - the loop that turns a list of validation issues into a field-error map (`FormErrors`),
    which both pages use.
- **Shared helpers**: `Seqs` (an order-preserving `Filter` with the subsequence, composition
  and counting lemmas) and `Text` (ASCII case folding, `includes`, `split`/`join`, `trim`, and
  the decimal rendering of a count).

Three behaviours of the code are worth stating, because a reader might expect otherwise:

- A failed list request does not empty the mirror. It keeps what the mirror held (`FetchTasks`).
- A successful update replaces every cached entry whose id matches, not only one. It replaces
  them with the row the server returned, not with the patched fields (`ReplaceById`).
- A successful delete removes every cached entry with that id (`RemoveById`).

## Model

| member | source | states |
|---|---|---|
| `Tasks.NewRow` | src/hooks/useTasks.ts:82-89 | the insert row is owned by the current user and keeps the title; an absent or empty description or due date becomes null; a missing status becomes pending and a missing priority medium |
| `Tasks.OrNull` | src/hooks/useTasks.ts:85-88 | `x \|\| null` on an optional string: present exactly when the input is present and non-empty, and then equal to it |
| `Tasks.TitleOnlyDefaults` | src/hooks/useTasks.ts:82-89 | a create with only a title gets status pending, priority medium, and null description and due date |
| `Tasks.ReplaceById` | src/hooks/useTasks.ts:126-128 | after an update the list has the same length; every entry with the id is the returned row; every other entry is unchanged and in place |
| `Tasks.RemoveByIdSpec` | src/hooks/useTasks.ts:157 | of `RemoveById`: after a delete no entry has the id; every entry with another id is kept, as often as it occurs in the old list; the result is an order-preserving subsequence; with no entry carrying the id, nothing changes |
| `Tasks.TaskStore.constructor` | src/hooks/useTasks.ts:40-41 | a new mirror is empty and loading |
| `Tasks.TaskStore.FetchTasks` | src/hooks/useTasks.ts:52-74 | with no user nothing is sent and nothing changes, not even `loading`; otherwise the list query is scoped by the user id, only a successful reply replaces `tasks`, and `loading` ends false whether the reply succeeds or fails |
| `Tasks.TaskStore.UserChanged` | src/hooks/useTasks.ts:43-50 | when the user becomes absent, `tasks` becomes empty and `loading` false with no request; for a present user it is a fetch |
| `Tasks.TaskStore.CreateTask` | src/hooks/useTasks.ts:76-110 | no user: "Not authenticated", nothing sent, `tasks` unchanged; otherwise the defaulted row is sent and the reply is returned; on success `tasks` grows by one, the returned row is first and the old list is the rest; on error `tasks` is unchanged |
| `Tasks.TaskStore.UpdateTask` | src/hooks/useTasks.ts:112-143 | no user: "Not authenticated", nothing sent, `tasks` unchanged; otherwise the patch is sent scoped by id and user id; success replaces by id; error leaves `tasks` unchanged and is returned |
| `Tasks.TaskStore.DeleteTask` | src/hooks/useTasks.ts:145-172 | no user: "Not authenticated", nothing sent, `tasks` unchanged; otherwise the delete is scoped by id and user id; success removes by id; error leaves `tasks` unchanged and is returned |
| `Seqs.Filter` | src/components/dashboard/TasksView.tsx:25 | the kept elements are exactly the input's elements that pass, and there are no more of them than input elements; `FilterCounts` gives how often each is kept |
| `Seqs.FilterCounts` | src/components/dashboard/TasksView.tsx:25 | every passing element is kept exactly as often as it occurs in the input, and no failing element is kept |
| `Seqs.FilterIsSubsequence` | src/components/dashboard/TasksView.tsx:25 | a filter result is an order-preserving subsequence of its input, shown by an explicit strictly increasing index embedding |
| `Seqs.FilterCommutes` | src/components/dashboard/TasksView.tsx:26-31 | applying two filters in either order gives the same list |
| `Seqs.FilterComplement` | src/components/dashboard/OverviewView.tsx:21 | a predicate and its negation split a list: the two counts add up to its length |
| `Text.ContainsIffOccurs` | src/components/dashboard/TasksView.tsx:27-28 | `includes` holds exactly when the searched text occurs at some position |
| `Text.Lower` | src/components/dashboard/TasksView.tsx:27-28 | lower-casing keeps the length and maps each ASCII upper-case letter to its lower-case letter, leaving other characters alone |
| `Text.Upper` | src/components/dashboard/ProfileView.tsx:29 | upper-casing keeps the length and maps each ASCII lower-case letter to its upper-case letter, leaving other characters alone |
| `Text.JoinSplit` | src/components/dashboard/ProfileView.tsx:26 | joining the pieces of a split with the separator gives back the string |
| `Text.Split` | src/components/dashboard/ProfileView.tsx:26 | a split has at least one piece and no piece contains the separator |
| `Text.FirstToken` | src/components/dashboard/OverviewView.tsx:44 | the first piece is a separator-free prefix that is the whole string or stops at a separator |
| `Text.TrimSpec` | src/components/dashboard/ProfileView.tsx:37 | of `Trim`: the trimmed name is a middle slice of the input with only white space cut away on both sides, and it starts and ends on non-white-space characters |
| `Text.TrimIdempotent` | src/components/dashboard/ProfileView.tsx:37 | trimming twice is trimming once |
| `Text.DecimalRoundTrip` | src/components/dashboard/OverviewView.tsx:48 | the printed count reads back as the count |
| `Text.DecimalString` | src/components/dashboard/OverviewView.tsx:48 | the printed count is a non-empty string of digits without a leading zero |
| `TasksView.FilteredTasksSpec` | src/components/dashboard/TasksView.tsx:24-33 | of `FilteredTasks`: the filtered tasks are an order-preserving subsequence of the tasks; a task is kept exactly when it passes the search, status and priority tests together, and then as often as it occurs in the tasks |
| `TasksView.AllMatchesEverything` | src/components/dashboard/TasksView.tsx:29-30 | the "all" choice of either select accepts every task |
| `TasksView.EmptySearchMatches` | src/components/dashboard/TasksView.tsx:26-28 | an empty search matches every task, whether or not it has a description |
| `TasksView.SearchIgnoresCase` | src/components/dashboard/TasksView.tsx:27-28 | the search text's letter case never changes the outcome |
| `TasksView.NoFilterShowsAll` | src/components/dashboard/TasksView.tsx:24-33 | an empty search with both selects on "all" returns the tasks unchanged |
| `TasksView.FilterOrderIrrelevant` | src/components/dashboard/TasksView.tsx:25-31 | search then status then priority, or priority then status then search, as separate filters, give the composite filter's result |
| `TasksView.ListingSpec` | src/components/dashboard/TasksView.tsx:118-135 | of `Listing`: the "No tasks found" panel appears exactly when nothing passes the filter; its hint is "Get started…" with a create button exactly when there are no tasks, and "Try adjusting…" otherwise |
| `TasksView.TasksPanel.constructor` | src/components/dashboard/TasksView.tsx:18-19 | the dialog starts closed with no task being edited |
| `TasksView.TasksPanel.HandleEdit` | src/components/dashboard/TasksView.tsx:35-38 | editing a task opens the dialog on that task |
| `TasksView.TasksPanel.HandleOpenDialog` | src/components/dashboard/TasksView.tsx:52-55 | "Add Task" opens the dialog with no task being edited |
| `TasksView.TasksPanel.HandleSave` | src/components/dashboard/TasksView.tsx:40-46 | with a task being edited, the save sends an update for that task's id, otherwise a create; the mirror then changes as that operation promises |
| `TasksView.TasksPanel.HandleStatusChange` | src/components/dashboard/TasksView.tsx:48-50 | a status change sends an update whose patch holds only the status, scoped by id and user |
| `StatsCards.ComputeStats` | src/components/dashboard/StatsCards.tsx:9-13 | the total is the number of tasks, the completed, in-progress and pending counts add up to the total, and each count is at most the total |
| `StatsCards.StatusCountsPartition` | src/components/dashboard/StatsCards.tsx:11-13 | every task is counted in exactly one of the three status cards |
| `StatsCards.PrependStats` | src/components/dashboard/StatsCards.tsx:10-13 | prepending a task raises the total and its own status's count by one and leaves the other counts unchanged |
| `StatsCards.ThreeStatusesExample` | src/components/dashboard/StatsCards.tsx:10-13 | a pending, a completed and an in-progress task give total 3 and 1 in each status |
| `OverviewView.RecentTasksSpec` | src/components/dashboard/OverviewView.tsx:20 | of `RecentTasks`: the recent tasks are the first min(6, n) tasks: all of them when there are at most six, and none exactly when there are none |
| `OverviewView.ShowsNoTasksYet` | src/components/dashboard/OverviewView.tsx:72-74 | the "No tasks yet" panel shows exactly when there are no tasks |
| `OverviewView.WaitingCount` | src/components/dashboard/OverviewView.tsx:21 | the waiting count is the total minus the completed count, that is, pending plus in progress |
| `OverviewView.CaughtUpIffNoneWaiting` | src/components/dashboard/OverviewView.tsx:47-49 | of `WaitingMessage`: the message is "You're all caught up!…" exactly when the count is zero |
| `OverviewView.WaitingMessageCount` | src/components/dashboard/OverviewView.tsx:48 | of `WaitingMessage`: a non-zero message starts "You have " followed by the count's digits, which read back as the count |
| `OverviewView.SingularIffOne` | src/components/dashboard/OverviewView.tsx:48 | of `WaitingMessage`: a non-zero message ends in " task waiting for you." (singular) exactly when the count is one |
| `OverviewView.GreetingName` | src/components/dashboard/OverviewView.tsx:44 | the greeting name is never empty |
| `OverviewView.GreetingNameSpec` | src/components/dashboard/OverviewView.tsx:44 | of `GreetingName`: the greeting is "there" for a missing name, an empty name or a name starting with a space; otherwise it is the name's first word, a space-free prefix ending at the first space |
| `FormErrors.MinLength` | src/pages/Auth.tsx:14 | a minimum-length check gives no issue exactly when the string is long enough, else one issue on its field |
| `FormErrors.MaxLength` | src/pages/Auth.tsx:18 | a maximum-length check gives no issue exactly when the string is short enough, else one issue on its field |
| `FormErrors.CollectFieldErrors` | src/pages/Auth.tsx:53-58 | the submit loop builds the field-error map of the issue list, visiting the issues in order |
| `FormErrors.FieldErrorsKeys` | src/pages/Auth.tsx:53-58 | of `FieldErrors`: a field is in the map exactly when some issue's truthy first path element names it; issues without one are skipped |
| `FormErrors.FieldErrorsLastWins` | src/pages/Auth.tsx:87-92 | of `FieldErrors`: a field's message is that of the last issue naming it; later messages overwrite earlier ones |
| `FormErrors.FieldErrorsSingle` | src/components/dashboard/ProfileView.tsx:39-44 | of `FieldErrors`: one issue gives a one-entry map under its field, or an empty map when it names no field |
| `ProfileView.Initials` | src/components/dashboard/ProfileView.tsx:27-28 | the joined first characters have at most one character per part; `InitialsSpec` gives their exact value |
| `ProfileView.InitialsSpec` | src/components/dashboard/ProfileView.tsx:27-28 | of `Initials`: the result is the first characters of the non-empty parts, in order; an empty part contributes nothing |
| `ProfileView.InitialsOfSplit` | src/components/dashboard/ProfileView.tsx:25-28 | splitting at spaces and joining the first characters gives exactly the characters at word starts (a non-space at the start or after a space), in order |
| `ProfileView.GetInitials` | src/components/dashboard/ProfileView.tsx:23-31 | an absent or empty name gives "U"; any other name gives the first two word starts, upper-cased (fewer when it has fewer words), so never more than two characters |
| `ProfileView.SpacesOnlyHaveNoInitials` | src/components/dashboard/ProfileView.tsx:25-30 | a non-empty name made only of spaces gives "" (empty parts contribute nothing) |
| `ProfileView.TwoWordInitials` | src/components/dashboard/ProfileView.tsx:25-30 | "First Last" gives the two first letters, upper-cased |
| `ProfileView.ThreeWordInitials` | src/components/dashboard/ProfileView.tsx:25-30 | "First Middle Last" gives only the first two initials, upper-cased: the slice cuts the third |
| `ProfileView.LeadingSpaceIgnored` | src/components/dashboard/ProfileView.tsx:25-30 | a leading space adds only an empty part, so the initials do not change |
| `ProfileView.InitialsStartWithFirstLetter` | src/components/dashboard/ProfileView.tsx:25-30 | a name not starting with a space gives initials that start with its first letter, upper-cased |
| `ProfileView.ProfileIssuesSpec` | src/components/dashboard/ProfileView.tsx:12-14 | of `ProfileIssues`: a name passes exactly when it has 2 to 100 characters; a rejection is one message keyed by `full_name` alone |
| `ProfileView.ProfileForm.constructor` | src/components/dashboard/ProfileView.tsx:19-21 | the form starts with the profile's name or "", no errors and not saving |
| `ProfileView.ProfileForm.HandleSubmit` | src/components/dashboard/ProfileView.tsx:33-52 | the update is sent exactly when the trimmed name has 2 to 100 characters, and it carries exactly the trimmed name; then errors are empty and `saving` is false; otherwise nothing is sent and the errors are keyed by `full_name` only |
| `Auth.LoginIssuesSpec` | src/pages/Auth.tsx:12-15 | of `LoginIssues`: login passes exactly when the e-mail is valid and the password has at least 6 characters; a short password shows under `password` and an invalid e-mail under `email` |
| `Auth.SignupAccepts` | src/pages/Auth.tsx:17-25 | of `SignupIssues`: signup passes exactly when the name has 2 to 100 characters, the e-mail is valid, the password has at least 6 characters and the confirmation equals it |
| `Auth.MismatchOnConfirmPassword` | src/pages/Auth.tsx:22-25 | of `SignupIssues`: differing passwords always put "Passwords don't match" under `confirmPassword`, whatever else is wrong |
| `Auth.SignupShortPassword` | src/pages/Auth.tsx:20 | of `SignupIssues`: a short signup password shows its message under `password` |
| `Auth.LoginErrorTextSpec` | src/pages/Auth.tsx:67-72 | of `LoginErrorText`: only "Invalid login credentials" is rewritten, to the friendly text; every other sign-in error is shown as sent |
| `Auth.SignupErrorTextSpec` | src/pages/Auth.tsx:101-107 | of `SignupErrorText`: a sign-up error mentioning "already registered" anywhere becomes the fixed text; any other is shown as sent |
| `Auth.AuthPage.constructor` | src/pages/Auth.tsx:29-30 | the page starts with no errors and not loading |
| `Auth.AuthPage.HandleLogin` | src/pages/Auth.tsx:47-73 | sign-in is called, with the typed e-mail and password, exactly when the login schema passes; a rejected form only shows the field errors; errors from an earlier submit never survive; a service error shows under `form`, rewritten |
| `Auth.AuthPage.HandleSignup` | src/pages/Auth.tsx:75-108 | sign-up is called with the e-mail, password and name exactly when the signup schema passes; a rejected form only shows the field errors; errors from an earlier submit never survive; a service error shows under `form`, rewritten |

## Left out

- The hosted table and authentication service are not modelled. This includes row-level
  security, the ordering of the list by creation time, and what the server stores. Each reply is
  an input (`reply`), and the model states only what the client sends and does with the reply.
- Notifications (`toast`) and `console.error` are left out. They do not affect any state the
  model holds.
- Asynchrony is left out. Each operation runs to completion before the next starts, so two
  requests in flight whose replies interleave are not modelled. Spinners and the render branches
  on `loading`/`saving` are left out too; only the flag values are kept.
- The library e-mail check is the parameter `isEmail`. Its pattern is not modelled.
- Text.Lower: case folding covers ASCII letters only, not JavaScript's Unicode case mapping.
- Text.Upper: the same ASCII-only restriction as Text.Lower.
- Lengths count Unicode code points, while the validation library counts UTF-16 code units.
  They differ only for characters outside the Basic Multilingual Plane. The same applies to
  `n[0]` in `getInitials`.
- Dates are opaque strings. `format`, `toLocaleDateString` and date arithmetic are left out.
- `useProfile`, `AuthContext` and `TaskDialog` are not part of this model:
  - the current user is a field of `TaskStore`;
  - `updateProfile` is the value `ProfileForm.HandleSubmit` returns;
  - the dialog's output is a `CreateTaskInput`, sent as a patch (`AsPatch`) when a task is being edited.
- Sign-out and the redirect of an already signed-in user away from the auth page are left out.
- The overview's `handleSave` and `handleStatusChange` only delegate to the hook. They are not
  modelled separately from `TasksPanel.HandleSave` and `TasksPanel.HandleStatusChange`.
- The signup schema's checks are listed in field order, with the password refinement last. The
  order in which the library reports them is not modelled. Every field appears at most once in
  that list, so the resulting error map does not depend on the order.
- `src/pages/Index.tsx`, `src/pages/Dashboard.tsx`, `src/components/dashboard/DashboardSidebar.tsx`
  and `src/components/dashboard/TaskCard.tsx` are presentation only and are not modelled.
