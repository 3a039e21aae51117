# Procrastinator's Paradise: a verified model of the to-do core

Procrastinator's Paradise is a client-side to-do application. Under its
React pages sit a few deterministic rules over lists of records, and this
project models them in Dafny and proves their properties:

- the **task/category store** (`TaskContext`): add, update, delete and
  toggle tasks; add, update, guarded delete and look up categories; the
  load/reset effect that seeds four default categories; the save effects;
- the **dashboard view pipeline** (`Dashboard`): case-folded substring
  search, the `all`/`today`/`upcoming`/`completed` tab filter, and the
  two-key stable sort; plus the overdue reminder and its once-per-hour
  throttle;
- the **identity store** (`AuthContext`): register, login, logout and the
  startup session restore over a list of user records, with the
  persisted session marker (`procrastinator_user`) that login and
  registration write, logout removes and startup reads back;
- the **form rules**: the registration checks and error mapping of the
  sign-in page, and the submit decision of the task editor;
- the **icon lookup** of the category badge.

Every operation is a pure function over immutable datatypes. Time is an
integer `now` (milliseconds). The calendar day that `toDateString` compares
is a function parameter `day: int -> int`. Ids that the source takes from
`Date.now()` are parameters. Local storage is a pair of maps keyed by
username. Things the source throws are an `error` field, and things it only
toasts are an outcome value.

Files, one module each:

| file | module | models |
|---|---|---|
| `wrappers.dfy` | `Wrappers` | `Option` for `undefined`/`null` and partial records |
| `seqs.dfy` | `Seqs` | `Array.prototype.filter` and `find` |
| `text.dfy` | `Text` | `trim`, `toLowerCase`, `includes` |
| `task_store.dfy` | `TaskStore` | `src/context/TaskContext.tsx` |
| `task_store_lemmas.dfy` | `TaskStoreLemmas` | properties across store operations |
| `dashboard.dfy` | `Dashboard` | `src/pages/Dashboard.tsx` lines 47-133 |
| `auth.dfy` | `Auth` | `src/context/AuthContext.tsx` |
| `index_page.dfy` | `IndexPage` | `src/pages/Index.tsx` lines 49-117 |
| `task_form.dfy` | `TaskForm` | `src/components/AddTaskModal.tsx` lines 31-90 |
| `category_badge.dfy` | `CategoryBadge` | `src/components/CategoryBadge.tsx` lines 26-55 |

The source's `Array.prototype.sort` is stable and its comparator is a
total preorder (`Dashboard.CompareIsPreorder`). So the sorted output is
fully determined, and the model computes it with a stable insertion sort.

## Model

| member | source | states |
|---|---|---|
| Seqs.FilterMembers | src/context/TaskContext.tsx:135 | `filter` keeps an element exactly when it is in the input and satisfies the predicate |
| Seqs.FilterCounts | src/context/TaskContext.tsx:135 | `filter` keeps each satisfying element with its full multiplicity and drops the rest entirely |
| Seqs.FilterAppend | src/context/TaskContext.tsx:134-135 | filtering distributes over concatenation, so the kept elements stay in their relative order |
| Seqs.Find | src/context/TaskContext.tsx:217 | `find` returns none exactly when nothing matches, and otherwise the first matching element |
| Text.TrimIdempotent | src/pages/Dashboard.tsx:55-56 | trimming twice is trimming once |
| Text.Trim | src/pages/Dashboard.tsx:55-56 | `trim` returns a contiguous slice framed by whitespace on both sides, empty exactly for an all-whitespace string |
| Text.Lower | src/pages/Dashboard.tsx:56 | `toLowerCase` keeps length, maps each character, and leaves no upper-case ASCII letter |
| Text.LowerIdempotent | src/pages/Dashboard.tsx:56 | lowercasing twice is lowercasing once |
| Text.LowerKeepsBlank | src/pages/Dashboard.tsx:55-56 | the blank test before lowercasing agrees with the blank test after it |
| Text.Contains | src/pages/Dashboard.tsx:59-60 | `includes` holds exactly when the needle occurs at some offset |
| TaskStore.AddTask | src/context/TaskContext.tsx:101-109 | exactly one task is appended; earlier tasks are unchanged and in order; it carries the draft's fields, the given id and `now` for both stamps |
| TaskStore.UpdateTask | src/context/TaskContext.tsx:116-127 | length preserved; tasks with other ids untouched; matching tasks take each present patch field, then `updatedAt` is `now` even if patched; unknown id is a no-op |
| TaskStore.DeleteTask | src/context/TaskContext.tsx:134-135 | every task with the id is gone; every other task keeps its multiplicity; unknown id is a no-op; categories untouched |
| TaskStore.ToggleTask | src/context/TaskContext.tsx:142-153 | matching tasks flip `completed` and get `updatedAt = now` with all other fields kept; other tasks untouched |
| TaskStore.AddCategory | src/context/TaskContext.tsx:167-173 | exactly one category is appended with the given id; tasks untouched |
| TaskStore.UpdateCategory | src/context/TaskContext.tsx:180-190 | length preserved; matching categories take the patch fields with no timestamp; others untouched; unknown id is a no-op; tasks untouched |
| TaskStore.DeleteCategory | src/context/TaskContext.tsx:197-209 | refused with nothing changed exactly when some task uses the id; otherwise removes exactly the matching categories; tasks never change |
| TaskStore.GetCategory | src/context/TaskContext.tsx:216-218 | returns none exactly when no category has the id, else the first category with it |
| TaskStore.Load | src/context/TaskContext.tsx:62-85 | with a user: stored tasks replace memory (none stored: memory kept); stored categories replace memory, or the defaults are installed and written back; without a user: no tasks and the defaults |
| TaskStore.Persist | src/context/TaskContext.tsx:88-99 | with a user, both whole collections are written under that user; without one nothing is written |
| TaskStoreLemmas.ToggleTwice | src/context/TaskContext.tsx:142-153 | toggling twice restores every task except `updatedAt`, which carries the second stamp on matching tasks |
| TaskStoreLemmas.DeleteUndoesAdd | src/context/TaskContext.tsx:101-135 | deleting a task just added under a fresh id gives back the store before the add |
| TaskStoreLemmas.AddFreshKeepsIdsUnique | src/context/TaskContext.tsx:101-109 | adding under an id no task has keeps task ids unique |
| TaskStoreLemmas.EmptyPatchOnlyStamps | src/context/TaskContext.tsx:116-126 | an empty patch changes only the `updatedAt` of matching tasks |
| TaskStoreLemmas.GetAfterUpdateCategory | src/context/TaskContext.tsx:180-190 | with a patch that keeps ids, lookup after `updateCategory` finds the patched version of the category found before, and nothing where nothing was found |
| TaskStoreLemmas.DeleteTaskSplits | src/context/TaskContext.tsx:134-135 | deleting from a concatenation is deleting from each part, so the surviving tasks keep their relative order |
| TaskStoreLemmas.DeleteCategorySplits | src/context/TaskContext.tsx:197-209 | a successful category delete on a concatenation deletes from each part, so the remaining categories keep their relative order |
| TaskStoreLemmas.GetAfterDeleteCategory | src/context/TaskContext.tsx:197-218 | after a successful category delete, lookup of that id finds nothing |
| TaskStoreLemmas.GetAfterAddCategory | src/context/TaskContext.tsx:167-218 | after adding under a fresh id, lookup finds exactly the new category |
| TaskStoreLemmas.LoadAfterPersist | src/context/TaskContext.tsx:62-99 | loading a user right after saving that user's store gives back that store and writes nothing new |
| TaskStoreLemmas.DefaultCategoryIds | src/context/TaskContext.tsx:48-53 | there are four default categories, with ids "1", "2", "3" and "4" in that order, all distinct |
| Dashboard.SearchFilter | src/pages/Dashboard.tsx:55-64 | a blank query keeps the list as it is; otherwise every kept task's lowercased title or description contains the lowercased trimmed query, and every such task is kept with all its copies |
| Dashboard.TabFilter | src/pages/Dashboard.tsx:67-87 | keeps exactly the tasks on the tab, every copy of each: all; due on today's calendar day; due after now on another day; completed |
| Dashboard.CompareIsPreorder | src/pages/Dashboard.tsx:90-102 | the comparator is antisymmetric in sign and transitive; ties are exactly equal completion and equal due date |
| Dashboard.Insert | src/pages/Dashboard.tsx:90-102 | one insertion step adds exactly the one element |
| Dashboard.InsertSorted | src/pages/Dashboard.tsx:90-102 | inserting into a list sorted by the comparator keeps it sorted |
| Dashboard.SortTasks | src/pages/Dashboard.tsx:90-102 | the sort returns a permutation of its input, sorted by the comparator |
| Dashboard.InsertStable | src/pages/Dashboard.tsx:90-102 | an insertion step puts the new element after everything it ties with |
| Dashboard.SortStable | src/pages/Dashboard.tsx:90-102 | the sort is stable: each tie class comes out in input order |
| Dashboard.SortedOrder | src/pages/Dashboard.tsx:92-101 | sorted means no completed task before an incomplete one, and within equal completion, dated tasks first in non-decreasing due time |
| Dashboard.VisibleStable | src/pages/Dashboard.tsx:47-106 | the shown list keeps each tie class in the order it has after search and tab filtering |
| Dashboard.Visible | src/pages/Dashboard.tsx:47-106 | the shown list is a sub-multiset of the tasks, holds exactly the tasks matching search and tab with their full multiplicity, is a permutation for a blank query on `all`, and is ordered as the comparator says |
| Dashboard.FindOverdue | src/pages/Dashboard.tsx:111-115 | a found task is in the list, incomplete, dated and due before now; none is found exactly when no task is overdue |
| Dashboard.OverdueReminder | src/pages/Dashboard.tsx:117-120 | the reminder fires exactly when a task is overdue and there is no stamp or the stamp is more than 3,600,000 ms old |
| Dashboard.ReminderAtMostHourly | src/pages/Dashboard.tsx:119-120 | within an hour of a stamp the reminder never fires; after it, it fires exactly when a task is overdue |
| Auth.Restore | src/context/AuthContext.tsx:33-40 | a stored session marker becomes the session without a check against the user list; no marker changes nothing |
| Auth.OperationsKeepSynced | src/context/AuthContext.tsx:33-114 | a successful login or registration writes the marker with the session, logout removes both, startup copies the marker in, and failures change nothing, so memory and marker stay in agreement |
| Auth.RestoreAfterReload | src/context/AuthContext.tsx:33-40 | when memory agrees with the marker, a reload followed by startup gives back the same state, signed in or not |
| Auth.NoSessionAfterLogoutReload | src/context/AuthContext.tsx:111-114 | after logout the marker is gone, so a reload stays signed out |
| Auth.Login | src/context/AuthContext.tsx:42-68 | succeeds exactly when a record matches both fields, with the first match's username and display name as session and marker; fails with one error whatever was wrong and changes nothing; users never change |
| Auth.Register | src/context/AuthContext.tsx:70-109 | a taken username fails and changes nothing; a fresh one appends exactly one record, keeps the earlier ones, and signs in, writing the marker |
| Auth.Logout | src/context/AuthContext.tsx:111-119 | clears the session and the marker and keeps the users |
| Auth.LogoutIdempotent | src/context/AuthContext.tsx:111-114 | logging out twice is logging out once |
| Auth.RegisterKeepsUsernamesUnique | src/context/AuthContext.tsx:72-92 | pairwise distinct usernames stay pairwise distinct after `register` |
| Auth.LoginAfterRegister | src/context/AuthContext.tsx:42-103 | right after registering, login with the same credentials succeeds and changes nothing |
| IndexPage.RegistrationProblem | src/pages/Index.tsx:78-94 | checks run username, password, then display name, and exactly the first failure is reported; none when all pass |
| IndexPage.HandleRegister | src/pages/Index.tsx:73-117 | a failed check shows its message and never reaches the store; otherwise the store runs and its error message is shown verbatim |
| IndexPage.HandleLogin | src/pages/Index.tsx:49-71 | no client-side checks; any failure shows "Invalid username or password" and changes nothing |
| IndexPage.TakenUsernameShown | src/pages/Index.tsx:96-106 | a valid registration under a taken name shows "Username already exists" and changes nothing |
| IndexPage.FreshUsernameSignsIn | src/pages/Index.tsx:96-106 | a valid registration under a fresh name shows no error and signs in |
| TaskForm.ResetForm | src/components/AddTaskModal.tsx:44-49 | clears title, description and due date and preselects the first category's id, or "" |
| TaskForm.FormFor | src/components/AddTaskModal.tsx:31-42 | an edited task fills the form with its own fields and turns edit mode on; no task resets the form and turns edit mode off |
| TaskForm.ModeFollowsEditTask | src/components/AddTaskModal.tsx:31-89 | with the mode the effect sets and any non-blank title, submit updates the edited task exactly when there is one and adds a task otherwise |
| TaskForm.Submit | src/components/AddTaskModal.tsx:51-90 | a title blank after trimming calls nothing; edit mode with a task patches only title, description, category and due date; otherwise an incomplete draft with untrimmed text and the empty-category fallback; the form resets after a call |
| TaskForm.SubmitAfterResetRejected | src/components/AddTaskModal.tsx:44-89 | a cleared form is rejected unchanged, so a second submit right after a successful one calls nothing |
| TaskForm.UnchangedEditOnlyStamps | src/components/AddTaskModal.tsx:31-69 | opening a task in the editor, in the mode the effect sets, and saving it untouched changes only its `updatedAt` |
| TaskForm.AddedTaskIsIncomplete | src/components/AddTaskModal.tsx:74-81 | a task added from the editor is appended incomplete with the title as typed |
| CategoryBadge.GetIcon | src/components/CategoryBadge.tsx:26-55 | total; a recognised name gives the icon of that name, and exactly the unrecognised strings give `Hash` |
| CategoryBadge.GetIconOfName | src/components/CategoryBadge.tsx:29-51 | each of the eleven names gives back its own icon, so they are all distinct |
| CategoryBadge.DefaultIconsKnown | src/components/CategoryBadge.tsx:30-37 | the four default categories' icons are all recognised |

## Left out

- Local storage itself, JSON encoding and parsing: storage is two maps keyed by username, and only the load, seed and save rules are modelled. The identity list and the session marker are fields of `AuthState`, not read from storage on each call.
- The toasts, the tagline and quote timers, and the 2-second delay before the overdue toast, with the stamp written when it fires. The stale toast text of `toggleTaskCompletion` (`src/context/TaskContext.tsx:155-164`) is left out too. None of these changes the store.
- `Date` handling: ISO strings, time zones and `toDateString` become integer timestamps and the `day` parameter. Invalid date strings, whose `getTime()` is `NaN`, are not modelled.
- Id generation by `Date.now().toString()`: ids are parameters. The source does not make them unique, so uniqueness is only a hypothesis (`AddFreshKeepsIdsUnique`).
- Text.Lower: lowercases ASCII letters only. JavaScript's `toLowerCase` applies full Unicode case mapping, which can also change the length of a string.
- IndexPage.RegistrationProblem: Dafny characters are Unicode scalar values, while JavaScript `.length` counts UTF-16 code units. For characters outside the Basic Multilingual Plane, the length checks count differently.
- IndexPage.HandleRegister: the "Registration failed. Please try again." branch for a thrown non-`Error` value is left out. `register` only throws `Error` objects.
- TaskForm.Submit: with an empty category and no categories, the source sends `undefined` as `categoryId`. The model sends the empty string.
- Routing (`navigate`), loading flags, `isAuthenticated` (always `session != None`), the header, task cards, the add button, the app shell and the mobile configuration are rendering concerns.
- Passwords are stored and compared as cleartext strings, as in the source. Nothing is claimed about security.
- `Load`, when the signed-in user changes directly from one user to another who has no stored tasks, keeps the previous in-memory tasks. This is as written (`src/context/TaskContext.tsx:65-67`). The application always passes through a signed-out state (tasks `[]`) first, so it does not show in use.

