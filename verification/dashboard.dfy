/** The derived task list of `src/pages/Dashboard.tsx`: search, then tab
    filter, then the two-key sort, plus the overdue reminder. The clock is
    the parameter `now` and the calendar day of a timestamp (what
    `toDateString` compares) is the parameter `day`. */
module Dashboard {
  import opened Wrappers
  import opened Seqs
  import opened Text
  import opened TaskStore

  datatype Tab = All | Today | Upcoming | Completed

  // --------------------------------------------------------------- search

  /** The task's lowercased title or description contains `needle`. */
  predicate MatchesSearch(t: Task, needle: string) {
    Contains(Lower(t.title), needle) || Contains(Lower(t.description), needle)
  }

  /** The search step: a blank query keeps every task; otherwise the query
      is lowercased and trimmed and exactly the tasks matching it are kept,
      every copy of each. */
  function SearchFilter(tasks: seq<Task>, query: string): (r: seq<Task>)
    ensures AllWhitespace(query) ==> r == tasks
    ensures !AllWhitespace(query) ==>
      forall t :: t in r ==> t in tasks && MatchesSearch(t, Trim(Lower(query)))
    ensures !AllWhitespace(query) ==>
      forall t :: t in tasks && MatchesSearch(t, Trim(Lower(query))) ==> t in r
    ensures multiset(r) <= multiset(tasks)
    ensures !AllWhitespace(query) ==> forall t ::
      multiset(r)[t] == if MatchesSearch(t, Trim(Lower(query))) then multiset(tasks)[t] else 0
  {
    if Trim(query) == [] then tasks
    else
      var needle := Trim(Lower(query));
      var keep := (t: Task) => MatchesSearch(t, needle);
      FilterMembers(tasks, keep);
      FilterCounts(tasks, keep);
      Filter(tasks, keep)
  }

  // ------------------------------------------------------------------ tabs

  /** Whether a task belongs on a tab at time `now`. */
  predicate OnTab(t: Task, tab: Tab, now: int, day: int -> int) {
    match tab
    case All => true
    case Today => t.dueDate.Some? && day(t.dueDate.value) == day(now)
    case Upcoming => t.dueDate.Some? && t.dueDate.value > now && day(t.dueDate.value) != day(now)
    case Completed => t.completed
  }

  /** The tab step: exactly the tasks on the tab, every copy of each. */
  function TabFilter(tasks: seq<Task>, tab: Tab, now: int, day: int -> int): (r: seq<Task>)
    ensures forall t :: t in r <==> t in tasks && OnTab(t, tab, now, day)
    ensures multiset(r) <= multiset(tasks)
    ensures forall t :: multiset(r)[t] == if OnTab(t, tab, now, day) then multiset(tasks)[t] else 0
    ensures tab == All ==> r == tasks
  {
    if tab == All then tasks
    else
      var keep := (t: Task) => OnTab(t, tab, now, day);
      FilterMembers(tasks, keep);
      FilterCounts(tasks, keep);
      Filter(tasks, keep)
  }

  // ------------------------------------------------------------------ sort

  /** The comparator handed to `Array.prototype.sort`: incomplete before
      completed, then dated before undated, then by due time. */
  function Compare(a: Task, b: Task): int {
    if a.completed != b.completed then (if a.completed then 1 else -1)
    else if a.dueDate.None? && b.dueDate.None? then 0
    else if a.dueDate.None? then 1
    else if b.dueDate.None? then -1
    else a.dueDate.value - b.dueDate.value
  }

  /** The comparator is a total preorder: antisymmetric in sign and
      transitive, both strictly and weakly; ties are exactly the tasks with
      the same completion flag and the same due date. */
  lemma CompareIsPreorder(a: Task, b: Task, c: Task)
    ensures Compare(a, b) == -Compare(b, a)
    ensures Compare(a, b) == 0 <==> a.completed == b.completed && a.dueDate == b.dueDate
    ensures Compare(a, b) <= 0 && Compare(b, c) <= 0 ==> Compare(a, c) <= 0
    ensures Compare(a, b) < 0 && Compare(b, c) <= 0 ==> Compare(a, c) < 0
    ensures Compare(a, b) <= 0 && Compare(b, c) < 0 ==> Compare(a, c) < 0
  {
  }

  predicate Sorted(s: seq<Task>) {
    forall i, j :: 0 <= i < j < |s| ==> Compare(s[i], s[j]) <= 0
  }

  /** Places `x` after every element of `r` that is not greater than it. */
  function Insert(r: seq<Task>, x: Task): (o: seq<Task>)
    ensures |o| == |r| + 1
    ensures multiset(o) == multiset(r) + multiset{x}
  {
    if |r| == 0 then [x]
    else if Compare(x, r[0]) < 0 then [x] + r
    else
      assert r == [r[0]] + r[1..];
      [r[0]] + Insert(r[1..], x)
  }

  lemma {:induction false} InsertSorted(r: seq<Task>, x: Task)
    requires Sorted(r)
    ensures Sorted(Insert(r, x))
  {
    if |r| == 0 {
    } else if Compare(x, r[0]) < 0 {
      var o := [x] + r;
      forall j | 0 < j < |o| ensures Compare(x, o[j]) <= 0 {
        CompareIsPreorder(x, r[0], o[j]);
      }
    } else {
      var rest := Insert(r[1..], x);
      InsertSorted(r[1..], x);
      CompareIsPreorder(r[0], x, x);
      forall y | y in rest ensures Compare(r[0], y) <= 0 {
        assert y in multiset(rest);
      }
      assert Insert(r, x) == [r[0]] + rest;
    }
  }

  /** A stable insertion sort by `Compare`: each element goes in after every
      element before it that it does not precede. */
  function SortTasks(s: seq<Task>): (r: seq<Task>)
    ensures |r| == |s|
    ensures multiset(r) == multiset(s)
    ensures Sorted(r)
  {
    if |s| == 0 then []
    else
      var init, last := s[..|s| - 1], s[|s| - 1];
      assert s == init + [last];
      var sorted := SortTasks(init);
      InsertSorted(sorted, last);
      Insert(sorted, last)
  }

  /** The tasks that tie with `x` under the comparator. */
  function TiesWith(x: Task): Task -> bool {
    (t: Task) => Compare(t, x) == 0
  }

  lemma {:induction false} InsertStable(r: seq<Task>, y: Task, x: Task)
    requires Sorted(r)
    ensures Filter(Insert(r, y), TiesWith(x)) == Filter(r, TiesWith(x)) + Filter([y], TiesWith(x))
  {
    if |r| == 0 {
    } else if Compare(y, r[0]) < 0 {
      InsertFrontStable(r, y, x);
    } else {
      InsertStable(r[1..], y, x);
      assert Insert(r, y) == [r[0]] + Insert(r[1..], y);
      FilterConsAppend(r, Insert(r[1..], y), [y], TiesWith(x));
    }
  }

  /** The case of `InsertStable` where `y` goes in front. */
  lemma InsertFrontStable(r: seq<Task>, y: Task, x: Task)
    requires Sorted(r) && |r| > 0 && Compare(y, r[0]) < 0
    ensures Filter(Insert(r, y), TiesWith(x)) == Filter(r, TiesWith(x)) + Filter([y], TiesWith(x))
  {
    var p := TiesWith(x);
    assert Insert(r, y) == [y] + r;
    FilterAppend([y], r, p);
    if p(y) {
      NoTiesAfterSmaller(r, y, x);
    } else {
      assert Filter([y], p) == [];
    }
  }

  /** Nothing in a sorted list that starts above `y` ties with a task `y`
      ties with. */
  lemma NoTiesAfterSmaller(r: seq<Task>, y: Task, x: Task)
    requires Sorted(r) && |r| > 0 && Compare(y, r[0]) < 0 && Compare(y, x) == 0
    ensures Filter(r, TiesWith(x)) == []
  {
  }

  /** The sort is stable: the tasks of each tie class come out in the order
      they went in. */
  lemma {:induction false} SortStable(s: seq<Task>, x: Task)
    ensures Filter(SortTasks(s), TiesWith(x)) == Filter(s, TiesWith(x))
  {
    if |s| > 0 {
      var init, last := s[..|s| - 1], s[|s| - 1];
      assert s == init + [last];
      SortStable(init, x);
      InsertStable(SortTasks(init), last, x);
      FilterAppend(init, [last], TiesWith(x));
    }
  }

  /** What sortedness by the comparator means in the source's terms. */
  lemma SortedOrder(s: seq<Task>)
    requires Sorted(s)
    ensures forall i, j :: 0 <= i < j < |s| ==> !(s[i].completed && !s[j].completed)
    ensures forall i, j :: 0 <= i < j < |s| && s[i].completed == s[j].completed && s[j].dueDate.Some? ==>
      s[i].dueDate.Some? && s[i].dueDate.value <= s[j].dueDate.value
  {
  }

  // ------------------------------------------------------------- pipeline

  /** A task passes both the search and the tab. */
  predicate Shown(t: Task, query: string, tab: Tab, now: int, day: int -> int) {
    (AllWhitespace(query) || MatchesSearch(t, Trim(Lower(query)))) && OnTab(t, tab, now, day)
  }

  /** The list the dashboard shows: a sub-multiset of the tasks holding
      exactly the tasks that match the search and belong on the tab, every
      copy of each, with no
      completed task before an incomplete one and, within equal completion,
      dated tasks first in due order. */
  function Visible(tasks: seq<Task>, query: string, tab: Tab, now: int, day: int -> int): (r: seq<Task>)
    ensures multiset(r) <= multiset(tasks)
    ensures forall t :: t in r <==> t in tasks && Shown(t, query, tab, now, day)
    ensures AllWhitespace(query) && tab == All ==> multiset(r) == multiset(tasks)
    ensures forall t :: multiset(r)[t] == (if Shown(t, query, tab, now, day) then multiset(tasks)[t] else 0)
    ensures forall i, j :: 0 <= i < j < |r| ==> !(r[i].completed && !r[j].completed)
    ensures forall i, j :: 0 <= i < j < |r| && r[i].completed == r[j].completed && r[j].dueDate.Some? ==>
      r[i].dueDate.Some? && r[i].dueDate.value <= r[j].dueDate.value
  {
    var searched := SearchFilter(tasks, query);
    var tabbed := TabFilter(searched, tab, now, day);
    var r := SortTasks(tabbed);
    SortedOrder(r);
    assert forall t :: t in r <==> t in multiset(tabbed);
    r
  }

  /** The view is stable: each tie class under the comparator is shown in
      the order it has after search and tab filtering. */
  lemma VisibleStable(tasks: seq<Task>, query: string, tab: Tab, now: int, day: int -> int, x: Task)
    ensures Filter(Visible(tasks, query, tab, now, day), TiesWith(x))
         == Filter(TabFilter(SearchFilter(tasks, query), tab, now, day), TiesWith(x))
  {
    SortStable(TabFilter(SearchFilter(tasks, query), tab, now, day), x);
  }

  // -------------------------------------------------------------- overdue

  /** Incomplete, dated, and due strictly before `now`. */
  predicate Overdue(t: Task, now: int) {
    !t.completed && t.dueDate.Some? && t.dueDate.value < now
  }

  /** The first overdue task, if any. */
  function FindOverdue(tasks: seq<Task>, now: int): (r: Option<Task>)
    ensures r.Some? ==> r.value in tasks && Overdue(r.value, now)
    ensures r.None? <==> forall t :: t in tasks ==> !Overdue(t, now)
  {
    Find(tasks, (t: Task) => Overdue(t, now))
  }

  /** One hour in milliseconds. */
  const HourMs := 1000 * 60 * 60

  /** Whether the overdue reminder fires, given the stamp of the last one:
      only when some task is overdue, and then only when no reminder was
      stamped or the last one is more than an hour old. */
  function OverdueReminder(tasks: seq<Task>, lastStamp: Option<int>, now: int): (r: bool)
    ensures r <==> (exists t :: t in tasks && Overdue(t, now)) && (lastStamp.None? || now - lastStamp.value > 3600000)
  {
    FindOverdue(tasks, now).Some? && (lastStamp.None? || now - lastStamp.value > HourMs)
  }

  /** The reminder is throttled: within an hour of a stamp it never fires,
      and once an hour has passed it fires whenever a task is overdue. */
  lemma ReminderAtMostHourly(tasks: seq<Task>, stamp: int, now: int)
    ensures now <= stamp + 3600000 ==> !OverdueReminder(tasks, Some(stamp), now)
    ensures now > stamp + 3600000 ==> OverdueReminder(tasks, Some(stamp), now) == FindOverdue(tasks, now).Some?
  {
  }
}
