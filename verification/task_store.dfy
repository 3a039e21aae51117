/** The task and category store of `src/context/TaskContext.tsx`: the two
    record types, the four seed categories, and every mutation the context
    exposes, each as a pure function from the old store to the new one.
    Timestamps are integers (milliseconds); the clock and the id generator
    (`Date.now()`) are the parameters `now` and `id`. */
module TaskStore {
  import opened Wrappers
  import opened Seqs

  datatype Category = Category(id: string, name: string, color: string, icon: string)

  datatype Task = Task(
    id: string,
    title: string,
    description: string,
    dueDate: Option<int>,
    completed: bool,
    categoryId: string,
    createdAt: int,
    updatedAt: int)

  /** What `addTask` receives: a task without `id`, `createdAt`, `updatedAt`. */
  datatype TaskDraft = TaskDraft(
    title: string,
    description: string,
    dueDate: Option<int>,
    completed: bool,
    categoryId: string)

  /** A `Partial<Task>`: every field may be absent. */
  datatype TaskPatch = TaskPatch(
    id: Option<string>,
    title: Option<string>,
    description: Option<string>,
    dueDate: Option<Option<int>>,
    completed: Option<bool>,
    categoryId: Option<string>,
    createdAt: Option<int>,
    updatedAt: Option<int>)

  /** What `addCategory` receives: a category without `id`. */
  datatype CategoryDraft = CategoryDraft(name: string, color: string, icon: string)

  /** A `Partial<Category>`. */
  datatype CategoryPatch = CategoryPatch(
    id: Option<string>,
    name: Option<string>,
    color: Option<string>,
    icon: Option<string>)

  /** The in-memory state of the provider. */
  datatype Store = Store(tasks: seq<Task>, categories: seq<Category>)

  /** What `deleteCategory` reports: done, or refused with a toast. */
  datatype Outcome = Done | CategoryInUse

  const EmptyTaskPatch := TaskPatch(None, None, None, None, None, None, None, None)

  /** The seed categories given to every user who has none stored. */
  const DefaultCategories: seq<Category> := [
    Category("1", "Haul", "#ff7b5c", "shopping-bag"),
    Category("2", "Vibes", "#7b61ff", "music"),
    Category("3", "Study", "#41b883", "book"),
    Category("4", "Fun", "#ff61a6", "party-popper")
  ]

  /** No two tasks share an id. The store does not maintain this; it is the
      hypothesis of the lemmas that need it. */
  predicate UniqueTaskIds(tasks: seq<Task>) {
    forall i, j :: 0 <= i < j < |tasks| ==> tasks[i].id != tasks[j].id
  }

  predicate HasTaskId(tasks: seq<Task>, id: string) {
    exists i :: 0 <= i < |tasks| && tasks[i].id == id
  }

  predicate HasCategoryId(categories: seq<Category>, id: string) {
    exists i :: 0 <= i < |categories| && categories[i].id == id
  }

  /** Index `i` holds the first category whose id is `id`. */
  predicate FirstCategoryWithId(categories: seq<Category>, id: string, i: int) {
    0 <= i < |categories| && categories[i].id == id && forall j :: 0 <= j < i ==> categories[j].id != id
  }

  // ---------------------------------------------------------------- tasks

  /** `addTask`: the draft becomes a task with the fresh `id`, stamped
      `now`, appended after every existing task. */
  function AddTask(s: Store, draft: TaskDraft, id: string, now: int): (r: Store)
    ensures r.categories == s.categories
    ensures |r.tasks| == |s.tasks| + 1 && r.tasks[..|s.tasks|] == s.tasks
    ensures var t := r.tasks[|s.tasks|];
      && t.id == id && t.title == draft.title && t.description == draft.description
      && t.dueDate == draft.dueDate && t.completed == draft.completed
      && t.categoryId == draft.categoryId && t.createdAt == now && t.updatedAt == now
  {
    var t := Task(id, draft.title, draft.description, draft.dueDate, draft.completed,
                  draft.categoryId, now, now);
    s.(tasks := s.tasks + [t])
  }

  /** `{...task, ...patch}`: every field the patch carries replaces the
      task's own. */
  function OverlayTask(t: Task, p: TaskPatch): Task {
    Task(p.id.GetOr(t.id), p.title.GetOr(t.title), p.description.GetOr(t.description),
         p.dueDate.GetOr(t.dueDate), p.completed.GetOr(t.completed),
         p.categoryId.GetOr(t.categoryId), p.createdAt.GetOr(t.createdAt),
         p.updatedAt.GetOr(t.updatedAt))
  }

  /** `updateTask`: every task whose id is `id` gets the patch and then an
      `updatedAt` of `now`, even when the patch carried its own
      `updatedAt`; every other task is left alone. */
  function UpdateTask(s: Store, id: string, patch: TaskPatch, now: int): (r: Store)
    ensures r.categories == s.categories
    ensures |r.tasks| == |s.tasks|
    ensures forall i :: 0 <= i < |s.tasks| && s.tasks[i].id != id ==> r.tasks[i] == s.tasks[i]
    ensures forall i :: 0 <= i < |s.tasks| && s.tasks[i].id == id ==>
      var t, u := s.tasks[i], r.tasks[i];
      && u.updatedAt == now
      && (patch.id.Some? ==> u.id == patch.id.value) && (patch.id.None? ==> u.id == t.id)
      && (patch.title.Some? ==> u.title == patch.title.value) && (patch.title.None? ==> u.title == t.title)
      && (patch.description.Some? ==> u.description == patch.description.value)
      && (patch.description.None? ==> u.description == t.description)
      && (patch.dueDate.Some? ==> u.dueDate == patch.dueDate.value) && (patch.dueDate.None? ==> u.dueDate == t.dueDate)
      && (patch.completed.Some? ==> u.completed == patch.completed.value)
      && (patch.completed.None? ==> u.completed == t.completed)
      && (patch.categoryId.Some? ==> u.categoryId == patch.categoryId.value)
      && (patch.categoryId.None? ==> u.categoryId == t.categoryId)
      && (patch.createdAt.Some? ==> u.createdAt == patch.createdAt.value)
      && (patch.createdAt.None? ==> u.createdAt == t.createdAt)
    ensures !HasTaskId(s.tasks, id) ==> r == s
  {
    var ts := seq(|s.tasks|, i requires 0 <= i < |s.tasks| =>
      if s.tasks[i].id == id then OverlayTask(s.tasks[i], patch).(updatedAt := now) else s.tasks[i]);
    s.(tasks := ts)
  }

  /** `deleteTask`: every task with id `id` is gone, every other task stays
      (with its multiplicity), and nothing happens for an unknown id. */
  function DeleteTask(s: Store, id: string): (r: Store)
    ensures r.categories == s.categories
    ensures forall t :: t in r.tasks <==> t in s.tasks && t.id != id
    ensures forall t :: multiset(r.tasks)[t] == if t.id == id then 0 else multiset(s.tasks)[t]
    ensures !HasTaskId(s.tasks, id) ==> r == s
  {
    var keep := (t: Task) => t.id != id;
    FilterMembers(s.tasks, keep);
    FilterCounts(s.tasks, keep);
    s.(tasks := Filter(s.tasks, keep))
  }

  /** `toggleTaskCompletion`: matching tasks flip `completed` and are stamped
      `now`; all other tasks are left alone. */
  function ToggleTask(s: Store, id: string, now: int): (r: Store)
    ensures r.categories == s.categories
    ensures |r.tasks| == |s.tasks|
    ensures forall i :: 0 <= i < |s.tasks| && s.tasks[i].id != id ==> r.tasks[i] == s.tasks[i]
    ensures forall i :: 0 <= i < |s.tasks| && s.tasks[i].id == id ==>
      r.tasks[i].completed == !s.tasks[i].completed && r.tasks[i].updatedAt == now
      && r.tasks[i].(completed := s.tasks[i].completed, updatedAt := s.tasks[i].updatedAt) == s.tasks[i]
  {
    var ts := seq(|s.tasks|, i requires 0 <= i < |s.tasks| =>
      var t := s.tasks[i];
      if t.id == id then t.(completed := !t.completed, updatedAt := now) else t);
    s.(tasks := ts)
  }

  // ----------------------------------------------------------- categories

  /** `addCategory`: the draft with the fresh `id` is appended. */
  function AddCategory(s: Store, draft: CategoryDraft, id: string): (r: Store)
    ensures r.tasks == s.tasks
    ensures |r.categories| == |s.categories| + 1 && r.categories[..|s.categories|] == s.categories
    ensures r.categories[|s.categories|] == Category(id, draft.name, draft.color, draft.icon)
  {
    s.(categories := s.categories + [Category(id, draft.name, draft.color, draft.icon)])
  }

  function OverlayCategory(c: Category, p: CategoryPatch): Category {
    Category(p.id.GetOr(c.id), p.name.GetOr(c.name), p.color.GetOr(c.color), p.icon.GetOr(c.icon))
  }

  /** `updateCategory`: like `updateTask`, but with no timestamp. */
  function UpdateCategory(s: Store, id: string, patch: CategoryPatch): (r: Store)
    ensures r.tasks == s.tasks
    ensures |r.categories| == |s.categories|
    ensures forall i :: 0 <= i < |s.categories| && s.categories[i].id != id ==>
      r.categories[i] == s.categories[i]
    ensures forall i :: 0 <= i < |s.categories| && s.categories[i].id == id ==>
      var c, u := s.categories[i], r.categories[i];
      && u.id == patch.id.GetOr(c.id) && u.name == patch.name.GetOr(c.name)
      && u.color == patch.color.GetOr(c.color) && u.icon == patch.icon.GetOr(c.icon)
    ensures !HasCategoryId(s.categories, id) ==> r == s
  {
    var cs := seq(|s.categories|, i requires 0 <= i < |s.categories| =>
      if s.categories[i].id == id then OverlayCategory(s.categories[i], patch) else s.categories[i]);
    s.(categories := cs)
  }

  /** `deleteCategory`: refused, with nothing changed, while any task still
      refers to `id`; otherwise every category with that id is removed. */
  function DeleteCategory(s: Store, id: string): (r: (Store, Outcome))
    ensures r.0.tasks == s.tasks
    ensures r.1 == CategoryInUse <==> exists i :: 0 <= i < |s.tasks| && s.tasks[i].categoryId == id
    ensures r.1 == CategoryInUse ==> r.0 == s
    ensures r.1 == Done ==> forall c :: c in r.0.categories <==> c in s.categories && c.id != id
    ensures r.1 == Done ==>
      forall c :: multiset(r.0.categories)[c] == if c.id == id then 0 else multiset(s.categories)[c]
  {
    var uses := (t: Task) => t.categoryId == id;
    FilterMembers(s.tasks, uses);
    var inUse := Filter(s.tasks, uses);
    if |inUse| > 0 then
      assert inUse[0] in inUse;
      (s, CategoryInUse)
    else
      assert forall i :: 0 <= i < |s.tasks| ==> s.tasks[i] in s.tasks;
      var keep := (c: Category) => c.id != id;
      FilterMembers(s.categories, keep);
      FilterCounts(s.categories, keep);
      (s.(categories := Filter(s.categories, keep)), Done)
  }

  /** `getCategory`: the first category with id `id`, or none. */
  function GetCategory(s: Store, id: string): (r: Option<Category>)
    ensures r.None? <==> !HasCategoryId(s.categories, id)
    ensures r.Some? ==> r.value.id == id
    ensures r.Some? ==> exists i :: FirstCategoryWithId(s.categories, id, i) && s.categories[i] == r.value
  {
    Find(s.categories, (c: Category) => c.id == id)
  }

  // ---------------------------------------------------------- persistence

  /** The two per-user entries of local storage the provider reads and
      writes, keyed by username (`procrastinator_tasks_<username>` and
      `procrastinator_categories_<username>`). */
  datatype Storage = Storage(tasks: map<string, seq<Task>>, categories: map<string, seq<Category>>)

  datatype Loaded = Loaded(store: Store, storage: Storage)

  /** The effect that runs when the signed-in user changes. With a user,
      stored tasks replace the in-memory ones (none stored: left as they
      were), stored categories replace the in-memory ones, and with none
      stored the defaults are installed and written back. Without a user the
      store is reset to no tasks and the defaults. */
  function Load(user: Option<string>, storage: Storage, current: Store): (r: Loaded)
    ensures user.None? ==> r.store == Store([], DefaultCategories) && r.storage == storage
    ensures user.Some? ==>
      var u := user.value;
      && r.store.tasks == (if u in storage.tasks then storage.tasks[u] else current.tasks)
      && r.store.categories == (if u in storage.categories then storage.categories[u] else DefaultCategories)
      && r.storage.tasks == storage.tasks
      && u in r.storage.categories && r.storage.categories[u] == r.store.categories
      && (forall v :: v != u ==> (v in r.storage.categories <==> v in storage.categories))
      && (forall v :: v != u && v in storage.categories ==> r.storage.categories[v] == storage.categories[v])
  {
    match user
    case None => Loaded(Store([], DefaultCategories), storage)
    case Some(u) =>
      var tasks := if u in storage.tasks then storage.tasks[u] else current.tasks;
      if u in storage.categories then
        Loaded(Store(tasks, storage.categories[u]), storage)
      else
        Loaded(Store(tasks, DefaultCategories),
               storage.(categories := storage.categories[u := DefaultCategories]))
  }

  /** The two save effects: with a user signed in, both collections are
      written whole under that user's keys after every change. */
  function Persist(user: Option<string>, storage: Storage, s: Store): (r: Storage)
    ensures user.None? ==> r == storage
    ensures user.Some? ==>
      r.tasks == storage.tasks[user.value := s.tasks] && r.categories == storage.categories[user.value := s.categories]
  {
    match user
    case None => storage
    case Some(u) => Storage(storage.tasks[u := s.tasks], storage.categories[u := s.categories])
  }
}
