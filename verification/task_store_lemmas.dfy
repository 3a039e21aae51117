/** Properties relating several operations of the task and category store. */
module TaskStoreLemmas {
  import opened Wrappers
  import opened Seqs
  import opened TaskStore

  /** Toggling twice restores every task except for its `updatedAt`, which
      carries the second stamp on the tasks that matched. */
  lemma ToggleTwice(s: Store, id: string, now1: int, now2: int)
    ensures var r := ToggleTask(ToggleTask(s, id, now1), id, now2);
      && r.categories == s.categories
      && |r.tasks| == |s.tasks|
      && forall i :: 0 <= i < |s.tasks| ==>
        && r.tasks[i].(updatedAt := s.tasks[i].updatedAt) == s.tasks[i]
        && r.tasks[i].updatedAt == (if s.tasks[i].id == id then now2 else s.tasks[i].updatedAt)
  {
  }

  /** Deleting a task that was just added under a fresh id gives the same
      list as deleting from the list before the add: the new task is the
      only one that goes, and the rest keep their order. */
  lemma DeleteUndoesAdd(s: Store, draft: TaskDraft, id: string, now: int)
    requires !HasTaskId(s.tasks, id)
    ensures DeleteTask(AddTask(s, draft, id, now), id) == s
  {
    var a := AddTask(s, draft, id, now);
    var keep := (t: Task) => t.id != id;
    assert a.tasks == s.tasks + [a.tasks[|s.tasks|]];
    FilterAppend(s.tasks, [a.tasks[|s.tasks|]], keep);
    FilterMembers(s.tasks, keep);
    assert Filter([a.tasks[|s.tasks|]], keep) == [];
  }

  /** An add under an id no task has keeps task ids unique. */
  lemma AddFreshKeepsIdsUnique(s: Store, draft: TaskDraft, id: string, now: int)
    requires UniqueTaskIds(s.tasks) && !HasTaskId(s.tasks, id)
    ensures UniqueTaskIds(AddTask(s, draft, id, now).tasks)
  {
  }

  /** Updating with an empty patch changes nothing but the `updatedAt` of
      the matching tasks. */
  lemma EmptyPatchOnlyStamps(s: Store, id: string, now: int)
    ensures var r := UpdateTask(s, id, EmptyTaskPatch, now);
      && |r.tasks| == |s.tasks|
      && forall i :: 0 <= i < |s.tasks| ==>
        r.tasks[i] == if s.tasks[i].id == id then s.tasks[i].(updatedAt := now) else s.tasks[i]
  {
  }

  /** After a successful `deleteCategory`, `getCategory` finds nothing. */
  lemma GetAfterDeleteCategory(s: Store, id: string)
    ensures var (r, outcome) := DeleteCategory(s, id);
      outcome == Done ==> GetCategory(r, id).None?
  {
  }

  /** After `addCategory` under an id no category has, `getCategory` finds
      exactly the new category. */
  lemma GetAfterAddCategory(s: Store, draft: CategoryDraft, id: string)
    requires !HasCategoryId(s.categories, id)
    ensures GetCategory(AddCategory(s, draft, id), id) == Some(Category(id, draft.name, draft.color, draft.icon))
  {
  }

  /** After `updateCategory` with a patch that keeps ids, `getCategory`
      finds the patched version of the category it found before. */
  lemma GetAfterUpdateCategory(s: Store, id: string, patch: CategoryPatch)
    requires patch.id.None?
    ensures var before := GetCategory(s, id);
      var after := GetCategory(UpdateCategory(s, id, patch), id);
      && (before.None? ==> after.None?)
      && (before.Some? ==> after == Some(OverlayCategory(before.value, patch)))
  {
    var r := UpdateCategory(s, id, patch);
    var before := GetCategory(s, id);
    if before.Some? {
      var i :| FirstCategoryWithId(s.categories, id, i) && s.categories[i] == before.value;
      assert FirstCategoryWithId(r.categories, id, i);
      var after := GetCategory(r, id);
      var k :| FirstCategoryWithId(r.categories, id, k) && r.categories[k] == after.value;
      assert k == i;
    }
  }

  /** Loading a user right after persisting a store for that user gives back
      exactly that store, and writes nothing more. */
  lemma LoadAfterPersist(u: string, storage: Storage, s: Store, current: Store)
    ensures var stored := Persist(Some(u), storage, s);
      Load(Some(u), stored, current) == Loaded(s, stored)
  {
  }

  /** `deleteTask` keeps the survivors in their relative order: deleting
      from a concatenation deletes from each part and concatenates. */
  lemma DeleteTaskSplits(a: seq<Task>, b: seq<Task>, cs: seq<Category>, id: string)
    ensures DeleteTask(Store(a + b, cs), id).tasks
         == DeleteTask(Store(a, cs), id).tasks + DeleteTask(Store(b, cs), id).tasks
  {
    FilterAppend(a, b, (t: Task) => t.id != id);
  }

  /** A successful `deleteCategory` keeps the remaining categories in their
      relative order, in the same sense. */
  lemma DeleteCategorySplits(ts: seq<Task>, a: seq<Category>, b: seq<Category>, id: string)
    ensures var r := DeleteCategory(Store(ts, a + b), id);
      r.1 == Done ==>
        r.0.categories == DeleteCategory(Store(ts, a), id).0.categories + DeleteCategory(Store(ts, b), id).0.categories
  {
    FilterAppend(a, b, (c: Category) => c.id != id);
  }

  /** The seed categories carry the ids "1" to "4", all different. */
  lemma DefaultCategoryIds()
    ensures |DefaultCategories| == 4
    ensures DefaultCategories[0].id == "1" && DefaultCategories[1].id == "2"
    ensures DefaultCategories[2].id == "3" && DefaultCategories[3].id == "4"
    ensures forall i, j :: 0 <= i < j < 4 ==> DefaultCategories[i].id != DefaultCategories[j].id
  {
  }
}
