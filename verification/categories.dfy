/**
 * The category admin page: add, rename and delete a product category with
 * one remote write each, and update the locally held list only when the
 * write succeeds. The list is kept ordered by name; `before(a, b)` stands
 * for `a.localeCompare(b) <= 0`.
 */
module Categories {
  import opened Entities
  import opened Effects
  import Text

  const CategoriesCollection: string := "productCategories"
  const EmptyNameTitle: string := "Category name cannot be empty."

  /** The comparator orders any two names one way or the other. */
  ghost predicate Total(before: (string, string) -> bool) {
    forall a, b :: before(a, b) || before(b, a)
  }

  /** Each category is ordered at or before its successor. */
  predicate SortedByName(cs: seq<Category>, before: (string, string) -> bool) {
    forall i :: 0 < i < |cs| ==> before(cs[i - 1].name, cs[i].name)
  }

  /** Insert `c` in front of the first element it sorts before. */
  function Insert(c: Category, s: seq<Category>, before: (string, string) -> bool): (r: seq<Category>)
    ensures multiset(r) == multiset(s) + multiset{c}
    ensures |r| == |s| + 1 && (r[0] == c || (|s| > 0 && r[0] == s[0]))
    ensures Total(before) && SortedByName(s, before) ==> SortedByName(r, before)
  {
    if |s| == 0 || before(c.name, s[0].name) then [c] + s
    else
      assert s == [s[0]] + s[1..];
      var rest := Insert(c, s[1..], before);
      assert SortedByName(s, before) ==> SortedByName(s[1..], before);
      [s[0]] + rest
  }

  /** `list.sort((a, b) => a.name.localeCompare(b.name))`, as a stable insertion sort. */
  function SortByName(cs: seq<Category>, before: (string, string) -> bool): (r: seq<Category>)
    ensures multiset(r) == multiset(cs) && |r| == |cs|
    ensures Total(before) ==> SortedByName(r, before)
  {
    if |cs| == 0 then []
    else
      assert cs == [cs[0]] + cs[1..];
      Insert(cs[0], SortByName(cs[1..], before), before)
  }

  /** `categories.map(c => c.id === id ? { ...c, name } : c)` */
  function Rename(cs: seq<Category>, id: string, name: string): (r: seq<Category>)
    ensures |r| == |cs|
    ensures forall i :: 0 <= i < |cs| ==> r[i] == (if cs[i].id == id then Category(id, name) else cs[i])
  {
    seq(|cs|, i requires 0 <= i < |cs| => if cs[i].id == id then Category(id, name) else cs[i])
  }

  /** `categories.filter(c => c.id !== id)` */
  function RemoveId(cs: seq<Category>, id: string): (r: seq<Category>)
    ensures |r| <= |cs|
    ensures forall c :: c in r ==> c in cs && c.id != id
  {
    if |cs| == 0 then []
    else (if cs[0].id != id then [cs[0]] else []) + RemoveId(cs[1..], id)
  }

  /** The page state the handlers touch: the loaded list (if loaded) and the new-name input. */
  datatype PageState = PageState(categories: Option<seq<Category>>, newName: string)

  /** The state after a handler and the effects it produced. */
  datatype Run = Run(state: PageState, effects: Trace)

  /** `handleAddCategory`; `outcome` is how `addDoc` settles. */
  function AddCategory(st: PageState, outcome: Outcome, before: (string, string) -> bool): (r: Run)
    ensures Text.Trim(st.newName) == [] ==> r == Run(st, [Notify(EmptyNameTitle, "", true)])
    ensures Text.Trim(st.newName) != [] ==> |r.effects| > 0 && r.effects[0] == Write(CategoriesCollection, Create, map["name" := st.newName])
    ensures outcome.Failed? ==> r.state == st
    ensures Text.Trim(st.newName) != [] && outcome.Succeeded? ==>
      && r.state.newName == ""
      && (st.categories.None? <==> r.state.categories.None?)
      && (st.categories.Some? ==>
            multiset(r.state.categories.value) == multiset(st.categories.value) + multiset{Category(outcome.docId, st.newName)})
      && (st.categories.Some? && Total(before) ==> SortedByName(r.state.categories.value, before))
  {
    if Text.Trim(st.newName) == [] then Run(st, [Notify(EmptyNameTitle, "", true)])
    else
      var data := map["name" := st.newName];
      var call := Write(CategoriesCollection, Create, data);
      match outcome
      case Succeeded(docId) =>
        var list := match st.categories
          case None => None
          case Some(cs) => Some(SortByName(cs + [Category(docId, st.newName)], before));
        Run(PageState(list, ""), [call, Notify("Success", "Category added.", false)])
      case Failed(_) =>
        Run(st, [call, PermissionEvent(CategoriesCollection, Create, Some(data)), Notify("Add Failed", "Could not add category.", true)])
  }

  function CategoryPath(id: string): (r: string)
    ensures Text.StartsWith(r, CategoriesCollection + "/") && r[|CategoriesCollection| + 1..] == id
  {
    CategoriesCollection + "/" + id
  }

  /** `handleUpdateCategory(id, name)`; `outcome` is how `updateDoc` settles. */
  function UpdateCategory(st: PageState, id: string, name: string, outcome: Outcome, before: (string, string) -> bool): (r: Run)
    ensures |r.effects| > 0 && r.effects[0] == Write(CategoryPath(id), Update, map["name" := name])
    ensures r.state.newName == st.newName
    ensures outcome.Failed? ==> r.state == st
    ensures outcome.Succeeded? ==>
      && (st.categories.None? <==> r.state.categories.None?)
      && (st.categories.Some? ==> multiset(r.state.categories.value) == multiset(Rename(st.categories.value, id, name)))
      && (st.categories.Some? && Total(before) ==> SortedByName(r.state.categories.value, before))
  {
    var data := map["name" := name];
    var call := Write(CategoryPath(id), Update, data);
    match outcome
    case Succeeded(_) =>
      var list := match st.categories
        case None => None
        case Some(cs) => Some(SortByName(Rename(cs, id, name), before));
      Run(st.(categories := list), [call, Notify("Success", "Category updated.", false)])
    case Failed(_) =>
      Run(st, [call, PermissionEvent(CategoryPath(id), Update, Some(data)), Notify("Update Failed", "Could not update category.", true)])
  }

  /** `handleDeleteCategory(id)`; `outcome` is how `deleteDoc` settles. */
  function DeleteCategory(st: PageState, id: string, outcome: Outcome): (r: Run)
    ensures |r.effects| > 0 && r.effects[0] == Write(CategoryPath(id), Delete, map[])
    ensures r.state.newName == st.newName
    ensures outcome.Failed? ==> r.state == st
    ensures outcome.Succeeded? ==> (st.categories.None? <==> r.state.categories.None?)
  {
    var call := Write(CategoryPath(id), Delete, map[]);
    match outcome
    case Succeeded(_) =>
      var list := match st.categories
        case None => None
        case Some(cs) => Some(RemoveId(cs, id));
      Run(st.(categories := list), [call, Notify("Success", "Category deleted.", false)])
    case Failed(_) =>
      Run(st, [call, PermissionEvent(CategoryPath(id), Delete, None), Notify("Delete Failed", "Could not delete category.", true)])
  }

  // ---------------------------------------------------------------------
  // One table row

  /** A row's local state: whether it is in edit mode and the text in its input. */
  datatype RowState = RowState(editing: bool, name: string)

  function InitialRow(c: Category): RowState {
    RowState(false, c.name)
  }

  /** `handleCancel`: leave edit mode and put the stored name back in the input. */
  function CancelEdit(row: RowState, c: Category): (r: RowState)
    ensures !r.editing && r.name == c.name
    ensures r == InitialRow(c)
  {
    RowState(false, c.name)
  }

  /** `handleSave` once `onUpdate` has returned: the typed name stays in the input. */
  function SaveEdit(row: RowState): (r: RowState)
    ensures !r.editing && r.name == row.name
  {
    row.(editing := false)
  }

  // ---------------------------------------------------------------------
  // Properties

  /** A name is rejected without any write exactly when it is blank. */
  lemma AddRejectsExactlyBlankNames(st: PageState, outcome: Outcome, before: (string, string) -> bool)
    ensures Writes(AddCategory(st, outcome, before).effects) == 0 <==> Text.IsBlank(st.newName)
    ensures Text.IsBlank(st.newName) ==> AddCategory(st, outcome, before).state == st
  {
    Text.TrimEmptyIffBlank(st.newName);
    var t := AddCategory(st, outcome, before).effects;
    if !Text.IsBlank(st.newName) {
      assert IsWrite(t[0]);
    }
  }

  /**
   * Every handler's failure emits exactly one permission event, for the
   * operation it attempted; an add with a blank name makes no call and so
   * emits none. Renaming and deleting do not look at the add box.
   */
  lemma FailureEmitsOneEvent(st: PageState, id: string, name: string, code: ErrorCode, before: (string, string) -> bool)
    ensures var t := AddCategory(st, Failed(code), before).effects;
      && (!Text.IsBlank(st.newName) ==>
        PermissionEvents(t) == 1 && PermissionEvent(CategoriesCollection, Create, Some(map["name" := st.newName])) in t)
      && (Text.IsBlank(st.newName) ==> PermissionEvents(t) == 0)
    ensures var t := UpdateCategory(st, id, name, Failed(code), before).effects;
      PermissionEvents(t) == 1 && PermissionEvent(CategoryPath(id), Update, Some(map["name" := name])) in t
    ensures var t := DeleteCategory(st, id, Failed(code)).effects;
      PermissionEvents(t) == 1 && PermissionEvent(CategoryPath(id), Delete, None) in t
  {
    Text.TrimEmptyIffBlank(st.newName);
    OneEventInMiddle(Write(CategoriesCollection, Create, map["name" := st.newName]),
      PermissionEvent(CategoriesCollection, Create, Some(map["name" := st.newName])), Notify("Add Failed", "Could not add category.", true));
    OneEventInMiddle(Write(CategoryPath(id), Update, map["name" := name]),
      PermissionEvent(CategoryPath(id), Update, Some(map["name" := name])), Notify("Update Failed", "Could not update category.", true));
    OneEventInMiddle(Write(CategoryPath(id), Delete, map[]),
      PermissionEvent(CategoryPath(id), Delete, None), Notify("Delete Failed", "Could not delete category.", true));
  }

  lemma OneEventInMiddle(a: Effect, e: Effect, b: Effect)
    requires !a.PermissionEvent? && e.PermissionEvent? && !b.PermissionEvent?
    ensures PermissionEvents([a, e, b]) == 1
  {
    assert [a, e, b][1..] == [e, b] && [e, b][1..] == [b];
    assert Count([b], IsPermissionEvent) == 0;
    assert Count([e, b], IsPermissionEvent) == 1;
  }

  /** Every handler's success emits no permission event. */
  lemma SuccessEmitsNoEvent(st: PageState, id: string, name: string, docId: string, before: (string, string) -> bool)
    ensures PermissionEvents(AddCategory(st, Succeeded(docId), before).effects) == 0
    ensures PermissionEvents(UpdateCategory(st, id, name, Succeeded(docId), before).effects) == 0
    ensures PermissionEvents(DeleteCategory(st, id, Succeeded(docId)).effects) == 0
  {
  }

  /** A rename changes the name of exactly the categories with that id and nothing else. */
  lemma RenameTouchesOnlyThatId(cs: seq<Category>, id: string, name: string, c: Category)
    ensures c.id != id ==> (c in Rename(cs, id, name) <==> c in cs)
    ensures c.id == id && c.name != name ==> c !in Rename(cs, id, name)
    ensures (exists i :: 0 <= i < |cs| && cs[i].id == id) <==> Category(id, name) in Rename(cs, id, name)
  {
    var r := Rename(cs, id, name);
    if c.id != id && c in cs {
      var i :| 0 <= i < |cs| && cs[i] == c;
      assert r[i] == c;
    }
    if Category(id, name) in r {
      var i :| 0 <= i < |r| && r[i] == Category(id, name);
      assert cs[i].id == id;
    }
  }

  /** After a successful rename the stored list holds the same categories with only that id renamed. */
  lemma RenamedListContents(st: PageState, id: string, name: string, docId: string, before: (string, string) -> bool, c: Category)
    requires st.categories.Some?
    ensures var after := UpdateCategory(st, id, name, Succeeded(docId), before).state.categories.value;
      c.id != id ==> (c in after <==> c in st.categories.value)
  {
    var after := UpdateCategory(st, id, name, Succeeded(docId), before).state.categories.value;
    RenameTouchesOnlyThatId(st.categories.value, id, name, c);
    assert c in after <==> c in multiset(after);
  }

  /** Removing an id keeps exactly the categories with other ids. */
  lemma {:induction false} RemoveIdKeepsOthers(cs: seq<Category>, id: string, c: Category)
    ensures c in RemoveId(cs, id) <==> c in cs && c.id != id
  {
    if |cs| > 0 {
      RemoveIdKeepsOthers(cs[1..], id, c);
      assert cs == [cs[0]] + cs[1..];
    }
  }

  /** Removal distributes over concatenation, so the remaining categories keep their order. */
  lemma {:induction false} RemoveIdAppend(a: seq<Category>, b: seq<Category>, id: string)
    ensures RemoveId(a + b, id) == RemoveId(a, id) + RemoveId(b, id)
  {
    if |a| == 0 {
      assert a + b == b;
    } else {
      assert (a + b)[0] == a[0];
      assert (a + b)[1..] == a[1..] + b;
      RemoveIdAppend(a[1..], b, id);
    }
  }

  /** A list without that id is left exactly as it was. */
  lemma {:induction false} RemoveAbsentIdIsIdentity(cs: seq<Category>, id: string)
    requires forall i :: 0 <= i < |cs| ==> cs[i].id != id
    ensures RemoveId(cs, id) == cs
  {
    if |cs| > 0 {
      RemoveAbsentIdIsIdentity(cs[1..], id);
      assert cs == [cs[0]] + cs[1..];
    }
  }

  /** After a successful delete the stored list is the old one without that id. */
  lemma DeletedListContents(st: PageState, id: string, docId: string, c: Category)
    requires st.categories.Some?
    ensures c in DeleteCategory(st, id, Succeeded(docId)).state.categories.value <==> c in st.categories.value && c.id != id
  {
    RemoveIdKeepsOthers(st.categories.value, id, c);
  }

  /** Sorting a list that is already in order leaves it unchanged. */
  lemma {:induction false} SortKeepsSortedList(cs: seq<Category>, before: (string, string) -> bool)
    requires SortedByName(cs, before)
    ensures SortByName(cs, before) == cs
  {
    if |cs| > 0 {
      assert SortedByName(cs[1..], before);
      SortKeepsSortedList(cs[1..], before);
      assert cs == [cs[0]] + cs[1..];
    }
  }

  /** Cancelling after any amount of typing shows the stored name again. */
  lemma CancelRestoresName(c: Category, typed: string)
    ensures CancelEdit(RowState(true, typed), c).name == InitialRow(c).name
  {
  }
}
