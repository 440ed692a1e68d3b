/** The categories screen: the validation and the store call of `handleSaveCategory`, the
    alert `handleDeleteCategory` shows, the rule that marks built-in categories and the
    split of the list into income and expense categories. */
module CategoriesScreen {
  import opened Wrappers
  import opened Seqs
  import opened SeqSums
  import opened Text
  import opened Finance

  const EmptyName: string := "Nama kategori tidak boleh kosong"
  const InUseAlert: string := "Kategori ini sedang digunakan dalam transaksi dan tidak dapat dihapus"
  const DeleteFailedAlert: string := "Gagal menghapus kategori"

  // ----- saving

  /** What `handleSaveCategory` does: show an error alert, or call the store. */
  datatype SaveAction =
    | RejectName(message: string)
    | CallUpdate(id: string, patch: CategoryPatch)
    | CallAdd(input: CategoryInput)

  /** `handleSaveCategory()` for the modal's state: `editing` is the category being edited,
      if any, and the other arguments are the form fields. */
  function HandleSaveCategory(editing: Option<Category>, name: string, kind: string, icon: string,
                              color: string): (r: SaveAction)
    ensures r.RejectName? <==> forall i :: 0 <= i < |name| ==> IsJsWhitespace(name[i])
    ensures r.RejectName? ==> r.message == EmptyName
    ensures r.CallUpdate? <==> !r.RejectName? && editing.Some?
    ensures r.CallUpdate? ==>
      r.id == editing.value.id
      && r.patch == CategoryPatch(None, Some(JsTrim(name)), Some(kind), Some(icon), Some(color), None)
    ensures r.CallAdd? ==> editing.None? && r.input == CategoryInput(JsTrim(name), kind, icon, color)
  {
    var trimmed := JsTrim(name);
    if trimmed == [] then
      RejectName(EmptyName)
    else if editing.Some? then
      CallUpdate(editing.value.id, CategoryPatch(None, Some(trimmed), Some(kind), Some(icon), Some(color), None))
    else
      CallAdd(CategoryInput(trimmed, kind, icon, color))
  }

  /** The name the store receives is never empty and neither starts nor ends with white space. */
  lemma SavedNameTrimmed(editing: Option<Category>, name: string, kind: string, icon: string, color: string)
    ensures var r := HandleSaveCategory(editing, name, kind, icon, color);
      (r.CallAdd? ==> r.input.name != [] && !IsJsWhitespace(r.input.name[0])
                      && !IsJsWhitespace(r.input.name[|r.input.name| - 1]))
      && (r.CallUpdate? ==> r.patch.name.Some? && r.patch.name.value != []
                            && !IsJsWhitespace(r.patch.name.value[0])
                            && !IsJsWhitespace(r.patch.name.value[|r.patch.name.value| - 1]))
  {
  }

  /** Saving through the store: a new category is appended with the trimmed name, an edited
      one is merged in place. `freshId` and `created` are the readings an add takes for the
      id and `createdAt`; `updated` is the one reading that stamps `updatedAt`. */
  method SaveCategory(store: DataService, editing: Option<Category>, name: string, kind: string,
                      icon: string, color: string, freshId: string, created: int, updated: int)
    returns (alert: Option<string>)
    modifies store
    ensures var r := HandleSaveCategory(editing, name, kind, icon, color);
      (r.RejectName? ==> alert == Some(EmptyName) && store.categories == old(store.categories))
      && (r.CallAdd? ==> alert.None? && store.categories == old(store.categories) + [NewCategory(r.input, freshId, created, updated)])
      && (r.CallUpdate? ==>
            var i := IndexWhere(old(store.categories), CategoryHasId(r.id));
            && alert.None?
            && store.categories == if i == -1 then old(store.categories)
                                   else old(store.categories)[i := MergeCategory(old(store.categories)[i], r.patch, updated)])
    ensures store.transactions == old(store.transactions)
  {
    var r := HandleSaveCategory(editing, name, kind, icon, color);
    match r
    case RejectName(m) =>
      alert := Some(m);
    case CallUpdate(id, patch) =>
      var _ := store.UpdateCategory(id, patch, updated);
      alert := None;
    case CallAdd(input) =>
      var _ := store.AddCategory(input, freshId, created, updated);
      alert := None;
  }

  // ----- deleting

  /** The alert shown after `deleteCategory`: none when it succeeded, otherwise the in-use
      alert for the in-use error and the generic one for any other error message. */
  function DeleteAlert(error: Option<string>): (r: Option<string>)
    ensures r.None? <==> error.None?
    ensures r == Some(InUseAlert) <==> error == Some(CategoryInUse)
    ensures r == Some(DeleteFailedAlert) <==> error.Some? && error.value != CategoryInUse
  {
    match error
    case None => None
    case Some(message) => if message == CategoryInUse then Some(InUseAlert) else Some(DeleteFailedAlert)
  }

  /** The confirmed delete: the in-use alert appears exactly when a transaction uses the
      category, and then nothing is deleted. */
  method HandleDeleteCategory(store: DataService, category: Category) returns (alert: Option<string>)
    modifies store
    ensures alert == Some(InUseAlert) <==> exists j :: 0 <= j < |store.transactions| && store.transactions[j].categoryId == category.id
    ensures alert.None? ==> store.categories == Filter(old(store.categories), CategoryIdIsNot(category.id))
    ensures alert.Some? ==> store.categories == old(store.categories)
    ensures store.transactions == old(store.transactions)
  {
    var error := store.DeleteCategory(category.id);
    alert := DeleteAlert(error);
  }

  // ----- built-in categories

  /** `parseInt(category.id) <= 12`; NaN compares false. */
  predicate IsDefault(c: Category) {
    var v := JsParseInt(c.id);
    v.Some? && v.value <= 12
  }

  /** How a category row is rendered: with or without its edit and delete buttons, and
      whether it responds to presses. */
  datatype RowView = RowView(showActions: bool, disabled: bool)

  function RenderCategory(c: Category): (r: RowView)
    ensures r.showActions <==> !IsDefault(c)
    ensures r.disabled <==> IsDefault(c)
  {
    var isDefault := IsDefault(c);
    RowView(!isDefault, isDefault)
  }

  /** The twelve seeded categories are built-in, and an id written from a number above 12
      (such as a `Date.now()` id) is not; an id with no leading digits is not either. */
  lemma DefaultRule(c: Category, n: nat)
    ensures forall i :: 0 <= i < |DefaultCategories| ==> IsDefault(DefaultCategories[i])
    ensures c.id == NatToString(n) ==> (IsDefault(c) <==> n <= 12)
    ensures (forall i :: 0 <= i < |c.id| ==> !IsDigit(c.id[i])) ==> !IsDefault(c)
  {
    DefaultCategoriesShape();
    forall i | 0 <= i < |DefaultCategories| ensures IsDefault(DefaultCategories[i]) {
      ParseIntOfNumeral(i + 1);
    }
    if c.id == NatToString(n) {
      ParseIntOfNumeral(n);
    }
    if forall i :: 0 <= i < |c.id| ==> !IsDigit(c.id[i]) {
      ParseIntNoDigits(c.id);
    }
  }

  // ----- the two lists

  function IncomeCategories(cats: seq<Category>): seq<Category> {
    Filter(cats, CategoryIsKind(Income))
  }

  function ExpenseCategories(cats: seq<Category>): seq<Category> {
    Filter(cats, CategoryIsKind(Expense))
  }

  /** Each list is the subsequence of the categories of its type; a category of any other
      type is in neither; when every category is income or expense, the two lists together
      hold every category exactly as often. */
  lemma PartitionLists(cats: seq<Category>)
    ensures IsSubsequence(IncomeCategories(cats), cats) && IsSubsequence(ExpenseCategories(cats), cats)
    ensures forall c :: c in IncomeCategories(cats) <==> c in cats && c.kind == Income
    ensures forall c :: c in ExpenseCategories(cats) <==> c in cats && c.kind == Expense
    ensures (forall i :: 0 <= i < |cats| ==> cats[i].kind == Income || cats[i].kind == Expense)
            ==> multiset(IncomeCategories(cats)) + multiset(ExpenseCategories(cats)) == multiset(cats)
  {
    FilterIsSubsequence(cats, CategoryIsKind(Income));
    FilterIsSubsequence(cats, CategoryIsKind(Expense));
    FilterMembers(cats, CategoryIsKind(Income));
    FilterMembers(cats, CategoryIsKind(Expense));
    if forall i :: 0 <= i < |cats| ==> cats[i].kind == Income || cats[i].kind == Expense {
      var notIncome := (c: Category) => !CategoryIsKind(Income)(c);
      FilterSplitMultiset(cats, CategoryIsKind(Income), notIncome);
      FilterExt(cats, notIncome, CategoryIsKind(Expense));
    }
  }
}
