/** The category page (pages/admin/CategoryManager.tsx): adding a trimmed name, renaming through
    an edit mode and removing, all through the poem store. */
module CategoryManager {
  import opened Types
  import opened Text
  import opened PoemService

  class CategoryManager {
    var categories: seq<string>
    var newCategoryName: string
    var editingCategory: Option<string>
    var editCategoryValue: string

    constructor ()
      ensures categories == [] && newCategoryName == "" && editingCategory == None && editCategoryValue == ""
    {
      categories := [];
      newCategoryName := "";
      editingCategory := None;
      editCategoryValue := "";
    }

    /** refreshList: the list getCategories returns. */
    method RefreshList(store: PoemStore, queryOk: bool)
      modifies this
      ensures categories == if queryOk then store.categories else []
      ensures newCategoryName == old(newCategoryName) && editingCategory == old(editingCategory)
      ensures editCategoryValue == old(editCategoryValue)
    {
      categories := store.GetCategories(queryOk);
    }

    /** handleAdd: a name that is blank once trimmed makes no call; otherwise the trimmed name is
        added, and success clears the input and refreshes the list. */
    method HandleAdd(store: PoemStore, listOk: bool, insertOk: bool, refreshOk: bool) returns (called: Option<string>)
      modifies this, store
      ensures store.poems == old(store.poems)
      ensures called.None? <==> AllWhitespace(old(newCategoryName))
      ensures called.None? ==>
                store.categories == old(store.categories) && newCategoryName == old(newCategoryName)
                && categories == old(categories)
      ensures called.Some? ==> called.value == Trim(old(newCategoryName)) && called.value != ""
      ensures called.Some? ==>
                var added := !(listOk && called.value in old(store.categories)) && insertOk;
                store.categories == (if added then old(store.categories) + [called.value] else old(store.categories))
                && newCategoryName == (if added then "" else old(newCategoryName))
                && categories == (if !added then old(categories) else if refreshOk then store.categories else [])
      ensures editingCategory == old(editingCategory) && editCategoryValue == old(editCategoryValue)
    {
      var name := Trim(newCategoryName);
      TrimEmptyIffAllWhitespace(newCategoryName);
      if name == "" {
        return None;
      }
      var success := store.AddCategory(name, listOk, insertOk);
      called := Some(name);
      if success {
        newCategoryName := "";
        RefreshList(store, refreshOk);
      }
    }

    method StartEdit(cat: string)
      modifies this
      ensures editingCategory == Some(cat) && editCategoryValue == cat
      ensures categories == old(categories) && newCategoryName == old(newCategoryName)
    {
      editingCategory := Some(cat);
      editCategoryValue := cat;
    }

    /** saveEdit: an unchanged name leaves edit mode without a call; a confirmed change renames
        the category and its poems, leaving edit mode only on success. */
    method SaveEdit(oldName: string, confirmed: bool, store: PoemStore, renameOk: bool, moveOk: bool, refreshOk: bool)
      returns (called: bool)
      requires store.Valid()
      modifies this, store
      ensures store.Valid()
      ensures called <==> oldName != old(editCategoryValue) && confirmed
      ensures oldName == old(editCategoryValue) ==> editingCategory == None && categories == old(categories)
      ensures !called ==> store.poems == old(store.poems) && store.categories == old(store.categories)
      ensures called ==>
                store.categories == (if renameOk then RenameAll(old(store.categories), oldName, old(editCategoryValue))
                                     else old(store.categories))
                && store.poems == (if renameOk && moveOk then Recategorize(old(store.poems), oldName, old(editCategoryValue))
                                   else old(store.poems))
      ensures called && renameOk && moveOk ==>
                editingCategory == None && categories == (if refreshOk then store.categories else [])
      ensures oldName != old(editCategoryValue) && !(called && renameOk && moveOk) ==>
                editingCategory == old(editingCategory) && categories == old(categories)
      ensures editCategoryValue == old(editCategoryValue) && newCategoryName == old(newCategoryName)
    {
      if oldName == editCategoryValue {
        editingCategory := None;
        return false;
      }
      if !confirmed {
        return false;
      }
      called := true;
      var success := store.UpdateCategory(oldName, editCategoryValue, renameOk, moveOk);
      if success {
        editingCategory := None;
        RefreshList(store, refreshOk);
      }
    }

    /** handleRemove: once confirmed, deletes the category (its poems move to 'Kategorisiz') and
        refreshes the list. */
    method HandleRemove(cat: string, confirmed: bool, store: PoemStore, replies: DeleteCategoryReplies, refreshOk: bool)
      requires store.Valid()
      modifies this, store
      ensures store.Valid()
      ensures !confirmed ==>
                store.poems == old(store.poems) && store.categories == old(store.categories) && categories == old(categories)
      ensures confirmed ==>
                store.poems == (if replies.moveOk then Recategorize(old(store.poems), cat, UNCATEGORIZED) else old(store.poems))
                && store.categories == CategoriesAfterDelete(old(store.categories), cat, replies)
                && categories == (if refreshOk then store.categories else [])
      ensures newCategoryName == old(newCategoryName) && editingCategory == old(editingCategory)
      ensures editCategoryValue == old(editCategoryValue)
    {
      if confirmed {
        store.DeleteCategory(cat, replies);
        RefreshList(store, refreshOk);
      }
    }
  }
}
