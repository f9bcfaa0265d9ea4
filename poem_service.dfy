/** The `poems` and `categories` tables and the service calls on them (services/poemService.ts).
    Each backend reply is a parameter: an `ok` flag says whether the call reported an error. */
module PoemService {
  import opened Types
  import opened Seqs
  import opened Text

  /** The fallback category that orphaned poems are moved into. */
  const UNCATEGORIZED := "Kategorisiz"

  /** savePoem's test: an id longer than 10 characters is a client timestamp, so the poem is new. */
  predicate IsFrontendId(id: string) {
    Utf16Length(id) > 10
  }

  /** The first row with id `id`, if any. */
  function IndexOf(rows: seq<Poem>, id: string): (r: Option<nat>)
    ensures r.Some? ==> r.value < |rows| && rows[r.value].id == id
    ensures r.Some? ==> forall k :: 0 <= k < r.value ==> rows[k].id != id
    ensures r.None? ==> forall k :: 0 <= k < |rows| ==> rows[k].id != id
  {
    if rows == [] then None
    else if rows[0].id == id then Some(0)
    else match IndexOf(rows[1..], id)
      case None => None
      case Some(k) => Some(k + 1)
  }

  predicate HasId(rows: seq<Poem>, id: string) {
    IndexOf(rows, id).Some?
  }

  /** The primary key: no two rows share an id. */
  ghost predicate UniqueIds(rows: seq<Poem>) {
    forall i, j :: 0 <= i < j < |rows| ==> rows[i].id != rows[j].id
  }

  /** The like count stored for `id`. */
  function StoredLikes(rows: seq<Poem>, id: string): int
    requires HasId(rows, id)
  {
    rows[IndexOf(rows, id).value].likes
  }

  /** The reply of toggleLike: 0 when the poem cannot be fetched, else the stored count, plus one
      when the update succeeds. */
  function ToggleReply(rows: seq<Poem>, id: string, fetchOk: bool, updateOk: bool): (n: int)
    ensures !fetchOk || !HasId(rows, id) ==> n == 0
    ensures fetchOk && HasId(rows, id) ==> n == StoredLikes(rows, id) + (if updateOk then 1 else 0)
  {
    if !fetchOk || !HasId(rows, id) then 0
    else if updateOk then StoredLikes(rows, id) + 1
    else StoredLikes(rows, id)
  }

  /** Every poem's category is one of the listed categories. */
  ghost predicate CategoriesListed(rows: seq<Poem>, names: seq<string>) {
    forall p :: p in rows ==> p.category in names
  }

  /** The update of savePoem's second branch: every column except the id is overwritten,
      so a row whose id matches becomes `p` and every other row is untouched. */
  function UpdateById(rows: seq<Poem>, p: Poem): (r: seq<Poem>)
    ensures |r| == |rows|
    ensures forall i :: 0 <= i < |rows| ==> r[i] == if rows[i].id == p.id then p else rows[i]
  {
    seq(|rows|, i requires 0 <= i < |rows| =>
      if rows[i].id == p.id
      then rows[i].(title := p.title, content := p.content, author := p.author,
                    category := p.category, date := p.date, likes := p.likes)
      else rows[i])
  }

  /** `delete().eq('id', id)`: the rows with any other id, in order. */
  function DeleteById(rows: seq<Poem>, id: string): (r: seq<Poem>)
    ensures forall p :: p in r ==> p.id != id
    ensures forall p: Poem :: p.id != id ==> multiset(r)[p] == multiset(rows)[p]
  {
    Filter(rows, (p: Poem) => p.id != id)
  }

  /** `update({ category: to }).eq('category', from)`: the poems of `from` move to `to`;
      every other column and every other poem stays as it was. */
  function Recategorize(rows: seq<Poem>, from: string, to: string): (r: seq<Poem>)
    ensures |r| == |rows|
    ensures forall i :: 0 <= i < |rows| ==> r[i].category == (if rows[i].category == from then to else rows[i].category)
    ensures forall i :: 0 <= i < |rows| ==> r[i].(category := rows[i].category) == rows[i]
    ensures forall i :: 0 <= i < |rows| ==> r[i].id == rows[i].id
    ensures from != to ==> forall p :: p in r ==> p.category != from
  {
    seq(|rows|, i requires 0 <= i < |rows| =>
      if rows[i].category == from then rows[i].(category := to) else rows[i])
  }

  /** `update({ name: to }).eq('name', from)` on the categories table. */
  function RenameAll(names: seq<string>, from: string, to: string): (r: seq<string>)
    ensures |r| == |names|
    ensures forall i :: 0 <= i < |names| ==> r[i] == if names[i] == from then to else names[i]
    ensures from != to ==> from !in r
  {
    seq(|names|, i requires 0 <= i < |names| => if names[i] == from then to else names[i])
  }

  /** `delete().eq('name', name)` on the categories table. */
  function RemoveName(names: seq<string>, name: string): (r: seq<string>)
    ensures name !in r
    ensures forall c :: c != name ==> (c in r <==> c in names)
  {
    Filter(names, (c: string) => c != name)
  }

  /** The replies of the five backend calls deleteCategory makes: the list it reads, the list and
      the insert of the nested addCategory, the move of the poems and the delete of the row. */
  datatype DeleteCategoryReplies = DeleteCategoryReplies(
    listOk: bool, addListOk: bool, addInsertOk: bool, moveOk: bool, deleteOk: bool)

  class PoemStore {
    var poems: seq<Poem>
    var categories: seq<string>

    ghost predicate Valid()
      reads this
    {
      UniqueIds(poems)
    }

    constructor (poems: seq<Poem>, categories: seq<string>)
      requires UniqueIds(poems)
      ensures Valid() && this.poems == poems && this.categories == categories
    {
      this.poems := poems;
      this.categories := categories;
    }

    /** getPoems: every row, or none when the query fails (the date ordering is not modelled). */
    method GetPoems(queryOk: bool) returns (rows: seq<Poem>)
      ensures multiset(rows) == if queryOk then multiset(poems) else multiset{}
    {
      rows := if queryOk then poems else [];
    }

    /** getPoemById: the row with that id, or nothing when the query fails or no row matches. */
    method GetPoemById(id: string, queryOk: bool) returns (p: Option<Poem>)
      ensures p.Some? <==> queryOk && HasId(poems, id)
      ensures p.Some? ==> p.value in poems && p.value.id == id
    {
      var k := IndexOf(poems, id);
      p := if queryOk && k.Some? then Some(poems[k.value]) else None;
    }

    /** getCategories: the names, or none when the query fails. */
    method GetCategories(queryOk: bool) returns (names: seq<string>)
      ensures queryOk ==> names == categories
      ensures !queryOk ==> names == []
    {
      names := if queryOk then categories else [];
    }

    /** savePoem: a poem whose id is longer than 10 characters is inserted under the id the
        database generates; any other poem updates the row with its id. A failed write throws. */
    method SavePoem(poem: Poem, generatedId: string, writeOk: bool) returns (thrown: bool)
      requires Valid()
      requires IsFrontendId(poem.id) ==> !HasId(poems, generatedId)
      modifies this
      ensures Valid() && categories == old(categories)
      ensures thrown == !writeOk
      ensures !writeOk ==> poems == old(poems)
      ensures writeOk && IsFrontendId(poem.id) ==> poems == old(poems) + [poem.(id := generatedId)]
      ensures writeOk && !IsFrontendId(poem.id) ==> poems == UpdateById(old(poems), poem)
    {
      thrown := !writeOk;
      if writeOk {
        if IsFrontendId(poem.id) {
          poems := poems + [poem.(id := generatedId)];
        } else {
          poems := UpdateById(poems, poem);
        }
      }
    }

    /** deletePoem: removes the rows with that id; a failed delete is only logged. */
    method DeletePoem(id: string, deleteOk: bool)
      requires Valid()
      modifies this
      ensures Valid() && categories == old(categories)
      ensures poems == if deleteOk then DeleteById(old(poems), id) else old(poems)
    {
      if deleteOk {
        DeleteKeepsUniqueIds(poems, id);
        poems := DeleteById(poems, id);
      }
    }

    /** toggleLike: reads the count and stores it plus one. The reply is 0 when the poem cannot be
        fetched, the old count when the update fails and the new count otherwise. */
    method ToggleLike(id: string, fetchOk: bool, updateOk: bool) returns (count: int)
      requires Valid()
      modifies this
      ensures Valid() && categories == old(categories)
      ensures count == ToggleReply(old(poems), id, fetchOk, updateOk)
      ensures !fetchOk || !HasId(old(poems), id) ==> count == 0 && poems == old(poems)
      ensures fetchOk && HasId(old(poems), id) && !updateOk ==>
                count == StoredLikes(old(poems), id) && poems == old(poems)
      ensures fetchOk && HasId(old(poems), id) && updateOk ==>
                count == StoredLikes(old(poems), id) + 1 && HasId(poems, id) && StoredLikes(poems, id) == count
      ensures |poems| == |old(poems)|
      ensures forall i :: 0 <= i < |poems| ==>
                poems[i] == if fetchOk && updateOk && old(poems)[i].id == id then old(poems)[i].(likes := count)
                            else old(poems)[i]
      ensures forall i :: 0 <= i < |poems| ==> poems[i].likes >= old(poems)[i].likes
    {
      var k := IndexOf(poems, id);
      if !fetchOk || k.None? {
        return 0;
      }
      var newLikes := poems[k.value].likes + 1;
      if !updateOk {
        return poems[k.value].likes;
      }
      ghost var before := poems;
      poems := poems[k.value := poems[k.value].(likes := newLikes)];
      assert poems[k.value].id == id;
      assert forall i :: 0 <= i < |poems| ==> poems[i].id == before[i].id;
      assert forall i :: 0 <= i < |before| && before[i].id == id ==> i == k.value;
      assert IndexOf(poems, id) == k;
      count := newLikes;
    }

    /** addCategory: refuses a name the fetched list already holds, otherwise inserts it.
        A failed fetch reads as an empty list, so the duplicate check then sees nothing. */
    method AddCategory(name: string, listOk: bool, insertOk: bool) returns (added: bool)
      modifies this
      ensures poems == old(poems)
      ensures listOk && name in old(categories) ==> !added
      ensures added <==> !(listOk && name in old(categories)) && insertOk
      ensures categories == if added then old(categories) + [name] else old(categories)
    {
      var fetched := GetCategories(listOk);
      if name in fetched {
        return false;
      }
      if insertOk {
        categories := categories + [name];
      }
      added := insertOk;
    }

    /** updateCategory: renames the category rows, then moves their poems. Nothing changes when
        the rename fails; the reply is true only when both writes succeed. */
    method UpdateCategory(oldName: string, newName: string, renameOk: bool, moveOk: bool) returns (ok: bool)
      requires Valid()
      modifies this
      ensures Valid()
      ensures ok == (renameOk && moveOk)
      ensures categories == if renameOk then RenameAll(old(categories), oldName, newName) else old(categories)
      ensures poems == if renameOk && moveOk then Recategorize(old(poems), oldName, newName) else old(poems)
    {
      if !renameOk {
        return false;
      }
      categories := RenameAll(categories, oldName, newName);
      if moveOk {
        poems := Recategorize(poems, oldName, newName);
      }
      ok := moveOk;
    }

    /** deleteCategory: makes sure 'Kategorisiz' is listed, moves the category's poems into it and
        deletes the category. */
    method DeleteCategory(name: string, replies: DeleteCategoryReplies)
      requires Valid()
      modifies this
      ensures Valid()
      ensures poems == if replies.moveOk then Recategorize(old(poems), name, UNCATEGORIZED) else old(poems)
      ensures categories == CategoriesAfterDelete(old(categories), name, replies)
    {
      var cats := GetCategories(replies.listOk);
      if UNCATEGORIZED !in cats {
        var _ := AddCategory(UNCATEGORIZED, replies.addListOk, replies.addInsertOk);
      }
      assert categories == CategoriesAfterDelete(old(categories), name, replies.(deleteOk := false));
      if replies.moveOk {
        poems := Recategorize(poems, name, UNCATEGORIZED);
      }
      if replies.deleteOk {
        categories := RemoveName(categories, name);
      }
    }
  }

  /** The category list deleteCategory leaves: 'Kategorisiz' appended when the nested addCategory
      inserted it (which it does twice over when both list reads fail), then `name` removed. */
  ghost function CategoriesAfterDelete(names: seq<string>, name: string, replies: DeleteCategoryReplies): seq<string>
  {
    var added := replies.addInsertOk && (UNCATEGORIZED !in names || (!replies.listOk && !replies.addListOk));
    var listed := names + (if added then [UNCATEGORIZED] else []);
    if replies.deleteOk then RemoveName(listed, name) else listed
  }

  /** After deleteCategory(name): the fallback is listed unless the insert failed or it was the
      deleted category; `name` is gone; every other category is kept. */
  lemma DeleteCategoryList(names: seq<string>, name: string, replies: DeleteCategoryReplies)
    ensures var r := CategoriesAfterDelete(names, name, replies);
            && (UNCATEGORIZED in r <==>
                  (UNCATEGORIZED in names || replies.addInsertOk) && !(replies.deleteOk && name == UNCATEGORIZED))
            && (replies.deleteOk ==> name !in r)
            && (forall c :: c != name && c != UNCATEGORIZED ==> (c in r <==> c in names))
  {
  }

  /** After a successful deleteCategory(name) of any category but the fallback, no poem is left in
      `name`, poems of other categories are untouched, and if every poem's category was listed
      before, it still is. */
  lemma DeleteCategoryMovesOrphans(rows: seq<Poem>, names: seq<string>, name: string, replies: DeleteCategoryReplies)
    requires replies.moveOk && replies.deleteOk && name != UNCATEGORIZED
    requires UNCATEGORIZED in names || replies.addInsertOk
    ensures var after := Recategorize(rows, name, UNCATEGORIZED);
            && (forall p :: p in after ==> p.category != name)
            && (forall p :: p in rows && p.category != name ==> p in after)
            && (CategoriesListed(rows, names) ==> CategoriesListed(after, CategoriesAfterDelete(names, name, replies)))
  {
    var after := Recategorize(rows, name, UNCATEGORIZED);
    var listed := CategoriesAfterDelete(names, name, replies);
    DeleteCategoryList(names, name, replies);
    RecategorizeKeepsOthers(rows, name, UNCATEGORIZED);
    if CategoriesListed(rows, names) {
      forall p | p in after ensures p.category in listed {
        var i :| 0 <= i < |after| && after[i] == p;
        assert rows[i] in rows;
      }
    }
  }

  /** Deleting the fallback category itself leaves its poems in a category that is no longer listed. */
  lemma DeleteFallbackOrphans(rows: seq<Poem>, names: seq<string>, replies: DeleteCategoryReplies)
    requires replies.deleteOk
    ensures var after := if replies.moveOk then Recategorize(rows, UNCATEGORIZED, UNCATEGORIZED) else rows;
            forall p :: p in rows && p.category == UNCATEGORIZED ==>
              p in after && p.category !in CategoriesAfterDelete(names, UNCATEGORIZED, replies)
  {
    var after := if replies.moveOk then Recategorize(rows, UNCATEGORIZED, UNCATEGORIZED) else rows;
    forall p | p in rows && p.category == UNCATEGORIZED ensures p in after {
      var i :| 0 <= i < |rows| && rows[i] == p;
      assert after[i] == p;
    }
  }

  lemma DeleteKeepsUniqueIds(rows: seq<Poem>, id: string)
    requires UniqueIds(rows)
    ensures UniqueIds(DeleteById(rows, id))
  {
    FilterKeepsUniqueIds(rows, (p: Poem) => p.id != id);
  }

  lemma {:induction false} FilterKeepsUniqueIds(rows: seq<Poem>, keep: Poem -> bool)
    requires UniqueIds(rows)
    ensures UniqueIds(Filter(rows, keep))
  {
    if rows != [] {
      FilterKeepsUniqueIds(rows[1..], keep);
      var tail := Filter(rows[1..], keep);
      forall p | p in tail ensures p.id != rows[0].id {
        var j :| 0 <= j < |rows[1..]| && rows[1..][j] == p;
        assert rows[j + 1] == p;
      }
    }
  }

  /** A poem outside the moved category is still in the table after the move. */
  lemma RecategorizeKeepsOthers(rows: seq<Poem>, from: string, to: string)
    ensures forall p :: p in rows && p.category != from ==> p in Recategorize(rows, from, to)
  {
    var r := Recategorize(rows, from, to);
    forall p | p in rows && p.category != from ensures p in r {
      var i :| 0 <= i < |rows| && rows[i] == p;
      assert r[i] == p;
    }
  }
}
