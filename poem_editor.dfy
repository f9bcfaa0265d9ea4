/** The admin's poem form (pages/admin/PoemEditor.tsx): prefilled from the edited poem, and turned
    into the Poem record savePoem receives. */
module PoemEditor {
  import opened Types
  import opened Text
  import opened PoemService

  const DEFAULT_AUTHOR := "Yönetici"

  /** The record handleSubmit builds: the route id, or the `Date.now()` timestamp for a new poem;
      'Yönetici' for an empty author; today's date when none was loaded. */
  function SubmittedPoem(routeId: Option<string>, title: string, content: string, author: string,
                         category: string, likes: int, date: string, now: nat, today: string): (p: Poem)
    ensures routeId.Some? && routeId.value != "" ==> p.id == routeId.value
    ensures routeId.None? || routeId.value == "" ==> p.id == DecimalString(now)
    ensures author != "" ==> p.author == author
    ensures author == "" ==> p.author == DEFAULT_AUTHOR
    ensures p.date == if date != "" then date else today
    ensures p.title == title && p.content == content && p.category == category && p.likes == likes
  {
    Poem(
      if routeId.Some? && routeId.value != "" then routeId.value else DecimalString(now),
      title,
      content,
      if author != "" then author else DEFAULT_AUTHOR,
      category,
      likes,
      if date != "" then date else today)
  }

  /** A timestamp id of any instant from 10^10 ms after the epoch on (April 1970) has more than
      10 digits, so savePoem treats the poem as new and inserts it. */
  lemma TimestampIdIsNew(now: nat)
    requires now >= Pow10(10)
    ensures IsFrontendId(DecimalString(now))
  {
    DecimalStringLength(now, 10);
    Utf16LengthBmp(DecimalString(now));
  }

  /** A new poem from the form is inserted; an edited poem keeps its id, and is updated in place
      only when that id has at most 10 characters. */
  lemma SubmittedPoemRouting(routeId: Option<string>, title: string, content: string, author: string,
                             category: string, likes: int, date: string, now: nat, today: string)
    requires now >= Pow10(10)
    ensures var p := SubmittedPoem(routeId, title, content, author, category, likes, date, now, today);
            (routeId.None? || routeId.value == "" ==> IsFrontendId(p.id))
            && (routeId.Some? && routeId.value != "" ==> (IsFrontendId(p.id) <==> Utf16Length(routeId.value) > 10))
  {
    TimestampIdIsNew(now);
  }

  class PoemEditor {
    var categories: seq<string>
    var title: string
    var content: string
    var author: string
    var selectedCategory: string
    var likes: int
    var date: string
    var isSaving: bool

    constructor ()
      ensures categories == [] && title == "" && content == "" && author == "" && selectedCategory == ""
      ensures likes == 0 && date == "" && !isSaving
    {
      categories := [];
      title, content, author, selectedCategory := "", "", "", "";
      likes := 0;
      date := "";
      isSaving := false;
    }

    /** The load effect: an unauthenticated admin is sent to /admin; otherwise the categories are
        set, the first one preselected, and an edited poem fills the form. An id with no poem
        sends the admin back to /admin. */
    method LoadData(authenticated: bool, cats: seq<string>, routeId: Option<string>, fetched: Option<Poem>)
      returns (toAdmin: bool)
      modifies this
      ensures !authenticated ==>
                toAdmin && categories == old(categories) && selectedCategory == old(selectedCategory)
                && title == old(title) && content == old(content) && author == old(author)
                && likes == old(likes) && date == old(date)
      ensures authenticated ==> categories == cats
      ensures authenticated ==> toAdmin == (routeId.Some? && routeId.value != "" && fetched.None?)
      ensures authenticated && routeId.Some? && routeId.value != "" && fetched.Some? ==>
                var p := fetched.value;
                title == p.title && content == p.content && author == p.author
                && selectedCategory == p.category && likes == p.likes && date == p.date
      ensures authenticated && !(routeId.Some? && routeId.value != "" && fetched.Some?) ==>
                title == old(title) && content == old(content) && author == old(author)
                && likes == old(likes) && date == old(date)
                && selectedCategory == if cats != [] then cats[0] else old(selectedCategory)
      ensures isSaving == old(isSaving)
    {
      if !authenticated {
        return true;
      }
      categories := cats;
      if |cats| > 0 {
        selectedCategory := cats[0];
      }
      toAdmin := false;
      if routeId.Some? && routeId.value != "" {
        if fetched.Some? {
          var p := fetched.value;
          title := p.title;
          content := p.content;
          author := p.author;
          selectedCategory := p.category;
          likes := p.likes;
          date := p.date;
        } else {
          toAdmin := true;
        }
      }
    }

    function Submitted(routeId: Option<string>, now: nat, today: string): Poem
      reads this
    {
      SubmittedPoem(routeId, title, content, author, selectedCategory, likes, date, now, today)
    }

    /** handleSubmit: saves the record built from the form, and goes to /admin unless the save throws. */
    method HandleSubmit(routeId: Option<string>, now: nat, today: string,
                        store: PoemStore, generatedId: string, writeOk: bool) returns (saved: Poem, toAdmin: bool)
      requires store.Valid()
      requires IsFrontendId(Submitted(routeId, now, today).id) ==> !HasId(store.poems, generatedId)
      modifies this, store
      ensures store.Valid() && store.categories == old(store.categories)
      ensures saved == old(Submitted(routeId, now, today))
      ensures toAdmin == writeOk && !isSaving
      ensures !writeOk ==> store.poems == old(store.poems)
      ensures writeOk && IsFrontendId(saved.id) ==> store.poems == old(store.poems) + [saved.(id := generatedId)]
      ensures writeOk && !IsFrontendId(saved.id) ==> store.poems == UpdateById(old(store.poems), saved)
      ensures title == old(title) && content == old(content) && author == old(author)
      ensures selectedCategory == old(selectedCategory) && likes == old(likes) && date == old(date)
      ensures categories == old(categories)
    {
      isSaving := true;
      saved := Submitted(routeId, now, today);
      var thrown := store.SavePoem(saved, generatedId, writeOk);
      toAdmin := !thrown;
      isSaving := false;
    }
  }
}
