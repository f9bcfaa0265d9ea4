/** The AI poem page (pages/admin/AIPoemGenerator.tsx): the API-key check, the generation input
    and the record it saves. The generator itself is a reply passed in. */
module AIPoemGenerator {
  import opened Types
  import opened Text
  import opened PoemService
  import opened SettingsService

  const AI_AUTHOR := "Yapay Zeka (Gemini)"

  /** A poem the generator produced. */
  datatype Generated = Generated(title: string, content: string)

  /** `!(!key && !envKey)`: a non-empty key in the settings or in the environment. */
  predicate HasApiKey(settingsKey: Option<string>, envKey: string) {
    (settingsKey.Some? && settingsKey.value != "") || envKey != ""
  }

  /** Settings loaded by getSettings never carry a key, so only the environment's key counts. */
  lemma OnlyEnvKeyCounts(rows: seq<SettingsRow>, queryOk: bool, envKey: string)
    ensures HasApiKey(GetSettings(rows, queryOk).geminiApiKey, envKey) <==> envKey != ""
  {
  }

  /** handleGenerate's input: a prompt that is blank once trimmed is replaced by the selected
      category and flagged as a category; any other prompt is used as typed. */
  function GenerationInput(prompt: string, selectedCategory: string): (r: (string, bool))
    ensures r.1 <==> AllWhitespace(prompt)
    ensures r.0 == if r.1 then selectedCategory else prompt
  {
    TrimEmptyIffAllWhitespace(prompt);
    var useCategory := Utf16Length(Trim(prompt)) == 0;
    (if useCategory then selectedCategory else prompt, useCategory)
  }

  /** The record handleSave builds: a timestamp id, the AI author and no likes. */
  function AiPoem(now: nat, title: string, content: string, category: string, today: string): (p: Poem)
    ensures p.author == AI_AUTHOR && p.likes == 0 && p.category == category
    ensures p.title == title && p.content == content && p.date == today && p.id == DecimalString(now)
  {
    Poem(DecimalString(now), title, content, AI_AUTHOR, category, 0, today)
  }

  class AIPoemGenerator {
    var categories: seq<string>
    var prompt: string
    var selectedCategory: string
    var isGenerating: bool
    var generatedData: Option<Generated>
    var hasApiKey: bool
    var loadingCheck: bool
    var finalTitle: string
    var finalContent: string
    var finalCategory: string

    constructor ()
      ensures categories == [] && prompt == "" && selectedCategory == "" && generatedData == None
      ensures hasApiKey && loadingCheck && !isGenerating
      ensures finalTitle == "" && finalContent == "" && finalCategory == ""
    {
      categories := [];
      prompt, selectedCategory := "", "";
      isGenerating := false;
      generatedData := None;
      hasApiKey, loadingCheck := true, true;
      finalTitle, finalContent, finalCategory := "", "", "";
    }

    /** The load effect, with the replies of getCategories and getSettings and the environment key. */
    method LoadInit(authenticated: bool, cats: seq<string>, settings: SiteSettings, envKey: string)
      returns (toAdmin: bool)
      modifies this
      ensures toAdmin == !authenticated
      ensures !authenticated ==>
                categories == old(categories) && hasApiKey == old(hasApiKey) && loadingCheck == old(loadingCheck)
                && selectedCategory == old(selectedCategory) && finalCategory == old(finalCategory)
      ensures authenticated ==>
                categories == cats && !loadingCheck && hasApiKey == HasApiKey(settings.geminiApiKey, envKey)
                && selectedCategory == (if cats != [] then cats[0] else old(selectedCategory))
                && finalCategory == (if cats != [] then cats[0] else old(finalCategory))
      ensures prompt == old(prompt) && generatedData == old(generatedData)
      ensures finalTitle == old(finalTitle) && finalContent == old(finalContent)
      ensures isGenerating == old(isGenerating)
    {
      if !authenticated {
        return true;
      }
      loadingCheck := true;
      var key := settings.geminiApiKey;
      if !(key.Some? && key.value != "") && envKey == "" {
        hasApiKey := false;
      } else {
        hasApiKey := true;
      }
      categories := cats;
      if |cats| > 0 {
        selectedCategory := cats[0];
        finalCategory := cats[0];
      }
      loadingCheck := false;
      toAdmin := false;
    }

    /** handleGenerate, with `result` the generator's reply to the returned input: a poem fills the
        editable fields and takes the selected category; no poem leaves them as they were. */
    method HandleGenerate(result: Option<Generated>) returns (input: string, useCategory: bool)
      modifies this
      ensures input == GenerationInput(old(prompt), old(selectedCategory)).0
      ensures useCategory == GenerationInput(old(prompt), old(selectedCategory)).1
      ensures generatedData == result && !isGenerating
      ensures result.Some? ==>
                finalTitle == result.value.title && finalContent == result.value.content
                && finalCategory == selectedCategory
      ensures result.None? ==>
                finalTitle == old(finalTitle) && finalContent == old(finalContent) && finalCategory == old(finalCategory)
      ensures prompt == old(prompt) && selectedCategory == old(selectedCategory) && categories == old(categories)
      ensures hasApiKey == old(hasApiKey) && loadingCheck == old(loadingCheck)
    {
      var r := GenerationInput(prompt, selectedCategory);
      input, useCategory := r.0, r.1;
      isGenerating := true;
      generatedData := None;
      isGenerating := false;
      if result.Some? {
        generatedData := result;
        finalTitle := result.value.title;
        finalContent := result.value.content;
        finalCategory := selectedCategory;
      }
    }

    /** handleSave: nothing without a title and a content; otherwise saves the AI poem and goes to
        /admin, unless the save throws. */
    method HandleSave(now: nat, today: string, store: PoemStore, generatedId: string, writeOk: bool)
      returns (saved: Option<Poem>, toAdmin: bool)
      requires store.Valid()
      requires IsFrontendId(DecimalString(now)) ==> !HasId(store.poems, generatedId)
      modifies store
      ensures store.Valid() && store.categories == old(store.categories)
      ensures finalTitle == "" || finalContent == "" ==>
                saved == None && !toAdmin && store.poems == old(store.poems)
      ensures finalTitle != "" && finalContent != "" ==>
                saved == Some(AiPoem(now, finalTitle, finalContent, finalCategory, today)) && toAdmin == writeOk
      ensures finalTitle != "" && finalContent != "" && IsFrontendId(DecimalString(now)) ==>
                store.poems == if writeOk then old(store.poems) + [AiPoem(now, finalTitle, finalContent, finalCategory, today).(id := generatedId)]
                               else old(store.poems)
      ensures finalTitle != "" && finalContent != "" && !IsFrontendId(DecimalString(now)) ==>
                store.poems == if writeOk then UpdateById(old(store.poems), AiPoem(now, finalTitle, finalContent, finalCategory, today))
                               else old(store.poems)
    {
      if finalTitle == "" || finalContent == "" {
        return None, false;
      }
      var p := AiPoem(now, finalTitle, finalContent, finalCategory, today);
      var thrown := store.SavePoem(p, generatedId, writeOk);
      saved := Some(p);
      toAdmin := !thrown;
    }
  }
}
