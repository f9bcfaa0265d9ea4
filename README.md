# BeyazBulut poetry site — a Dafny model of its services and page logic

BeyazBulut is a poetry-publishing single-page app. Readers browse poems by category, page
through them four at a time and like them. Admins sign in, edit poems and categories, and
generate poems with an AI model. The data lives in a hosted database.

This project models the logic that sits between the pages and the database:

- The `poems` and `categories` tables, as a class `PoemService.PoemStore` whose methods are the
  service calls. The main cases are `savePoem` (insert or update, decided by id length),
  `toggleLike`, and the three-step `deleteCategory`.
- The single-row `site_settings` and `seo_settings` tables. Each load falls back to defaults
  field by field, and each save updates the first row or inserts one.
- The admin session (`AuthService.AdminAuth`) and the outcome table of `login`.
- The category filter, the top-two-by-likes selection and the four-per-page pagination of the
  home and category pages.
- The handlers of the pages: the optimistic like counter, the poem records the editor and the
  AI generator build, and the guards of the sign-up, profile, admin-list and category forms.

Every backend call is a parameter: the reply it gives, or whether it succeeded. `window.confirm`,
`Date.now()`, today's date and the environment's API key are parameters too. A thrown exception
appears as a returned flag or outcome. JavaScript semantics are written out where they matter:
`||` on strings (`Text.OrDefault`), `.length` in UTF-16 code units (`Text.Utf16Length`),
`trim()` with the ECMAScript whitespace set (`Text.Trim`), the clamping `slice`
(`Listing.JsSlice`) and `Math.ceil(n / 4)` (`Listing.TotalPages`).

Some behaviours of the code are worth knowing; the model keeps each one as written:

- `getSettings` never reads, and `saveSettings` never writes, `aboutTextPrimary`,
  `aboutTextSecondary` or `geminiApiKey`. A key saved through the settings page therefore never
  reaches the AI page: `AIPoemGenerator.OnlyEnvKeyCounts` proves that only the environment's key
  decides `hasApiKey`.
- `deleteCategory('Kategorisiz')` moves that category's poems onto itself, then deletes the
  category. Its poems are left in a category that is not listed (`PoemService.DeleteFallbackOrphans`).
- `savePoem` decides "new" from `id.length > 10`. Any stored poem whose id is longer than ten
  characters is therefore saved as a new copy, not updated (`PoemEditor.SubmittedPoemRouting`).
- If the id query of `saveSettings` fails on a table that already has a row, the save inserts a
  second row, and later loads still read the first one (`SettingsService.SaveAfterFailedSelectIsNotSeen`).
- The server always increments a like. A click that "un-likes" a poem therefore ends one higher
  than before (`PoemCard.PoemCard.HandleLike`).

## Model

| member | source | states |
|---|---|---|
| Text.OrDefault | services/settingsService.ts:35-42 | `value \|\| fallback`: a present non-empty value wins; a missing or empty one gives the fallback |
| Text.Utf16Length | pages/admin/UserManager.tsx:33 | JavaScript `.length`: between one and two units per character, zero exactly for the empty string |
| Text.Utf16LengthBmp | pages/admin/UserManager.tsx:33 | for text without characters outside the BMP, `.length` is the number of characters |
| Text.TrimStart | pages/admin/CategoryManager.tsx:31 | leading whitespace removed: a suffix whose cut-off prefix is all whitespace |
| Text.TrimEnd | pages/admin/CategoryManager.tsx:31 | trailing whitespace removed: a prefix whose cut-off suffix is all whitespace |
| Text.Trim | pages/admin/CategoryManager.tsx:31-32 | `trim()`: a slice with whitespace only outside it, and no whitespace at either end |
| Text.TrimIdempotent | pages/admin/CategoryManager.tsx:32 | a trimmed name trims to itself |
| Text.TrimEmptyIffAllWhitespace | pages/admin/CategoryManager.tsx:31 | `trim()` is empty exactly when the text is all whitespace |
| Text.Pow10 | pages/admin/PoemEditor.tsx:60 | a helper for the digit-count bound: powers of ten are positive |
| Text.DecimalString | pages/admin/PoemEditor.tsx:60 | the timestamp id's text: at least one character, all decimal digits |
| Text.DecimalStringValue | pages/admin/PoemEditor.tsx:60 | `n.toString()` read back as a decimal number is `n` |
| Text.DecimalStringNoLeadingZero | pages/admin/PoemEditor.tsx:60 | `n.toString()` has no leading zero unless it is "0" |
| Text.DecimalStringLength | pages/admin/PoemEditor.tsx:60 | the decimal form of n has more than k digits exactly when n ≥ 10^k |
| Seqs.Filter | pages/HomePage.tsx:38 | `filter`: the kept elements, each as often as in the input, never longer |
| Seqs.FilterAppend | pages/HomePage.tsx:38 | filtering a concatenation concatenates the filtered parts, so order is kept |
| Seqs.FilterAll | pages/HomePage.tsx:36-38 | filtering with a condition everything meets gives the sequence back |
| Seqs.FilterDrops | pages/admin/UserManager.tsx:130 | filtering out an element that occurs shortens the sequence |
| Listing.InCategory | pages/CategoryPage.tsx:23 | exactly the poems of the category, each as often as in the input |
| Listing.FilteredPoems | pages/HomePage.tsx:36-38 | 'Tümü' gives all poems; any other selection gives exactly the poems of that category |
| Listing.InCategoryKeepsOrder | pages/HomePage.tsx:38 | the category filter keeps the original order |
| Listing.TotalPages | pages/HomePage.tsx:43 | `Math.ceil(n / 4)`: the least number of 4-poem pages that holds n poems |
| Listing.JsSlice | pages/HomePage.tsx:44-47 | `slice(start, end)` with JavaScript's negative and clamped bounds: never longer than the input, the plain slice when the bounds are in range |
| Listing.Page | pages/HomePage.tsx:44-47 | page p is at most 4 poems, non-empty for 1 ≤ p ≤ totalPages, empty past the last page |
| Listing.PagesUpToIsPrefix | pages/HomePage.tsx:44-47 | the first k pages together are the list's first 4k poems |
| Listing.PagesPartition | pages/CategoryPage.tsx:33-37 | pages 1..totalPages concatenated give back the whole list, in order |
| Listing.PageOfIndex | pages/CategoryPage.tsx:34-37 | the i-th poem is on page i/4 + 1, at position i mod 4 |
| Listing.InsertByLikes | pages/HomePage.tsx:41 | one insertion step of the sort: the same poems plus the new one |
| Listing.InsertByLikesSorted | pages/HomePage.tsx:41 | inserting into a list sorted by descending likes keeps it sorted |
| Listing.ConsDescending | pages/HomePage.tsx:41 | a poem liked at least as much as every other may lead a sorted list |
| Listing.SortByLikes | pages/HomePage.tsx:41 | `sort((a, b) => b.likes - a.likes)`: a permutation in descending order of likes |
| Listing.InsertByLikesTies | pages/HomePage.tsx:41 | an inserted poem goes ahead of every poem with as many likes, and the others with those likes keep their order |
| Listing.SortByLikesStable | pages/HomePage.tsx:41 | the sort is stable: for every like count, the poems with that count appear in their original order |
| Listing.MostLiked | pages/HomePage.tsx:41 | `slice(0, 2)` of the sorted copy: two poems, or all of them when there are fewer |
| Listing.MostLikedAreTop | pages/HomePage.tsx:41 | the chosen poems come from the list, and each has at least the likes of every poem left out |
| PoemService.IndexOf | services/poemService.ts:55-65 | the first row with the id, or none when no row has it |
| PoemService.ToggleReply | services/poemService.ts:83-102 | 0 when the fetch fails or the poem is missing; else the stored count, plus one when the update succeeds |
| PoemService.UpdateById | services/poemService.ts:55-65 | the update: every row with the poem's id becomes the poem, all other rows stay |
| PoemService.DeleteById | services/poemService.ts:74-81 | the delete: no row with the id is left, every other row stays with its multiplicity |
| PoemService.Recategorize | services/poemService.ts:139-144 | poems of `from` move to `to`, every other field and every other poem is unchanged, none is left in `from` |
| PoemService.RenameAll | services/poemService.ts:132-137 | the category rename: `from` becomes `to` wherever it occurs, nothing else changes |
| PoemService.RemoveName | services/poemService.ts:161-166 | the category delete: the name is gone, every other name stays |
| PoemService.PoemStore.constructor | services/poemService.ts:5-17 | a store over given tables with unique poem ids |
| PoemService.PoemStore.GetPoems | services/poemService.ts:5-17 | every stored poem, or none when the query fails |
| PoemService.PoemStore.GetPoemById | services/poemService.ts:19-31 | the poem with the id, or none when the query fails or no row has it |
| PoemService.PoemStore.GetCategories | services/poemService.ts:106-117 | the category names, or none when the query fails |
| PoemService.PoemStore.SavePoem | services/poemService.ts:33-72 | an id longer than 10 characters inserts the poem under the database's id; any other id updates that row; a failed write throws and changes nothing |
| PoemService.PoemStore.DeletePoem | services/poemService.ts:74-81 | removes exactly the rows with the id when the delete succeeds |
| PoemService.PoemStore.ToggleLike | services/poemService.ts:83-102 | returns the toggle reply; when fetch and update succeed, the poem's row takes the returned count and every other row is unchanged; otherwise nothing changes; likes never decrease |
| PoemService.PoemStore.AddCategory | services/poemService.ts:119-129 | a listed name is refused when the list query succeeds; otherwise (a failed list query reads as an empty list) exactly that name is appended when the insert succeeds |
| PoemService.PoemStore.UpdateCategory | services/poemService.ts:131-145 | a failed rename changes nothing; a rename moves the category's poems when the poem update succeeds |
| PoemService.PoemStore.DeleteCategory | services/poemService.ts:147-167 | adds 'Kategorisiz' if missing, moves the category's poems into it, then deletes the category |
| PoemService.DeleteCategoryList | services/poemService.ts:147-167 | 'Kategorisiz' is listed exactly when it was or its insert succeeded, unless it was the deleted name; the deleted name is gone; every other name stays |
| PoemService.DeleteCategoryMovesOrphans | services/poemService.ts:147-167 | when every step succeeds, no poem is left in the deleted category, and every poem's category is still listed if it was before |
| PoemService.DeleteFallbackOrphans | services/poemService.ts:147-167 | deleting 'Kategorisiz' itself leaves its poems in a category that is not listed |
| PoemService.DeleteKeepsUniqueIds | services/poemService.ts:74-81 | deleting rows keeps poem ids unique |
| PoemService.FilterKeepsUniqueIds | services/poemService.ts:74-81 | any filter of rows with unique ids has unique ids |
| PoemService.RecategorizeKeepsOthers | services/poemService.ts:139-144 | poems of other categories are untouched by a recategorisation |
| SettingsService.GetSettings | services/settingsService.ts:16-47 | defaults when the query fails or finds no row; never an empty mapped field; the three unmapped fields are never set |
| SettingsService.FirstRowColumnsWin | services/settingsService.ts:34-43 | each mapped field is the first row's column when it is truthy, and the default otherwise |
| SettingsService.Payload | services/settingsService.ts:51-60 | the eight fields one to one on their snake_case columns |
| SettingsService.SavedRows | services/settingsService.ts:63-79 | a failed write changes nothing; when the id query found a row, the first row becomes the payload under its own id and the rest stay; else the payload under the new id is appended |
| SettingsService.SaveThenLoad | services/settingsService.ts:34-43 | a save then a load gives each saved non-empty field back, the default for each empty one, and drops the three unmapped fields |
| SettingsService.SaveThenLoadNonEmpty | services/settingsService.ts:51-60 | settings with eight non-empty fields come back unchanged, except the three unmapped fields |
| SettingsService.SaveAfterFailedSelectIsNotSeen | services/settingsService.ts:63-79 | with a failed id query on a non-empty table, the next load reads what it read before |
| SettingsService.SettingsTable.SaveSettings | services/settingsService.ts:49-86 | returns true exactly when the write reports no error, and leaves the rows the save rule gives |
| SeoService.GetSeoSettings | services/seoService.ts:12-33 | defaults on failure or no row; three fields never empty; a stored og URL, even empty, is read back |
| SeoService.FirstSeoRowColumnsWin | services/seoService.ts:24-29 | each field is the first row's column when it is truthy, and the default otherwise |
| SeoService.SeoPayload | services/seoService.ts:36-41 | the four fields one to one on their snake_case columns |
| SeoService.SavedSeoRows | services/seoService.ts:43-57 | a failed write changes nothing; when a row was found, the first row becomes the payload under its own id and the rest stay; else the payload under the new id is appended |
| SeoService.SeoSaveThenLoad | services/seoService.ts:24-29 | a save then a load gives each non-empty field back, and the og URL back exactly |
| SeoService.SeoTable.SaveSeoSettings | services/seoService.ts:35-64 | returns true exactly when the write reports no error, and leaves the rows the save rule gives |
| AuthService.MatchingAdmin | services/authService.ts:37-49 | a row matching username and password when one exists, none exactly when no row matches both |
| AuthService.LoginDecision | services/authService.ts:13-76 | the outcome table of `login`: success exactly when a session is stored; each failure's message for RPC refusal, query error, unknown user, wrong password and exception |
| AuthService.RpcAnswerSkipsTable | services/authService.ts:24-34 | an RPC answer without error decides the outcome without looking at the table |
| AuthService.SetPassword | services/authService.ts:96-100 | the named admin's password changes, no other row and no other field |
| AuthService.AdminAuth.constructor | services/authService.ts:4-5 | a session with no stored keys |
| AuthService.AdminAuth.Login | services/authService.ts:13-76 | returns the decision; success stores the flag and the user; a failure leaves the session as it was |
| AuthService.AdminAuth.Logout | services/authService.ts:78-81 | afterwards not authenticated and no current user |
| AuthService.AdminAuth.ChangePassword | services/authService.ts:92-106 | with no current user or no username, returns false and changes nothing; else sets the password when the update succeeds |
| HomePage.HomePage.constructor | pages/HomePage.tsx:10-18 | no poems, 'Tümü' selected, page 1, loading |
| HomePage.HomePage.Loaded | pages/HomePage.tsx:20-34 | the fetched poems and categories, no longer loading, page 1 |
| HomePage.HomePage.HandlePageChange | pages/HomePage.tsx:49-54 | moves to the page only when 1 ≤ newPage ≤ totalPages, else nothing changes |
| HomePage.HomePage.SelectCategory | pages/HomePage.tsx:107-119 | any category button, 'Tümü' included, selects it and resets to page 1 |
| HomePage.ShownPageIsFilled | pages/HomePage.tsx:43-47 | the shown page holds at most 4 poems and is never empty while the filtered list is not; the showcase needs 'Tümü' and poems; pagination needs more than 4 poems |
| CategoryPage.CategoryPage.constructor | pages/CategoryPage.tsx:11-16 | no poems, page 1, loading |
| CategoryPage.CategoryPage.Fetch | pages/CategoryPage.tsx:18-31 | with a category, exactly its poems in fetched order and page 1; without one, nothing but the loading flag changes |
| CategoryPage.CategoryPage.HandlePageChange | pages/CategoryPage.tsx:39-44 | moves to the page only when 1 ≤ newPage ≤ totalPages |
| CategoryPage.FetchedCategoryIsPaged | pages/CategoryPage.tsx:33-37 | a fetched category's pages hold at most 4 poems and together give back its poems in order |
| PoemEditor.SubmittedPoem | pages/admin/PoemEditor.tsx:57-67 | the route id or a timestamp id, the author or 'Yönetici', the loaded date or today, the other fields as in the form |
| PoemEditor.TimestampIdIsNew | pages/admin/PoemEditor.tsx:60 | a timestamp from 10^10 ms on has more than 10 characters, so `savePoem` inserts it |
| PoemEditor.SubmittedPoemRouting | pages/admin/PoemEditor.tsx:60 | a new poem is always inserted; an edited poem is inserted anew exactly when its id is longer than 10 characters |
| PoemEditor.PoemEditor.constructor | pages/admin/PoemEditor.tsx:12-21 | an empty form with no likes |
| PoemEditor.PoemEditor.LoadData | pages/admin/PoemEditor.tsx:23-50 | signed out goes to /admin; the first category is preselected; an edited poem fills every field; an unknown id goes back to /admin |
| PoemEditor.PoemEditor.HandleSubmit | pages/admin/PoemEditor.tsx:52-77 | saves the record built from the form, goes to /admin exactly when the save does not throw, and clears the saving flag |
| AIPoemGenerator.OnlyEnvKeyCounts | pages/admin/AIPoemGenerator.tsx:41-50 | with settings from `getSettings`, `hasApiKey` holds exactly when the environment key is non-empty |
| AIPoemGenerator.GenerationInput | pages/admin/AIPoemGenerator.tsx:68-69 | a prompt that is all whitespace is replaced by the selected category and flagged; any other prompt is used as typed |
| AIPoemGenerator.AiPoem | pages/admin/AIPoemGenerator.tsx:88-96 | the saved poem: timestamp id, author 'Yapay Zeka (Gemini)', no likes, the final category and today's date |
| AIPoemGenerator.AIPoemGenerator.constructor | pages/admin/AIPoemGenerator.tsx:13-26 | nothing generated, key assumed present, checking |
| AIPoemGenerator.AIPoemGenerator.LoadInit | pages/admin/AIPoemGenerator.tsx:28-60 | `hasApiKey` is false exactly when both keys are empty; the first category preselects both categories |
| AIPoemGenerator.AIPoemGenerator.HandleGenerate | pages/admin/AIPoemGenerator.tsx:62-83 | asks with the chosen input; a result fills title, content and category; no result leaves them and `generatedData` empty |
| AIPoemGenerator.AIPoemGenerator.HandleSave | pages/admin/AIPoemGenerator.tsx:85-101 | nothing without a title and a content; otherwise saves the AI poem (inserted under the database's id, or updating by id for a clock below 10^10 ms) and goes to /admin unless the save throws |
| PoemCard.OptimisticLikes | components/PoemCard.tsx:44-45 | one less when it was liked, one more when it was not |
| PoemCard.PoemCard.constructor | components/PoemCard.tsx:16-18 | likes from the poem, not liked, not interactive |
| PoemCard.PoemCard.CheckAuth | components/PoemCard.tsx:20-31 | interactive exactly when signed in; the liked flag is read only then |
| PoemCard.PoemCard.HandleLike | components/PoemCard.tsx:33-52 | no change without interaction; else the flag flips, the optimistic count is ±1, the final count is the server's, the callback gets id and server count, an un-like ends one higher, and the store changes as toggleLike changes it |
| PoemDetailPage.PoemDetailPage.constructor | pages/PoemDetailPage.tsx:12-16 | no poem, no likes, loading |
| PoemDetailPage.PoemDetailPage.Fetch | pages/PoemDetailPage.tsx:18-38 | a fetched poem sets the likes; interaction follows the sign-in |
| PoemDetailPage.PoemDetailPage.HandleLike | pages/PoemDetailPage.tsx:40-53 | nothing without a poem or interaction; else the flag flips, ±1 optimistically, then the server's count, and the store changes as toggleLike changes it |
| PoemDetailPage.PoemDetailPage.HandleShare | pages/PoemDetailPage.tsx:55-70 | refused without interaction; a native share titled 'BeyazBulut - ' + title when supported and a poem is loaded; else the link is copied |
| RegisterPage.WithField | pages/auth/RegisterPage.tsx:19-21 | only the named field takes the value; every other field keeps its value |
| RegisterPage.RegisterPage.constructor | pages/auth/RegisterPage.tsx:9-17 | an empty form, no error, not loading |
| RegisterPage.RegisterPage.HandleChange | pages/auth/RegisterPage.tsx:19-21 | the form becomes the form with that one field changed |
| RegisterPage.RegisterPage.HandleRegister | pages/auth/RegisterPage.tsx:23-50 | a filled honeypot aborts silently before the password check; a password under 6 sets the error; else the sign-up call with email, password, name and username, then /login or the server's message or the default |
| ChangePassword.Rejection | pages/admin/ChangePassword.tsx:30-38 | an empty password passes both checks; a short non-empty one gives TooShort, whatever the confirmation; a long enough one that differs from the confirmation gives Mismatch; otherwise nothing |
| ChangePassword.ChangePasswordPage.constructor | pages/admin/ChangePassword.tsx:9-13 | an empty form, not saving |
| ChangePassword.ChangePasswordPage.Init | pages/admin/ChangePassword.tsx:15-24 | signed out goes to /admin; the session's username prefills the form |
| ChangePassword.ChangePasswordPage.HandleSubmit | pages/admin/ChangePassword.tsx:26-52 | a rejection makes no call; no session user throws with the saving flag set; else the call with the session's username, the edited username and the new password, /admin exactly on success |
| UserManager.OfferedDeletions | pages/admin/UserManager.tsx:130 | every admin but the signed-in one gets a delete button |
| UserManager.OwnRowHidden | pages/admin/UserManager.tsx:130 | when the signed-in admin is listed, fewer delete buttons than rows are shown |
| UserManager.UserManager.constructor | pages/admin/UserManager.tsx:9-15 | no admins, no user, an empty form |
| UserManager.UserManager.HandleAdd | pages/admin/UserManager.tsx:31-50 | a username under 3 or a password under 4 makes no call; success clears both fields and reloads; failure keeps them and reports 'Hata: ' + message |
| UserManager.UserManager.HandleDelete | pages/admin/UserManager.tsx:52-57 | the call is made only when confirmed, and the list reloaded only on success |
| CategoryManager.CategoryManager.constructor | pages/admin/CategoryManager.tsx:9-14 | no categories, an empty input, not editing |
| CategoryManager.CategoryManager.RefreshList | pages/admin/CategoryManager.tsx:24-27 | the list `getCategories` returns |
| CategoryManager.CategoryManager.HandleAdd | pages/admin/CategoryManager.tsx:29-40 | a blank name makes no call; else the trimmed name is added; success clears the input and refreshes; failure keeps the input |
| CategoryManager.CategoryManager.StartEdit | pages/admin/CategoryManager.tsx:42-45 | editing the category, with its name as the edit value |
| CategoryManager.CategoryManager.SaveEdit | pages/admin/CategoryManager.tsx:47-62 | an unchanged name leaves edit mode without a call; a confirmed rename leaves it and refreshes only when it succeeds |
| CategoryManager.CategoryManager.HandleRemove | pages/admin/CategoryManager.tsx:64-69 | once confirmed, the category delete of the store, then a refresh |

## Left out

- SQL ordering: `getPoems` orders by a locale date string, and the model returns the stored order.
  Which row a single-row query returns is taken to be the first one.
- Row-level security, the Supabase client, and network failures beyond a success flag per call.
- A poem row with NULL likes. `toggleLike` counts it as 0, while the model's likes are always integers.
- The Gemini call and the parsing of its reply: the generated poem, or none, is a parameter.
- The functions the pages import from the auth and poem services that services/authService.ts and
  services/poemService.ts do not define (`signUpPublic`, `getAllAdmins`, `addAdmin`, `deleteAdmin`, `updateAdminProfile`,
  `getPublicUser` from the auth service, `checkIsLiked` from the poem service). Only their
  replies are modelled.
- The JSON encoding of the stored user, and localStorage keys other than the two session keys.
- The Turkish-locale title search of the admin page, and all rendering, routing, alerts,
  scrolling and clipboard.
- Interleavings of asynchronous handlers. Each handler runs to completion with the replies it is
  given, and the category manager's un-awaited refresh is taken to finish before the next event.
- `Date.now()` and `toLocaleDateString('tr-TR')` are parameters. The model does not restrict the
  clock beyond `TimestampIdIsNew`'s bound of 10^10 ms.
- PoemService.PoemStore.SavePoem: requires that the database's generated id is not already a
  row id, which the database guarantees and the code relies on.
- HomePage.HomePage.HandlePageChange: requires that loading has finished, because the buttons are
  not rendered while loading.
