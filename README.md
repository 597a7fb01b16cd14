# Catalog admin panel — Dafny model

This project models the logic of a small client-side admin panel for a catalog
of media entries ("collections") in three categories: video, audio and hadist.
It covers:

- the in-memory store that owns the list of entries and adds, updates,
  deletes and looks them up (`src/lib/store.ts`, types in `src/lib/types.ts`);
- the browse page's search, category filter, per-category groups and counts,
  default tab and two-step delete confirmation (`src/pages/Collections.tsx`);
- the feedback page's newest-first sort, pages of five, previous/next/page
  navigation, page-number and ellipsis rule, and star rating
  (`src/pages/Feedback.tsx`);
- the create and edit pages' forms: the initial form, single-field updates,
  the required-field check and the submit that calls the store
  (`src/pages/Create.tsx`, `src/pages/Edit.tsx`).

Layout, one module per source file:

| file | module | models |
|---|---|---|
| types.dfy | `Types` | `Category`, `Collection`, `CollectionFormData`, the record spreads used by the store |
| seqs.dfy | `Seqs` | `Array.prototype.filter` and what it keeps (shared by delete, search, grouping, sort stability) |
| store.dfy | `Store` | the store as a class `CollectionStore` with a `seq<Collection>` field, specified by pure functions |
| collections.dfy | `CollectionsView` | search and filter rules, groups, counts, tabs; `CollectionsPage` holds the delete dialog state |
| feedback.dfy | `FeedbackView` | sort, pagination, page controls, stars; `FeedbackPage` holds `currentPage` |
| form.dfy | `Form` | the form rules the two form pages share |
| create.dfy | `Create` | `CreatePage` |
| edit.dfy | `Edit` | `EditPage` |

The clock (`new Date()`) and the id generator (`generateId`, a random
base-36 token of up to 7 characters) are parameters of the operations that
use them: `now: Time` and `newId: string`. Identifier uniqueness is therefore stated under the
hypothesis that the generated id is fresh. Navigation is an abstract
outcome (`Stay` or `NavigateTo(path)`). JavaScript truthiness of an optional
string (`if (collectionToDelete)`, `if (id)`) is `Truthy`: present and not
empty.

The model follows the code: update and delete of a missing id silently
change nothing (no not-found result); `link` is a required field; the
submit handler's check requires title, link, cover image and speaker but
not the summary (native form validation is not modelled, see below); an
update sets `updatedAt` to the current time with no guarantee that it grows.

## Model

| member | source | states |
|---|---|---|
| Types.CategoryName | src/lib/types.ts:2 | each category is one of the three string literals "video", "audio", "hadist" |
| Types.ParseCategory | src/lib/types.ts:2 | a string reads back as a category only when it is that category's literal; any other string is no category |
| Types.CategoryRoundTrip | src/lib/types.ts:2 | every category survives the trip to its literal and back |
| Types.FormOf | src/lib/types.ts:16 | the form data of an entry is exactly its fields minus id, createdAt, updatedAt: with those three it rebuilds the entry |
| Types.NewCollection | src/lib/store.ts:55-60 | a new entry has the form data's fields, the generated id, and createdAt = updatedAt = now |
| Types.Apply | src/lib/store.ts:73-78 | an updated entry has all form fields from the data, keeps id and createdAt, and has updatedAt = now |
| Types.ApplyOwnForm | src/lib/store.ts:73-78 | applying an entry's own form data changes only its updatedAt |
| Store.Find | src/lib/store.ts:94-96 | lookup returns nothing iff no entry has the id, else the entry at the first position holding the id |
| Store.UpdateWhere | src/lib/store.ts:70-81 | the updated list has the same length and order; each entry with the id is rewritten by `Apply`, every other entry is unchanged |
| Store.RemoveId | src/lib/store.ts:86-89 | the list after a delete is never longer than before |
| Store.Seed | src/lib/store.ts:18-52 | the store's initial list is three entries, video, audio and hadist in that order, with ids "sample1", "sample2", "sample3", and createdAt = updatedAt = the creation time |
| Store.SampleVideo | src/lib/store.ts:19-29 | the first sample entry: id "sample1", category video, both timestamps the creation time |
| Store.SampleAudio | src/lib/store.ts:30-40 | the second sample entry: id "sample2", category audio, both timestamps the creation time |
| Store.SampleHadist | src/lib/store.ts:41-51 | the third sample entry: id "sample3", category hadist, both timestamps the creation time |
| Store.SeedShape | src/lib/store.ts:18-52 | the store starts with three entries, one per category, with distinct ids and ordered timestamps |
| Store.AddThenFind | src/lib/store.ts:54-67 | a freshly added entry is found under the id it was given |
| Store.AddKeepsIdsDistinct | src/lib/store.ts:57-63 | ids stay pairwise distinct after an add whose generated id is fresh |
| Store.AddThenDelete | src/lib/store.ts:62-88 | deleting the id of a freshly added entry gives back exactly the list before the add |
| Store.UpdateKeepsIds | src/lib/store.ts:72-80 | an update changes no id, so distinct ids stay distinct |
| Store.UpdateMissing | src/lib/store.ts:72-80 | an update for an id that is not present leaves the list unchanged |
| Store.UpdateThenFind | src/lib/store.ts:72-80 | after an update, looking the id up gives the old entry with the new form fields and updatedAt = now |
| Store.FindAt | src/lib/store.ts:95 | lookup returns the entry at the first position that holds the id |
| Store.FirstPosition | src/lib/store.ts:95 | when the id is present, the entry lookup returns sits at a position holding the id with no earlier position holding it |
| Store.UpdateKeepsTimesOrdered | src/lib/store.ts:77 | createdAt ≤ updatedAt is kept by an update when the clock has not gone back |
| Store.DeleteExact | src/lib/store.ts:88 | delete keeps, in order and with their multiplicity, exactly the entries whose id differs; none with the id remains |
| Store.DeleteIdempotent | src/lib/store.ts:88 | a second delete of the same id changes nothing |
| Store.DeleteThenFind | src/lib/store.ts:86-96 | after a delete, looking the id up finds nothing |
| Store.DeleteLength | src/lib/store.ts:88 | with distinct ids a delete removes exactly one entry if the id is present, and nothing otherwise |
| Store.DeleteKeepsIdsDistinct | src/lib/store.ts:88 | a delete keeps identifiers pairwise distinct |
| Store.DeleteKeepsTimesOrdered | src/lib/store.ts:88 | a delete keeps createdAt ≤ updatedAt for every remaining entry |
| Store.AddKeepsTimesOrdered | src/lib/store.ts:55-63 | an add keeps createdAt ≤ updatedAt, the new entry having both equal |
| Store.CollectionStore.constructor | src/lib/store.ts:17-52 | the store starts with the three sample entries, whose ids are distinct and whose timestamps are ordered |
| Store.CollectionStore.AddCollection | src/lib/store.ts:54-68 | prepends the new entry (tail is exactly the old list), returns its id, keeps ids distinct when the id is fresh, keeps createdAt ≤ updatedAt |
| Store.CollectionStore.UpdateCollection | src/lib/store.ts:70-84 | the list becomes `UpdateWhere` of the old list; a missing id leaves it unchanged; distinct ids stay distinct; createdAt ≤ updatedAt is kept when the clock is no earlier than any createdAt |
| Store.CollectionStore.DeleteCollection | src/lib/store.ts:86-92 | the list becomes `RemoveId` of the old list and no entry with the id remains; distinct ids and createdAt ≤ updatedAt are kept |
| Store.CollectionStore.GetCollection | src/lib/store.ts:94-96 | returns an entry of the list with that id, or nothing exactly when none has it |
| CollectionsView.LowerChar | src/pages/Collections.tsx:87 | an upper-case ASCII letter becomes the lower-case letter at the same alphabet position; every other character is unchanged |
| CollectionsView.Lower | src/pages/Collections.tsx:87-89 | lowercasing keeps the length and lowercases each character in place |
| CollectionsView.LowerIdempotent | src/pages/Collections.tsx:87-89 | lowercasing twice is lowercasing once |
| CollectionsView.Includes | src/pages/Collections.tsx:87-89 | `includes` holds iff the needle occurs at some position of the haystack |
| CollectionsView.MatchesSearch | src/pages/Collections.tsx:87-89 | an entry matches the search iff the lowercased term is a substring of its lowercased title, speaker or summary |
| CollectionsView.MatchesCategory | src/pages/Collections.tsx:91 | an entry matches the filter iff the filter is "all" or reads back as the entry's category |
| CollectionsView.FilterCollections | src/pages/Collections.tsx:85-95 | an entry is in the filtered list iff it is in the list and matches both the search and the category filter; never longer than the list |
| CollectionsView.FilterCollectionsExact | src/pages/Collections.tsx:85-95 | an entry is kept iff it matches both the category filter and the search; the result is an order-preserving subsequence keeping multiplicities |
| CollectionsView.EmptySearchKeepsAll | src/pages/Collections.tsx:85-95 | with an empty search term and the filter "all" the filter returns its input unchanged |
| CollectionsView.SearchIgnoresCase | src/pages/Collections.tsx:87-89 | searching for the lowercased term finds exactly what the term finds |
| CollectionsView.ByCategory | src/pages/Collections.tsx:46-48 | an entry is in a category's group iff it is in the list and has that category |
| CollectionsView.ByCategoryExact | src/pages/Collections.tsx:46-48 | a group keeps list order and holds each entry of its category as often as the list does |
| CollectionsView.CountCategory | src/pages/Collections.tsx:41-43 | a category count is the number of list positions holding an entry of that category |
| CollectionsView.CountsSum | src/pages/Collections.tsx:41-43 | videoCount + audioCount + hadistCount equals the number of entries |
| CollectionsView.FilteredGroupIsPart | src/pages/Collections.tsx:97-100 | a filtered group equals the category's part of the all-filtered list: only that category, all in the all-filtered list, in its order |
| CollectionsView.OtherGroupEmpty | src/pages/Collections.tsx:97-99 | when the filter names another category, a group's filtered list is empty |
| CollectionsView.DefaultTab | src/pages/Collections.tsx:103-108 | the default tab is the filter when it names a category and "all" otherwise; it is always one of the four tabs |
| CollectionsView.TabContents | src/pages/Collections.tsx:338-373 | a tab shows exactly the filtered entries, restricted to the tab's category when the tab names one |
| CollectionsView.DefaultTabShowsAllMatches | src/pages/Collections.tsx:324-373 | the tab opened by default shows exactly the all-filtered list |
| CollectionsView.CollectionsPage.constructor | src/pages/Collections.tsx:22-23 | no pending id and the dialog closed |
| CollectionsView.CollectionsPage.HandleDelete | src/pages/Collections.tsx:27-30 | records the pending id and opens the dialog, without touching the store |
| CollectionsView.CollectionsPage.ConfirmDelete | src/pages/Collections.tsx:32-38 | with a pending (non-empty) id: deletes it from the store, closes the dialog, clears the id; otherwise changes nothing |
| CollectionsView.CollectionsPage.CloseDialog | src/pages/Collections.tsx:381 | closes the dialog and keeps the pending id |
| FeedbackView.Insert | src/pages/Feedback.tsx:129 | inserting into a newest-first list gives a newest-first list with one more occurrence of the entry |
| FeedbackView.SortNewestFirst | src/pages/Feedback.tsx:129 | the sorted list is a permutation of the input ordered by non-increasing date |
| FeedbackView.InsertStable | src/pages/Feedback.tsx:129 | insertion puts the entry ahead of the entries of its own date and leaves other dates alone |
| FeedbackView.SortIsStable | src/pages/Feedback.tsx:129 | the sort is stable: entries of any one date keep their input order |
| FeedbackView.TotalPages | src/pages/Feedback.tsx:136 | totalPages = ceil(n/5): the fewest pages of five that hold n entries |
| FeedbackView.SliceIndex | src/pages/Feedback.tsx:137-140 | slice reads a non-negative index clamped to the length |
| FeedbackView.JsSlice | src/pages/Feedback.tsx:137-140 | a slice is never longer than the list |
| FeedbackView.CurrentItems | src/pages/Feedback.tsx:137-140 | page p ≥ 1 shows the entries at positions (p-1)·5 up to min(p·5, n), nothing past the end; any page number shows at most five entries |
| FeedbackView.PagesAreAPrefix | src/pages/Feedback.tsx:137-140 | pages 1..k together are the first min(5k, n) entries |
| FeedbackView.AllPagesGiveTheList | src/pages/Feedback.tsx:136-140 | concatenating pages 1..totalPages gives back the sorted list |
| FeedbackView.PreviousPage | src/pages/Feedback.tsx:234 | previous gives max(p-1, 1) |
| FeedbackView.NextPage | src/pages/Feedback.tsx:280 | next gives min(p+1, totalPages) |
| FeedbackView.ShowsPagination | src/pages/Feedback.tsx:225 | the bar is rendered iff there is a page 2 |
| FeedbackView.ShowsPrevious | src/pages/Feedback.tsx:228 | the previous button is rendered iff it moves exactly one page back |
| FeedbackView.ShowsNext | src/pages/Feedback.tsx:274 | the next button is rendered iff it moves exactly one page on |
| FeedbackView.NavigationStaysInRange | src/pages/Feedback.tsx:228-284 | from a page in 1..totalPages, previous and next stay in 1..totalPages |
| FeedbackView.ButtonsMoveOnePage | src/pages/Feedback.tsx:225-284 | a rendered previous or next button moves exactly one page, and a rendered bar shows at least one of them |
| FeedbackView.ControlFor | src/pages/Feedback.tsx:242-271 | a page is a link iff it is page 1, page totalPages or within one of the current page, and a link carries its page and is active iff it is the current page; otherwise it is an ellipsis iff it is page 2 with the current page past 3 or page totalPages-1 with the current page before totalPages-2, and nothing else |
| FeedbackView.Controls | src/pages/Feedback.tsx:240 | one control per page number 1..totalPages, in order: control i is the rule's control for page i+1 |
| FeedbackView.LinksAtEndsAndCurrent | src/pages/Feedback.tsx:242-260 | pages 1 and totalPages always get a link; the current page gets the only active link |
| FeedbackView.AtMostFiveLinks | src/pages/Feedback.tsx:242-246 | at most five page numbers get a link, however many pages there are |
| FeedbackView.HiddenPagesAreMarked | src/pages/Feedback.tsx:263-269 | a hidden page before the current one means page 2 is an ellipsis; one after means page totalPages-1 is |
| FeedbackView.FilledCount | src/pages/Feedback.tsx:143-151 | no more filled stars than stars |
| FeedbackView.RenderStarRating | src/pages/Feedback.tsx:143-153 | exactly 5 stars, star i filled iff i ≤ rating, min(max(rating,0),5) filled |
| FeedbackView.FeedbackPage.constructor | src/pages/Feedback.tsx:30 | the page starts on page 1 |
| FeedbackView.FeedbackPage.CurrentView | src/pages/Feedback.tsx:129-140 | the entries on the page being viewed are at most five |
| FeedbackView.FeedbackPage.Previous | src/pages/Feedback.tsx:234 | currentPage becomes `PreviousPage` of the old page and stays in range |
| FeedbackView.FeedbackPage.Next | src/pages/Feedback.tsx:280 | currentPage becomes `NextPage` of the old page and stays in range |
| FeedbackView.FeedbackPage.GoToPage | src/pages/Feedback.tsx:254 | clicking a rendered page link sets currentPage to that page, within range |
| Form.SetField | src/pages/Create.tsx:31-36 | a change sets the named field and leaves every other field and the category unchanged |
| Form.SetCategory | src/pages/Create.tsx:38-40 | a category change sets the category and leaves every text field unchanged |
| Form.InitialFormData | src/pages/Create.tsx:16-23 | the initial form has category video and every text field empty |
| Form.IsComplete | src/pages/Create.tsx:47 | a form passes the submit check iff every required field (title, link, coverImage, speaker) is non-empty; src/pages/Edit.tsx:67 is the same check |
| Form.SummaryAndCategoryNotChecked | src/pages/Create.tsx:47 | changing the summary or the category never changes whether a form passes |
| Form.InitialFormRejected | src/pages/Create.tsx:16-51 | submitting the initial form unchanged is rejected |
| Form.FillingRequiredFieldsPasses | src/pages/Create.tsx:47 | filling the four required fields with non-empty text makes any form pass |
| Create.CreatePage.constructor | src/pages/Create.tsx:28-29 | the page opens with the initial form and is not submitting |
| Create.CreatePage.HandleChange | src/pages/Create.tsx:31-36 | only the named field changes |
| Create.CreatePage.HandleCategoryChange | src/pages/Create.tsx:38-40 | only the category changes |
| Create.CreatePage.HandleSubmit | src/pages/Create.tsx:42-62 | rejected with the store untouched iff a required field is empty; otherwise the form is added unchanged and the page goes to the list; not submitting afterwards |
| Edit.ResubmitOnlyTouchesUpdatedAt | src/pages/Edit.tsx:34-75 | with distinct ids, loading an entry and submitting its form unchanged only refreshes that entry's updatedAt |
| Edit.EditPage.constructor | src/pages/Edit.tsx:22-30 | the page opens with the empty form and is not submitting |
| Edit.EditPage.Load | src/pages/Edit.tsx:32-49 | a found id fills the form with exactly that entry's six fields; a missing one leaves it and goes to the list; no id does nothing |
| Edit.EditPage.HandleChange | src/pages/Edit.tsx:51-56 | only the named field changes |
| Edit.EditPage.HandleCategoryChange | src/pages/Edit.tsx:58-60 | only the category changes |
| Edit.EditPage.HandleSubmit | src/pages/Edit.tsx:62-85 | an incomplete form or no id leaves the store untouched; otherwise the store's update runs with the id and the form and the page goes to the list; not submitting afterwards |

## Left out

- Rendering, JSX, animations, class strings, icons and category colours (`getCategoryIcon`, `getCategoryColor`), and the avatar fallback initials: presentation only.
- Toast notifications and the routing library: calls into libraries that are not part of this model; navigation is kept only as its target path.
- The zustand `create`/`set`/`get` plumbing: the store is a plain class whose field the operations reassign.
- `Math.random` and `new Date()`: the id and the time are parameters. The two `new Date()` calls in `addCollection` are taken as one instant, so createdAt = updatedAt; likewise the six `new Date()` calls of the sample entries (src/lib/store.ts:27-50) are all the one creation time `now` of `Seed`.
- Store.CollectionStore.AddCollection: uniqueness of ids is stated only for a fresh generated id; the random base-36 token of up to 7 characters (possibly fewer, even empty) and its collision chance are not modelled.
- CollectionsView.Lower: lowercases the ASCII letters only; JavaScript's `toLowerCase` also maps other Unicode letters.
- FeedbackView.RenderStarRating: ratings are integers; the source's number type would also allow a fractional rating.
- FeedbackView.FeedbackPage.CurrentView: states the five-entry bound only; the entries themselves are given by `CurrentItems`.
- The average rating and its rounding (src/pages/Feedback.tsx:132-133): floating point.
- Date formatting with `toLocaleDateString` and `Intl.DateTimeFormat`: locale library calls.
- The hard-coded feedback list and its date parsing: the feedback page takes its list as a parameter.
- Native browser form validation: every input of both form pages carries the HTML `required` attribute (src/pages/Create.tsx:89, src/pages/Edit.tsx:112 and siblings), so a browser would stop a submit with any empty field, the summary included, before `handleSubmit` runs; the model covers only the handler's own check (src/pages/Create.tsx:47, src/pages/Edit.tsx:67).
- The `try`/`catch` branches of the two submit handlers: the modelled store operations cannot fail.
- The search box and category select setters: plain assignments of the typed value.
- src/components/Navbar.tsx, src/components/Layout.tsx, src/components/DeleteConfirmation.tsx (beyond its close action) and src/pages/Index.tsx: static layout.
