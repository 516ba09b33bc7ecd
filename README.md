# StoriesViewModel pagination model

This project is a Dafny model of the shared view model behind the TaigaMobile
screens that list stories by status: `StoriesViewModel`. For each status column the
view model keeps a `StatusState` cursor (`currentPage`, `maxPage`). It also keeps
the list of statuses and the accumulated stories as tri-state results
(LOADING / SUCCESS / ERROR), plus the ids of the statuses being fetched and of
the statuses expanded in the UI.

- `kotlin.dfy` holds the Kotlin pieces the code relies on:
  - nullable values;
  - the 32-bit `Int` with `Int.MAX_VALUE`;
  - `List.minus(element)`, which removes the first occurrence only.
- `domain.dfy` holds the entities (`Status`, `Story`), the `Result` /
  `ResultStatus` pair and the outcome of one repository call.
- `stories_view_model.dfy` holds:
  - the cursor as a value (`Cursor`), with its lifecycle Open → Exhausted;
  - the specification functions for what `loadStatuses` installs and
    accumulates;
  - the mutable classes `StatusState` and `StoriesViewModel`. Their methods
    are proved against those functions.

`StoriesViewModel.Valid()` ties each cursor object to the ghost map `cursors` of cursor
values. It keeps every cursor within `0 <= currentPage <= maxPage`, with
`maxPage` either still `Int.MAX_VALUE` or frozen at `currentPage`. So the
`++currentPage` of `loadStories` never overflows the 32-bit `Int`. `Valid()`
also keeps `visibleStatusIds` free of duplicates.

The repository is a function the caller passes in:
- `StatusSource` answers `getStatuses(sprintId)`;
- `StoryPages` answers `getStories(statusId, page, sprintId)`.

Each answer is either the fetched list or `Failed`, which stands for a thrown
exception. Because of this, every contract can name the exact request that was
made: the status id, the page number and the sprint id.

## Model

| member | source | states |
|---|---|---|
| Kotlin.RemoveFirst | app/src/main/java/io/eugenethedev/taigamobile/ui/commons/StoriesViewModel.kt:71 | `list - x` leaves a list without `x` unchanged and otherwise is one shorter; it keeps every other element and adds none |
| Kotlin.RemoveFirstElements | app/src/main/java/io/eugenethedev/taigamobile/ui/commons/StoriesViewModel.kt:71 | removing a present id takes away exactly one occurrence (multiset difference) |
| Kotlin.RemoveFirstNoDuplicates | app/src/main/java/io/eugenethedev/taigamobile/ui/commons/StoriesViewModel.kt:77 | on a duplicate-free list, `minus` removes the element altogether and keeps the list duplicate-free |
| Kotlin.RemoveFirstAt | app/src/main/java/io/eugenethedev/taigamobile/ui/commons/StoriesViewModel.kt:71 | `minus` cuts out exactly the first index holding the element |
| Kotlin.RemoveFirstAppended | app/src/main/java/io/eugenethedev/taigamobile/ui/commons/StoriesViewModel.kt:59-71 | appending an absent id and then removing it gives back the same list |
| Kotlin.RemoveFirstAppendedElements | app/src/main/java/io/eugenethedev/taigamobile/ui/commons/StoriesViewModel.kt:59-71 | appending an id and then removing it restores the multiset of loading ids, even when the id was already present |
| Kotlin.OrEmpty | app/src/main/java/io/eugenethedev/taigamobile/ui/commons/StoriesViewModel.kt:63 | `orEmpty()` on a nullable list: the list itself when present, the empty list for null |
| Domain.DataOrEmpty | app/src/main/java/io/eugenethedev/taigamobile/ui/commons/StoriesViewModel.kt:63 | `stories.value?.data.orEmpty()`: the data of a result that has some, and the empty list for a null channel or null data |
| Commons.Cursor.AfterFetch | app/src/main/java/io/eugenethedev/taigamobile/ui/commons/StoriesViewModel.kt:62-69 | a fetch keeps the cursor valid and advances the page by exactly 1; the cursor ends exhausted exactly when the page came back empty or the counter reached `Int.MAX_VALUE`; any answer but an empty page keeps `maxPage` |
| Commons.Cursor.Exhausted | app/src/main/java/io/eugenethedev/taigamobile/ui/commons/StoriesViewModel.kt:56-57 | the stop condition `currentPage == maxPage` of `loadStories`; `AfterFetch` states when a fetch makes it true |
| Commons.Cursor.Step | app/src/main/java/io/eugenethedev/taigamobile/ui/commons/StoriesViewModel.kt:56-65 | one `loadStories` leaves an exhausted cursor as it is and otherwise advances its page by 1, keeping it valid |
| Commons.Run | app/src/main/java/io/eugenethedev/taigamobile/ui/commons/StoriesViewModel.kt:55-73 | repeated `loadStories` calls keep the cursor valid and never move its page counter backwards |
| Commons.ExhaustedIsTerminal | app/src/main/java/io/eugenethedev/taigamobile/ui/commons/StoriesViewModel.kt:57 | once exhausted, no later call changes the cursor |
| Commons.RunAdvances | app/src/main/java/io/eugenethedev/taigamobile/ui/commons/StoriesViewModel.kt:62-65 | while no page is empty, n calls advance the page by exactly n and leave `maxPage` at `Int.MAX_VALUE`, up to and including a last fetch of page `Int.MAX_VALUE` |
| Commons.EmptyPageStops | app/src/main/java/io/eugenethedev/taigamobile/ui/commons/StoriesViewModel.kt:64-65 | the first empty page freezes `maxPage` at that page; the cursor is exhausted from then on whatever follows |
| Commons.Fresh | app/src/main/java/io/eugenethedev/taigamobile/ui/commons/StoriesViewModel.kt:29-32 | a new `StatusState()`: page 0 and `maxPage = Int.MAX_VALUE`; it is open (not exhausted), and `StatusState.constructor` produces it |
| Commons.InstalledAt | app/src/main/java/io/eugenethedev/taigamobile/ui/commons/StoriesViewModel.kt:29-45 | every fetched status ends with a fresh `(0, Int.MAX_VALUE)` cursor that has fetched page 1, whatever it had before; every other status keeps its cursor |
| Commons.Installed | app/src/main/java/io/eugenethedev/taigamobile/ui/commons/StoriesViewModel.kt:43-45 | the cursor table after the `onEach` folded over the list: its keys are the old keys plus every listed status |
| Commons.LoadingAfterFirstPages | app/src/main/java/io/eugenethedev/taigamobile/ui/commons/StoriesViewModel.kt:59-71 | the loading ids after the first-page load of each listed status, in order: append the id, then remove its first occurrence |
| Commons.LoadingRestored | app/src/main/java/io/eugenethedev/taigamobile/ui/commons/StoriesViewModel.kt:59-71 | those loads keep every loading id exactly as often as before, and restore the exact list when no listed id was loading |
| Commons.OnEachStep | app/src/main/java/io/eugenethedev/taigamobile/ui/commons/StoriesViewModel.kt:43-46 | one more `onEach` iteration installs one more fresh cursor, appends that status's first page to the stories (or keeps them and publishes ERROR when the request failed) and appends and removes its id in the loading list |
| Commons.FirstPagesAccumulate | app/src/main/java/io/eugenethedev/taigamobile/ui/commons/StoriesViewModel.kt:36-63 | the stories `loadStatuses` publishes are all fetched first pages in list order, with nothing dropped; the data stays null exactly when every first-page request failed |
| Commons.FirstPageItemsAppend | app/src/main/java/io/eugenethedev/taigamobile/ui/commons/StoriesViewModel.kt:63 | one more status appends its fetched first page at the end of the accumulated items |
| Commons.FirstPages | app/src/main/java/io/eugenethedev/taigamobile/ui/commons/StoriesViewModel.kt:38-46 | the story data after the `onEach` folded over the list, each successful first page appended to the data so far (null as empty), and a failed one left out |
| Commons.FirstPageItems | app/src/main/java/io/eugenethedev/taigamobile/ui/commons/StoriesViewModel.kt:63 | the reference for `FirstPages`: the fetched first pages concatenated head first |
| Commons.StatusesAfterFirstPages | app/src/main/java/io/eugenethedev/taigamobile/ui/commons/StoriesViewModel.kt:43-68 | the status result after the first-page loads over the list: ERROR when the last request failed, otherwise what the loads before it left |
| Commons.FirstPageErrors | app/src/main/java/io/eugenethedev/taigamobile/ui/commons/StoriesViewModel.kt:43-68 | the first-page loads publish ERROR on the status result exactly when some request failed, and leave it untouched when every request came back |
| Commons.SomeFirstPageFetchedLast | app/src/main/java/io/eugenethedev/taigamobile/ui/commons/StoriesViewModel.kt:43-46 | some first page of the list came back exactly when one of all but the last did, or the last one did |
| Commons.OpenAndExhaustedAfterFirstPages | app/src/main/java/io/eugenethedev/taigamobile/ui/commons/StoriesViewModel.kt:43-65 | with two statuses whose first pages hold some items and no items, the stories are the first status's items; the first status stays open at page 1 and the second is exhausted at page 1 |
| Commons.Toggle | app/src/main/java/io/eugenethedev/taigamobile/ui/commons/StoriesViewModel.kt:76-80 | an absent id is appended; a present id makes the list one shorter; no other id is added or lost |
| Commons.ToggleNoDuplicates | app/src/main/java/io/eugenethedev/taigamobile/ui/commons/StoriesViewModel.kt:75-81 | on a duplicate-free list the id is expanded after the click exactly when it was not before, and the list stays duplicate-free |
| Commons.ToggleTwice | app/src/main/java/io/eugenethedev/taigamobile/ui/commons/StoriesViewModel.kt:75-81 | two clicks restore the membership of every id, and restore the exact list when the id was collapsed |
| Commons.StatusState.constructor | app/src/main/java/io/eugenethedev/taigamobile/ui/commons/StoriesViewModel.kt:29-32 | a new cursor starts at page 0 with `maxPage = Int.MAX_VALUE` |
| Commons.StatusState.NextPage | app/src/main/java/io/eugenethedev/taigamobile/ui/commons/StoriesViewModel.kt:62 | `++currentPage` on a cursor below its `maxPage`: the page goes up by exactly 1, the new number is the one requested, and `maxPage` is kept |
| Commons.StatusState.Freeze | app/src/main/java/io/eugenethedev/taigamobile/ui/commons/StoriesViewModel.kt:65 | `maxPage = currentPage`: the cursor becomes exhausted at its current page |
| Commons.StoriesViewModel.constructor | app/src/main/java/io/eugenethedev/taigamobile/ui/commons/StoriesViewModel.kt:21-34 | both results and the sprint id start null; the cursor map and both id lists start empty |
| Commons.StoriesViewModel.WillFetch | app/src/main/java/io/eugenethedev/taigamobile/ui/commons/StoriesViewModel.kt:56-57 | whether `loadStories(status)` makes a request: the status has a cursor and it is not exhausted; `LoadStories` changes nothing when it is false |
| Commons.StoriesViewModel.LoadStories | app/src/main/java/io/eugenethedev/taigamobile/ui/commons/StoriesViewModel.kt:55-73 | nothing changes when the status has no cursor or its cursor is exhausted. Otherwise the request is for page `currentPage + 1` with the current sprint id, and the cursor moves by `Cursor.Step` of the answer, so the lifecycle lemmas about `Run` apply to successive calls. On success the stories become SUCCESS holding the old data (null as empty) followed by the page, and the statuses are kept. On failure the statuses become ERROR with the common message, and the stories are kept. The loading list becomes `(old + id) - id`, which is exactly the old list when the id was absent |
| Commons.StoriesViewModel.FetchNextPage | app/src/main/java/io/eugenethedev/taigamobile/ui/commons/StoriesViewModel.kt:61-69 | the `try` block: the page increment stays on failure, and the stories, statuses and cursor change as for `LoadStories` |
| Commons.StoriesViewModel.LoadStatuses | app/src/main/java/io/eugenethedev/taigamobile/ui/commons/StoriesViewModel.kt:36-53 | on failure: statuses are ERROR with the common message; stories are SUCCESS with no data; cursors and loading ids are unchanged. On success: statuses hold exactly the fetched list; stories are `FirstPages` of it; cursors are `Installed`; each listed status has a new cursor object; other cursors keep their objects. The loading list is `LoadingAfterFirstPages` of the old one. So it holds the same ids as often as before, and it is exactly the old list when no listed id was loading |
| Commons.StoriesViewModel.InstallAll | app/src/main/java/io/eugenethedev/taigamobile/ui/commons/StoriesViewModel.kt:43-46 | the `onEach` over the whole list, starting from the empty success result, gives `FirstPages`, `Installed`, `LoadingAfterFirstPages` and `StatusesAfterFirstPages`, with a new object per listed status and the old objects of the other statuses kept |
| Commons.StoriesViewModel.InstallNext | app/src/main/java/io/eugenethedev/taigamobile/ui/commons/StoriesViewModel.kt:43-46 | the `onEach` applied to the status after the first `i` extends `FirstPages`, `Installed`, `LoadingAfterFirstPages` and `StatusesAfterFirstPages` from the first `i` statuses to the first `i + 1`, with a new object for that status |
| Commons.StoriesViewModel.InstallStatus | app/src/main/java/io/eugenethedev/taigamobile/ui/commons/StoriesViewModel.kt:44-45 | one `onEach` step replaces the status's cursor by a new one and loads page 1. The cursor becomes `Fresh.AfterFetch` of that answer, the stories and statuses change as for `LoadStories`, and the loading list becomes `(old + id) - id` |
| Commons.StoriesViewModel.AddFreshCursor | app/src/main/java/io/eugenethedev/taigamobile/ui/commons/StoriesViewModel.kt:44 | `statusesStates[status] = StatusState()`: a new object in the map whose value is the fresh cursor; no other entry changes |
| Commons.StoriesViewModel.StatusClick | app/src/main/java/io/eugenethedev/taigamobile/ui/commons/StoriesViewModel.kt:75-81 | the expanded list becomes `Toggle` of the old one; the id is expanded exactly when it was not; the list stays duplicate-free |
| Commons.StoriesViewModel.Reset | app/src/main/java/io/eugenethedev/taigamobile/ui/commons/StoriesViewModel.kt:83-90 | the sprint id and both results become null; the cursor map and both id lists become empty. This is the constructor's state, so a later `LoadStatuses` starts from the same state as a first one |

## Left out

- Coroutines. `loadStories` is a `viewModelScope.launch`. The model runs each
  launched body to completion where it is launched, and statuses are loaded in
  list order. So, in `LoadStatuses`, a first-page failure's ERROR
  (`StatusesAfterFirstPages`, which `InstallAll` ensures) is overwritten by the
  SUCCESS list published at the end. With the real dispatcher, each launch
  suspends at `getStories`, the list is published first, and a later failure's
  ERROR stays. Fetches of different statuses interleaving in other orders, and
  overlapping fetches for one status, are not modelled either.
- The stories repository and its network calls are not modelled. They are the
  function parameters `StatusSource` and `StoryPages`. Exceptions are `Failed`.
  Because `StoryPages` is a function of the request arguments, repeated
  identical requests get identical answers: a status id listed twice gets the
  same page-1 answer both times, where the real repository makes two separate
  network calls.
  The `Timber.w` logging is not modelled.
- `MutableLiveData` / `MutableLiveResult` are plain fields, and their observers
  are not modelled.
- `loadingStatusIds` and `visibleStatusIds` are never null: they start empty and
  `reset` empties them. So their `.orEmpty()` is the list itself.
- `R.string.common_error_message` is the constant `CommonErrorMessage` (1).
- Dagger injection (`@Inject`) is not modelled.
- Display fields of `Status` and `Story` are reduced to one `name` / `title`
  string each.
- `Long` ids are unbounded integers; they are only compared, never computed.
- Subclasses are not modelled: how they set `sprintId` and how they override
  the `open` `reset`. In the model only `Reset` writes `sprintId`.
- `app/build.gradle.kts` (build configuration) is not part of this model.
