/**
 * The per-status pagination state machine of `StoriesViewModel`: a table of
 * cursors keyed by status, the accumulated story list, the status list, and
 * the ids of the statuses being fetched and of the statuses expanded in the UI.
 */
module Commons {
  import opened Kotlin
  import opened Domain

  /** The value of one `StatusState` cursor. */
  datatype Cursor = Cursor(currentPage: int32, maxPage: int32) {

    /**
     * The page counter never passes `maxPage`, and `maxPage` is either still
     * `Int.MAX_VALUE` or was frozen at the page counter.
     */
    predicate Valid() {
      0 <= currentPage <= maxPage && (maxPage == IntMaxValue || maxPage == currentPage)
    }

    /** The stop condition of `loadStories`. */
    predicate Exhausted() {
      currentPage == maxPage
    }

    /** The cursor after a fetch of the next page that came back with `answer`. */
    function AfterFetch(answer: Outcome<seq<Story>>): (r: Cursor)
      requires Valid() && !Exhausted()
      ensures r.Valid()
      ensures r.currentPage as int == currentPage as int + 1
      ensures r.Exhausted() <==> answer == Fetched([]) || r.currentPage == IntMaxValue
      ensures answer != Fetched([]) ==> r.maxPage == maxPage
    {
      var page := currentPage + 1;
      Cursor(page, if answer == Fetched([]) then page else maxPage)
    }

    /** One `loadStories` call on this cursor, whose fetch (if any) answers `answer`. */
    function Step(answer: Outcome<seq<Story>>): (r: Cursor)
      requires Valid()
      ensures r.Valid()
      ensures Exhausted() ==> r == this
      ensures !Exhausted() ==> r.currentPage as int == currentPage as int + 1
    {
      if Exhausted() then this else AfterFetch(answer)
    }
  }

  /** A newly constructed `StatusState`. */
  const Fresh: Cursor := Cursor(0, IntMaxValue)

  /** Successive `loadStories` calls on one cursor, the i-th fetch answering `answers[i]`. */
  function Run(c: Cursor, answers: seq<Outcome<seq<Story>>>): (r: Cursor)
    requires c.Valid()
    ensures r.Valid()
    ensures c.currentPage <= r.currentPage
    decreases |answers|
  {
    if answers == [] then c else Run(c.Step(answers[0]), answers[1..])
  }

  /** An exhausted cursor is terminal: no later call fetches or changes it. */
  lemma {:induction false} ExhaustedIsTerminal(c: Cursor, answers: seq<Outcome<seq<Story>>>)
    requires c.Valid() && c.Exhausted()
    ensures Run(c, answers) == c
    decreases |answers|
  {
    if answers != [] {
      ExhaustedIsTerminal(c, answers[1..]);
    }
  }

  /**
   * While no page comes back empty, each call advances the page counter by
   * exactly one and leaves `maxPage` at `Int.MAX_VALUE`.
   */
  lemma {:induction false} RunAdvances(c: Cursor, answers: seq<Outcome<seq<Story>>>)
    requires c.Valid() && c.maxPage == IntMaxValue
    requires c.currentPage as int + |answers| <= IntMaxValue as int
    requires forall i :: 0 <= i < |answers| ==> answers[i] != Fetched([])
    ensures Run(c, answers) == Cursor((c.currentPage as int + |answers|) as int32, IntMaxValue)
    decreases |answers|
  {
    if answers != [] {
      var next := c.Step(answers[0]);
      assert next == Cursor(c.currentPage + 1, IntMaxValue);
      RunAdvances(next, answers[1..]);
    }
  }

  /** An empty page ends the status for good: after it the cursor never moves again. */
  lemma {:induction false} EmptyPageStops(c: Cursor, before: seq<Outcome<seq<Story>>>, after: seq<Outcome<seq<Story>>>)
    requires c.Valid() && !Run(c, before).Exhausted()
    ensures Run(c, before + [Fetched([])] + after) == Run(c, before).AfterFetch(Fetched([]))
    ensures Run(c, before + [Fetched([])] + after).Exhausted()
    decreases |before|
  {
    if before == [] {
      assert [Fetched([])] + after == before + [Fetched([])] + after;
      ExhaustedIsTerminal(c.AfterFetch(Fetched([])), after);
    } else {
      assert (before + [Fetched([])] + after)[1..] == before[1..] + [Fetched([])] + after;
      EmptyPageStops(c.Step(before[0]), before[1..], after);
    }
  }

  /**
   * The cursor table after `loadStatuses` installed a fresh cursor for each
   * status of `list`, in order, and loaded its first page.
   */
  function Installed(cursors: map<Status, Cursor>, list: seq<Status>, pages: StoryPages, sprintId: Option<int>): (r: map<Status, Cursor>)
    ensures r.Keys == cursors.Keys + set s | s in list
    decreases |list|
  {
    if list == [] then cursors
    else
      var last := list[|list| - 1];
      Installed(cursors, list[..|list| - 1], pages, sprintId)[last := Fresh.AfterFetch(GetStories(pages, last.id, 1, sprintId))]
  }

  /**
   * Every status of the list ends with a fresh cursor that has fetched page 1
   * (whatever it had before), and every other status keeps its cursor.
   */
  lemma {:induction false} InstalledAt(cursors: map<Status, Cursor>, list: seq<Status>, pages: StoryPages, sprintId: Option<int>, s: Status)
    ensures s in list ==> s in Installed(cursors, list, pages, sprintId)
                          && Installed(cursors, list, pages, sprintId)[s] == Fresh.AfterFetch(GetStories(pages, s.id, 1, sprintId))
    ensures s !in list ==> (s in Installed(cursors, list, pages, sprintId) <==> s in cursors)
    ensures s !in list && s in cursors ==> Installed(cursors, list, pages, sprintId)[s] == cursors[s]
    decreases |list|
  {
    if list != [] {
      var init := list[..|list| - 1];
      assert list == init + [list[|list| - 1]];
      InstalledAt(cursors, init, pages, sprintId, s);
    }
  }

  /**
   * The loading ids after `loadStatuses` loaded the first page of each status
   * of `list`, in order: each load appends the id and then removes its first
   * occurrence.
   */
  function LoadingAfterFirstPages(ids: seq<int>, list: seq<Status>): (r: seq<int>)
    decreases |list|
  {
    if list == [] then ids
    else
      var last := list[|list| - 1];
      RemoveFirst(LoadingAfterFirstPages(ids, list[..|list| - 1]) + [last.id], last.id)
  }

  /**
   * The first-page loads of `loadStatuses` leave the same loading ids, each
   * as often as before, and leave the list itself as it was when none of the
   * listed ids was loading.
   */
  lemma {:induction false} LoadingRestored(ids: seq<int>, list: seq<Status>)
    ensures multiset(LoadingAfterFirstPages(ids, list)) == multiset(ids)
    ensures (forall j :: 0 <= j < |list| ==> list[j].id !in ids) ==> LoadingAfterFirstPages(ids, list) == ids
    decreases |list|
  {
    if list != [] {
      var init, last := list[..|list| - 1], list[|list| - 1];
      LoadingRestored(ids, init);
      RemoveFirstAppendedElements(LoadingAfterFirstPages(ids, init), last.id);
      if forall j :: 0 <= j < |list| ==> list[j].id !in ids {
        assert forall j :: 0 <= j < |init| ==> init[j].id == list[j].id;
        RemoveFirstAppended(ids, last.id);
      }
    }
  }

  /** The first `i + 1` statuses are the first `i` followed by the next one. */
  lemma PrefixExtends<T>(list: seq<T>, i: nat)
    requires i < |list|
    ensures list[..i + 1] == list[..i] + [list[i]]
  {
  }

  /** The story list `loadStatuses` accumulates from the first pages of `list`, in order. */
  function FirstPages(list: seq<Status>, pages: StoryPages, sprintId: Option<int>): (r: Option<seq<Story>>)
    decreases |list|
  {
    if list == [] then None
    else
      var data := FirstPages(list[..|list| - 1], pages, sprintId);
      match GetStories(pages, list[|list| - 1].id, 1, sprintId)
      case Fetched(items) => Some(OrEmpty(data) + items)
      case Failed => data
  }

  /** The items of the first pages of `list` that were fetched, head first. */
  function FirstPageItems(list: seq<Status>, pages: StoryPages, sprintId: Option<int>): (r: seq<Story>)
    decreases |list|
  {
    if list == [] then []
    else
      match GetStories(pages, list[0].id, 1, sprintId)
      case Fetched(items) => items + FirstPageItems(list[1..], pages, sprintId)
      case Failed => FirstPageItems(list[1..], pages, sprintId)
  }

  /** Whether some first-page request of `list` came back. */
  predicate SomeFirstPageFetched(list: seq<Status>, pages: StoryPages, sprintId: Option<int>) {
    exists j :: 0 <= j < |list| && GetStories(pages, list[j].id, 1, sprintId).Fetched?
  }

  /**
   * The story list `loadStatuses` publishes is every fetched first page, in
   * list order and with nothing dropped; it stays null exactly when every
   * first-page request failed.
   */
  lemma {:induction false} FirstPagesAccumulate(list: seq<Status>, pages: StoryPages, sprintId: Option<int>)
    ensures FirstPages(list, pages, sprintId).Some? <==> SomeFirstPageFetched(list, pages, sprintId)
    ensures FirstPages(list, pages, sprintId).Some? ==> FirstPages(list, pages, sprintId).value == FirstPageItems(list, pages, sprintId)
    ensures FirstPages(list, pages, sprintId).None? ==> FirstPageItems(list, pages, sprintId) == []
    decreases |list|
  {
    if list != [] {
      var init, last := list[..|list| - 1], list[|list| - 1];
      FirstPagesAccumulate(init, pages, sprintId);
      FirstPageItemsAppend(init, last, pages, sprintId);
      assert list == init + [last];
      SomeFirstPageFetchedLast(list, pages, sprintId);
    }
  }

  /** Some first page of `list` came back exactly when one of all but the last did, or the last did. */
  lemma SomeFirstPageFetchedLast(list: seq<Status>, pages: StoryPages, sprintId: Option<int>)
    requires list != []
    ensures SomeFirstPageFetched(list, pages, sprintId) <==>
      SomeFirstPageFetched(list[..|list| - 1], pages, sprintId) || GetStories(pages, list[|list| - 1].id, 1, sprintId).Fetched?
  {
    var init := list[..|list| - 1];
    if SomeFirstPageFetched(list, pages, sprintId) && !GetStories(pages, list[|list| - 1].id, 1, sprintId).Fetched? {
      var j :| 0 <= j < |list| && GetStories(pages, list[j].id, 1, sprintId).Fetched?;
      assert init[j] == list[j];
    }
    if SomeFirstPageFetched(init, pages, sprintId) {
      var j :| 0 <= j < |init| && GetStories(pages, init[j].id, 1, sprintId).Fetched?;
      assert list[j] == init[j];
    }
  }

  /**
   * The status result after the first-page loads of `loadStatuses` over
   * `list`, in order, starting from `st`: each failed load publishes ERROR.
   */
  function StatusesAfterFirstPages(st: Option<Result<seq<Status>>>, list: seq<Status>, pages: StoryPages, sprintId: Option<int>): (r: Option<Result<seq<Status>>>)
    decreases |list|
  {
    if list == [] then st
    else if GetStories(pages, list[|list| - 1].id, 1, sprintId).Failed? then Some(ErrorResult)
    else StatusesAfterFirstPages(st, list[..|list| - 1], pages, sprintId)
  }

  /** Whether some first-page request of `list` failed. */
  predicate SomeFirstPageFailed(list: seq<Status>, pages: StoryPages, sprintId: Option<int>) {
    exists j :: 0 <= j < |list| && GetStories(pages, list[j].id, 1, sprintId).Failed?
  }

  /**
   * The first-page loads leave the status result as it was when every
   * request came back, and leave ERROR when some request failed.
   */
  lemma {:induction false} FirstPageErrors(st: Option<Result<seq<Status>>>, list: seq<Status>, pages: StoryPages, sprintId: Option<int>)
    ensures SomeFirstPageFailed(list, pages, sprintId) ==> StatusesAfterFirstPages(st, list, pages, sprintId) == Some(ErrorResult)
    ensures !SomeFirstPageFailed(list, pages, sprintId) ==> StatusesAfterFirstPages(st, list, pages, sprintId) == st
    decreases |list|
  {
    if list != [] {
      var init, last := list[..|list| - 1], list[|list| - 1];
      FirstPageErrors(st, init, pages, sprintId);
      if GetStories(pages, last.id, 1, sprintId).Failed? {
        assert GetStories(pages, list[|list| - 1].id, 1, sprintId).Failed?;
      } else {
        if SomeFirstPageFailed(list, pages, sprintId) {
          var j :| 0 <= j < |list| && GetStories(pages, list[j].id, 1, sprintId).Failed?;
          assert init[j] == list[j];
        }
        if SomeFirstPageFailed(init, pages, sprintId) {
          var j :| 0 <= j < |init| && GetStories(pages, init[j].id, 1, sprintId).Failed?;
          assert list[j] == init[j];
        }
      }
    }
  }

  /** `FirstPageItems` of a list with one more status at its end. */
  lemma {:induction false} FirstPageItemsAppend(list: seq<Status>, last: Status, pages: StoryPages, sprintId: Option<int>)
    ensures FirstPageItems(list + [last], pages, sprintId) ==
      FirstPageItems(list, pages, sprintId) + (match GetStories(pages, last.id, 1, sprintId) case Fetched(items) => items case Failed => [])
    decreases |list|
  {
    if list == [] {
      assert [last][1..] == [];
    } else {
      assert (list + [last])[1..] == list[1..] + [last];
      FirstPageItemsAppend(list[1..], last, pages, sprintId);
    }
  }

  /**
   * Two statuses whose first pages hold some items and none: after
   * `loadStatuses` the stories are the first status's items, the first status
   * is still open and the second is exhausted.
   */
  lemma {:induction false} OpenAndExhaustedAfterFirstPages(
    cursors: map<Status, Cursor>, a: Status, b: Status, itemsA: seq<Story>, pages: StoryPages, sprintId: Option<int>)
    requires a != b && itemsA != []
    requires GetStories(pages, a.id, 1, sprintId) == Fetched(itemsA)
    requires GetStories(pages, b.id, 1, sprintId) == Fetched([])
    ensures FirstPages([a, b], pages, sprintId) == Some(itemsA)
    ensures a in Installed(cursors, [a, b], pages, sprintId) && b in Installed(cursors, [a, b], pages, sprintId)
    ensures Installed(cursors, [a, b], pages, sprintId)[a] == Cursor(1, IntMaxValue)
    ensures !Installed(cursors, [a, b], pages, sprintId)[a].Exhausted()
    ensures Installed(cursors, [a, b], pages, sprintId)[b] == Cursor(1, 1)
    ensures Installed(cursors, [a, b], pages, sprintId)[b].Exhausted()
  {
    assert [a, b][..1] == [a];
    assert [a][..0] == [];
    assert FirstPages([a], pages, sprintId) == Some([] + itemsA);
    assert [] + itemsA == itemsA && itemsA + [] == itemsA;
    assert FirstPages([a, b], pages, sprintId) == Some(OrEmpty(Some(itemsA)) + []);
  }

  /**
   * What one more iteration of the `onEach` of `loadStatuses` adds to the
   * installed cursors, the accumulated stories, the status result and the
   * loading ids.
   */
  lemma {:induction false} OnEachStep(
    cursors: map<Status, Cursor>, ids: seq<int>, st: Option<Result<seq<Status>>>, list: seq<Status>, i: nat, pages: StoryPages, sprintId: Option<int>)
    requires i < |list|
    ensures Installed(cursors, list[..i + 1], pages, sprintId)
      == Installed(cursors, list[..i], pages, sprintId)[list[i] := Fresh.AfterFetch(GetStories(pages, list[i].id, 1, sprintId))]
    ensures GetStories(pages, list[i].id, 1, sprintId).Fetched? ==>
      FirstPages(list[..i + 1], pages, sprintId)
        == Some(OrEmpty(FirstPages(list[..i], pages, sprintId)) + GetStories(pages, list[i].id, 1, sprintId).value)
    ensures GetStories(pages, list[i].id, 1, sprintId).Failed? ==>
      && FirstPages(list[..i + 1], pages, sprintId) == FirstPages(list[..i], pages, sprintId)
      && StatusesAfterFirstPages(st, list[..i + 1], pages, sprintId) == Some(ErrorResult)
    ensures GetStories(pages, list[i].id, 1, sprintId).Fetched? ==>
      StatusesAfterFirstPages(st, list[..i + 1], pages, sprintId) == StatusesAfterFirstPages(st, list[..i], pages, sprintId)
    ensures LoadingAfterFirstPages(ids, list[..i + 1])
      == RemoveFirst(LoadingAfterFirstPages(ids, list[..i]) + [list[i].id], list[i].id)
  {
    assert list[..i + 1][..i] == list[..i];
    assert list[..i + 1][i] == list[i];
  }

  /** `statusClick`: removes `x` when it is listed and appends it otherwise. */
  function Toggle<T(==)>(ids: seq<T>, x: T): (r: seq<T>)
    ensures x !in ids ==> r == ids + [x]
    ensures x in ids ==> |r| == |ids| - 1
    ensures forall y :: y in r && y != x ==> y in ids
    ensures forall y :: y in ids && y != x ==> y in r
  {
    if x in ids then RemoveFirst(ids, x) else ids + [x]
  }

  /**
   * On a duplicate-free list, `x` is listed after a click exactly when it was
   * not listed before, and the list stays duplicate-free.
   */
  lemma ToggleNoDuplicates<T>(ids: seq<T>, x: T)
    requires NoDuplicates(ids)
    ensures x in Toggle(ids, x) <==> x !in ids
    ensures NoDuplicates(Toggle(ids, x))
  {
    if x in ids {
      RemoveFirstNoDuplicates(ids, x);
    } else {
      var r := ids + [x];
      forall i, j | 0 <= i < j < |r| ensures r[i] != r[j] {
        if j == |ids| {
          assert r[i] == ids[i];
        } else {
          assert r[i] == ids[i] && r[j] == ids[j];
        }
      }
    }
  }

  /**
   * Clicking the same status twice restores membership, and restores the
   * list itself when the status was not expanded.
   */
  lemma ToggleTwice<T>(ids: seq<T>, x: T)
    ensures NoDuplicates(ids) ==> forall y :: y in Toggle(Toggle(ids, x), x) ==> y in ids
    ensures NoDuplicates(ids) ==> forall y :: y in ids ==> y in Toggle(Toggle(ids, x), x)
    ensures x !in ids ==> Toggle(Toggle(ids, x), x) == ids
  {
    if x !in ids {
      RemoveFirstAppended(ids, x);
    } else if NoDuplicates(ids) {
      ToggleNoDuplicates(ids, x);
    }
  }

  /** The mutable cursor `StatusState` of one status. */
  class StatusState {
    var currentPage: int32
    var maxPage: int32

    /** The status this cursor was created for; every cursor serves one status. */
    ghost const owner: Status

    constructor (ghost owner: Status)
      ensures View() == Fresh && this.owner == owner
    {
      currentPage := 0;
      maxPage := IntMaxValue;
      this.owner := owner;
    }

    function View(): (r: Cursor)
      reads this
    {
      Cursor(currentPage, maxPage)
    }

    /** `++currentPage`: moves to the next page and returns its number. */
    method NextPage() returns (page: int32)
      requires currentPage < maxPage
      modifies this
      ensures page as int == old(currentPage) as int + 1
      ensures currentPage == page && maxPage == old(maxPage)
    {
      currentPage := currentPage + 1;
      page := currentPage;
    }

    /** `maxPage = currentPage`: the last page was empty, so this status is done. */
    method Freeze()
      modifies this
      ensures currentPage == old(currentPage) && maxPage == currentPage
    {
      maxPage := currentPage;
    }
  }

  class StoriesViewModel {
    var statuses: Option<Result<seq<Status>>>
    var stories: Option<Result<seq<Story>>>
    var loadingStatusIds: seq<int>
    var visibleStatusIds: seq<int>
    var statusesStates: map<Status, StatusState>
    var sprintId: Option<int>

    /** The values of the cursors, by status. */
    ghost var cursors: map<Status, Cursor>

    /**
     * `cursors` holds the value of every cursor object, each cursor object
     * belongs to its own status, every cursor is valid, and the expanded list
     * has no duplicates.
     */
    ghost predicate Valid()
      reads this, statusesStates.Values
    {
      && statusesStates.Keys == cursors.Keys
      && (forall s :: s in statusesStates ==>
            && statusesStates[s].owner == s
            && statusesStates[s].currentPage == cursors[s].currentPage
            && statusesStates[s].maxPage == cursors[s].maxPage)
      && (forall s :: s in cursors ==> cursors[s].Valid())
      && NoDuplicates(visibleStatusIds)
    }

    /** The objects `loadStories(status)` may change besides this view model. */
    function CursorOf(status: Status): (r: set<StatusState>)
      reads this
    {
      if status in statusesStates then {statusesStates[status]} else {}
    }

    /** Whether `loadStories(status)` makes a request. */
    ghost predicate WillFetch(status: Status)
      reads this
    {
      status in cursors && !cursors[status].Exhausted()
    }

    constructor ()
      ensures Valid()
      ensures sprintId == None && statuses == None && stories == None
      ensures statusesStates == map[] && loadingStatusIds == [] && visibleStatusIds == []
    {
      statuses, stories := None, None;
      loadingStatusIds, visibleStatusIds := [], [];
      statusesStates := map[];
      sprintId := None;
      cursors := map[];
    }

    /**
     * `loadStories(status)`, with the repository's answer to
     * `getStories(status.id, page, sprintId)` given by `pages`.
     */
    method LoadStories(status: Status, pages: StoryPages)
      requires Valid()
      modifies this, CursorOf(status)
      ensures Valid()
      ensures statusesStates == old(statusesStates)
      ensures sprintId == old(sprintId) && visibleStatusIds == old(visibleStatusIds)
      ensures status.id !in old(loadingStatusIds) ==> loadingStatusIds == old(loadingStatusIds)
      ensures status in old(cursors) && old(cursors)[status].currentPage < IntMaxValue ==>
        var before := old(cursors)[status];
        cursors == old(cursors)[status := before.Step(GetStories(pages, status.id, before.currentPage + 1, sprintId))]
      ensures !old(WillFetch(status)) ==>
        && statuses == old(statuses) && stories == old(stories)
        && loadingStatusIds == old(loadingStatusIds) && cursors == old(cursors)
      ensures old(WillFetch(status)) ==>
        var before := old(cursors)[status];
        var answer := GetStories(pages, status.id, before.currentPage + 1, sprintId);
        && loadingStatusIds == RemoveFirst(old(loadingStatusIds) + [status.id], status.id)
        && (answer.Fetched? ==>
              && stories == Some(Result(Success, Some(DataOrEmpty(old(stories)) + answer.value), None))
              && statuses == old(statuses))
        && (answer.Failed? ==> statuses == Some(ErrorResult) && stories == old(stories))
    {
      if status !in statusesStates {
        return;
      }
      var state := statusesStates[status];
      if state.currentPage == state.maxPage {
        return;
      }
      ghost var loading0 := loadingStatusIds;
      loadingStatusIds := loadingStatusIds + [status.id];
      FetchNextPage(status, pages);
      loadingStatusIds := RemoveFirst(loadingStatusIds, status.id);
      assert status.id !in loading0 ==> loadingStatusIds == loading0 by {
        if status.id !in loading0 {
          RemoveFirstAppended(loading0, status.id);
        }
      }
    }

    /**
     * The `try` block of `loadStories(status)`: advance the page counter, ask
     * for that page, append what came back or publish the error, and freeze
     * the cursor on an empty page.
     */
    method FetchNextPage(status: Status, pages: StoryPages)
      requires Valid() && WillFetch(status)
      modifies this`stories, this`statuses, this`cursors, CursorOf(status)
      ensures Valid()
      ensures statusesStates == old(statusesStates)
      ensures
        var before := old(cursors)[status];
        var answer := GetStories(pages, status.id, before.currentPage + 1, sprintId);
        && cursors == old(cursors)[status := before.AfterFetch(answer)]
        && (answer.Fetched? ==>
              && stories == Some(Result(Success, Some(DataOrEmpty(old(stories)) + answer.value), None))
              && statuses == old(statuses))
        && (answer.Failed? ==> statuses == Some(ErrorResult) && stories == old(stories))
    {
      var state := statusesStates[status];
      ghost var next := cursors[status].AfterFetch(GetStories(pages, status.id, cursors[status].currentPage + 1, sprintId));
      var page := state.NextPage();
      var answer := GetStories(pages, status.id, page, sprintId);
      match answer {
        case Fetched(items) =>
          stories := Some(Result(Success, Some(DataOrEmpty(stories) + items), None));
          if items == [] {
            state.Freeze();
          }
        case Failed =>
          statuses := Some(ErrorResult);
      }
      assert state.View() == next;
      cursors := cursors[status := next];
    }

    /**
     * `loadStatuses()`, with the repository's answers given by `statusSource`
     * and `pages`; each first-page load runs to completion where it is launched.
     */
    method LoadStatuses(statusSource: StatusSource, pages: StoryPages)
      requires Valid()
      modifies this
      ensures Valid()
      ensures sprintId == old(sprintId) && visibleStatusIds == old(visibleStatusIds)
      ensures GetStatuses(statusSource, sprintId).Failed? ==>
        && statuses == Some(ErrorResult) && stories == Some(Result(Success, None, None))
        && statusesStates == old(statusesStates) && cursors == old(cursors)
        && loadingStatusIds == old(loadingStatusIds)
      ensures GetStatuses(statusSource, sprintId).Fetched? ==>
        var list := GetStatuses(statusSource, sprintId).value;
        && statuses == Some(Result(Success, Some(list), None))
        && stories == Some(Result(Success, FirstPages(list, pages, sprintId), None))
        && cursors == Installed(old(cursors), list, pages, sprintId)
        && (forall j :: 0 <= j < |list| ==> list[j] in statusesStates && fresh(statusesStates[list[j]]))
        && (forall s :: s in old(statusesStates) && s !in list ==> s in statusesStates && statusesStates[s] == old(statusesStates[s]))
        && loadingStatusIds == LoadingAfterFirstPages(old(loadingStatusIds), list)
        && multiset(loadingStatusIds) == multiset(old(loadingStatusIds))
        && ((forall j :: 0 <= j < |list| ==> list[j].id !in old(loadingStatusIds)) ==> loadingStatusIds == old(loadingStatusIds))
    {
      statuses := Some(Result(Loading, None, None));
      stories := Some(Result(Success, None, None));
      var answer := GetStatuses(statusSource, sprintId);
      match answer {
        case Failed =>
          statuses := Some(ErrorResult);
        case Fetched(list) =>
          ghost var loading0 := loadingStatusIds;
          InstallAll(list, pages);
          LoadingRestored(loading0, list);
          statuses := Some(Result(Success, Some(list), None));
      }
    }

    /**
     * The stories, cursors, loading ids and status result are those the
     * first-page loads over `prefix` leave behind, starting from the empty
     * story list and from `cursors0`, `loading0` and `statuses0`.
     */
    ghost predicate FirstPagesLoaded(
      prefix: seq<Status>, pages: StoryPages,
      cursors0: map<Status, Cursor>, loading0: seq<int>, statuses0: Option<Result<seq<Status>>>)
      reads this
    {
      && stories == Some(Result(Success, FirstPages(prefix, pages, sprintId), None))
      && cursors == Installed(cursors0, prefix, pages, sprintId)
      && loadingStatusIds == LoadingAfterFirstPages(loading0, prefix)
      && statuses == StatusesAfterFirstPages(statuses0, prefix, pages, sprintId)
    }

    /**
     * The `onEach` of `loadStatuses()` over the whole fetched list, in order,
     * starting from the empty story list.
     */
    method InstallAll(list: seq<Status>, pages: StoryPages)
      requires Valid() && stories == Some(Result(Success, None, None))
      modifies this
      ensures Valid()
      ensures sprintId == old(sprintId) && visibleStatusIds == old(visibleStatusIds)
      ensures stories == Some(Result(Success, FirstPages(list, pages, sprintId), None))
      ensures cursors == Installed(old(cursors), list, pages, sprintId)
      ensures forall j :: 0 <= j < |list| ==> list[j] in statusesStates && fresh(statusesStates[list[j]])
      ensures forall s :: s in old(statusesStates) && s !in list ==> s in statusesStates && statusesStates[s] == old(statusesStates[s])
      ensures loadingStatusIds == LoadingAfterFirstPages(old(loadingStatusIds), list)
      ensures statuses == StatusesAfterFirstPages(old(statuses), list, pages, sprintId)
    {
      assert list[..0] == [];
      for i := 0 to |list|
        invariant Valid()
        invariant sprintId == old(sprintId) && visibleStatusIds == old(visibleStatusIds)
        invariant FirstPagesLoaded(list[..i], pages, old(cursors), old(loadingStatusIds), old(statuses))
        invariant forall j :: 0 <= j < i ==> list[j] in statusesStates && fresh(statusesStates[list[j]])
        invariant forall s :: s in old(statusesStates) && s !in list[..i] ==> s in statusesStates && statusesStates[s] == old(statusesStates[s])
      {
        ghost var states := statusesStates;
        InstallNext(list, i, pages, old(cursors), old(loadingStatusIds), old(statuses));
        PrefixExtends(list, i);
        forall j | 0 <= j < i + 1
          ensures list[j] in statusesStates && fresh(statusesStates[list[j]])
        {
          if list[j] != list[i] {
            assert j < i && states[list[j]] == statusesStates[list[j]];
          }
        }
        forall s | s in old(statusesStates) && s !in list[..i + 1]
          ensures s in statusesStates && statusesStates[s] == old(statusesStates[s])
        {
          assert s != list[i] && s !in list[..i];
        }
      }
      assert list[..|list|] == list;
    }

    /** The `onEach` of `loadStatuses()` on the status after the first `i`. */
    method InstallNext(
      list: seq<Status>, i: nat, pages: StoryPages,
      ghost cursors0: map<Status, Cursor>, ghost loading0: seq<int>, ghost statuses0: Option<Result<seq<Status>>>)
      requires Valid() && i < |list|
      requires FirstPagesLoaded(list[..i], pages, cursors0, loading0, statuses0)
      modifies this
      ensures Valid()
      ensures sprintId == old(sprintId) && visibleStatusIds == old(visibleStatusIds)
      ensures FirstPagesLoaded(list[..i + 1], pages, cursors0, loading0, statuses0)
      ensures list[i] in statusesStates && fresh(statusesStates[list[i]])
      ensures forall s :: s in old(statusesStates) && s != list[i] ==> s in statusesStates && statusesStates[s] == old(statusesStates[s])
    {
      OnEachStep(cursors0, loading0, statuses0, list, i, pages, sprintId);
      InstallStatus(list[i], pages);
    }

    /**
     * The body of the `onEach` in `loadStatuses()`: install a fresh cursor for
     * `status`, replacing any old one, and load its first page.
     */
    method InstallStatus(status: Status, pages: StoryPages)
      requires Valid()
      modifies this
      ensures Valid()
      ensures sprintId == old(sprintId) && visibleStatusIds == old(visibleStatusIds)
      ensures status in statusesStates && fresh(statusesStates[status])
      ensures forall s :: s in old(statusesStates) && s != status ==> s in statusesStates && statusesStates[s] == old(statusesStates[s])
      ensures cursors == old(cursors)[status := Fresh.AfterFetch(GetStories(pages, status.id, 1, sprintId))]
      ensures GetStories(pages, status.id, 1, sprintId).Fetched? ==>
        && stories == Some(Result(Success, Some(DataOrEmpty(old(stories)) + GetStories(pages, status.id, 1, sprintId).value), None))
        && statuses == old(statuses)
      ensures GetStories(pages, status.id, 1, sprintId).Failed? ==> statuses == Some(ErrorResult) && stories == old(stories)
      ensures loadingStatusIds == RemoveFirst(old(loadingStatusIds) + [status.id], status.id)
    {
      AddFreshCursor(status);
      LoadStories(status, pages);
      MapOverwrite(old(cursors), status, Fresh, Fresh.AfterFetch(GetStories(pages, status.id, 1, sprintId)));
    }

    /** The first half of the `onEach` body: `statusesStates[status] = StatusState()`. */
    method AddFreshCursor(status: Status)
      requires Valid()
      modifies this`statusesStates, this`cursors
      ensures Valid()
      ensures status in statusesStates && fresh(statusesStates[status])
      ensures statusesStates == old(statusesStates)[status := statusesStates[status]]
      ensures cursors == old(cursors)[status := Fresh]
    {
      var state := new StatusState(status);
      statusesStates := statusesStates[status := state];
      cursors := cursors[status := Fresh];
    }

    /** `statusClick(statusId)`: expands a collapsed status, collapses an expanded one. */
    method StatusClick(statusId: int)
      requires Valid()
      modifies this`visibleStatusIds
      ensures Valid()
      ensures visibleStatusIds == Toggle(old(visibleStatusIds), statusId)
      ensures statusId in visibleStatusIds <==> statusId !in old(visibleStatusIds)
    {
      ToggleNoDuplicates(visibleStatusIds, statusId);
      visibleStatusIds := Toggle(visibleStatusIds, statusId);
    }

    /** `reset()`: forgets the sprint, both results, every cursor and both id lists. */
    method Reset()
      modifies this
      ensures Valid()
      ensures sprintId == None && statuses == None && stories == None
      ensures statusesStates == map[] && loadingStatusIds == [] && visibleStatusIds == []
    {
      sprintId := None;
      statuses := None;
      stories := None;
      statusesStates := map[];
      cursors := map[];
      loadingStatusIds := [];
      visibleStatusIds := [];
    }
  }
}
