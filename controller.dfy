/** The page controller: the state that script.js keeps in its DOMContentLoaded closure, updated in place. */
module PageController {
  import opened Records
  import opened Sorting
  import opened Paging
  import opened Rendering
  import opened MockSource
  import opened Session

  /** The number of records generateMockData is asked for on the initial load. */
  const MOCK_COUNT: nat := 100

  class Controller {
    var allApiPromotions: seq<Promotion>
    var currentPage: int
    var isLoading: bool
    var isEndOfData: bool
    /** The children of the promotion list container. */
    var container: seq<Item>
    /** Whether the error message region is visible. */
    var errorShown: bool

    /** The controller's fields as a session state. */
    function Snapshot(): State
      reads this
    {
      State(allApiPromotions, currentPage, isLoading, isEndOfData, container, errorShown)
    }

    ghost predicate Valid()
      reads this
    {
      Consistent(Snapshot())
    }

    constructor ()
      ensures Snapshot() == INITIAL && Valid()
    {
      allApiPromotions := [];
      currentPage := 1;
      isLoading := false;
      isEndOfData := false;
      container := [];
      errorShown := false;
      InitialConsistent();
    }

    /** renderPromotions: clear the container unless appending, show the placeholder for an empty replace,
        otherwise add one card per record at the end. */
    method RenderPromotions(promotions: seq<Promotion>, append: bool)
      modifies this`container
      ensures container == Rendered(old(container), promotions, append)
    {
      if !append {
        container := [];
      }
      if |promotions| == 0 {
        if !append {
          container := [Placeholder];
        }
        return;
      }
      ghost var base := container;
      var i := 0;
      while i < |promotions|
        invariant 0 <= i <= |promotions|
        invariant container == base + Cards(promotions[..i])
      {
        assert Cards(promotions[..i + 1]) == Cards(promotions[..i]) + [Card(promotions[i])];
        container := container + [Card(promotions[i])];
        i := i + 1;
      }
      assert promotions[..i] == promotions;
    }

    /** loadInitialData with the outcome of the data request: hide the error, then sort the list in place, render
        page 1 replacing the container and move to page 2; a failure shows the error and changes nothing else. */
    method LoadInitialData(fetched: FetchResult)
      requires Valid()
      modifies this
      ensures Snapshot() == LoadInitial(old(Snapshot()), fetched) && Valid()
    {
      LoadInitialConsistent(Snapshot(), fetched);
      errorShown := false;
      match fetched
      case FetchFailed =>
        errorShown := true;
      case Fetched(list) =>
        var sorted := SortList(list);
        ShowFirstPage(sorted);
    }

    /** The success path of loadInitialData once the list is sorted: keep it, render page 1, move to page 2. */
    method ShowFirstPage(sorted: seq<Promotion>)
      modifies this
      ensures Snapshot() == old(Snapshot()).(promotions := sorted,
        container := Rendered(old(container), Page(sorted, 1), false), currentPage := 2)
    {
      allApiPromotions := sorted;
      var firstPagePromotions := Page(allApiPromotions, 1);
      RenderPromotions(firstPagePromotions, false);
      currentPage := 2;
    }

    /** loadInitialData in mock mode: the list is generateMockData(100), with the random dates supplied. */
    method LoadInitialMockData(dates: seq<Date>)
      requires Valid() && |dates| >= MOCK_COUNT
      modifies this
      ensures Snapshot() == LoadInitial(old(Snapshot()), Fetched(MockData(MOCK_COUNT, dates))) && Valid()
    {
      var promotions := GenerateMockData(MOCK_COUNT, dates);
      LoadInitialData(Fetched(promotions));
    }

    /** The synchronous part of loadMorePromotions: ignored while loading or after the end; otherwise marks the
        load as pending, and the caller schedules CompleteLoadMore. */
    method LoadMorePromotions() returns (scheduled: bool)
      requires Valid()
      modifies this
      ensures Snapshot() == StartLoad(old(Snapshot())) && Valid()
      ensures scheduled <==> !old(isLoading) && !old(isEndOfData)
    {
      StartLoadConsistent(Snapshot());
      if isLoading || isEndOfData {
        return false;
      }
      isLoading := true;
      return true;
    }

    /** The timer callback of loadMorePromotions: append the current page and advance, or latch the end. */
    method CompleteLoadMore()
      requires Valid() && isLoading
      modifies this
      ensures Snapshot() == CompleteLoad(old(Snapshot())) && Valid()
    {
      CompleteLoadConsistent(Snapshot());
      var newPromotions := Page(allApiPromotions, currentPage);
      if |newPromotions| > 0 {
        RenderPromotions(newPromotions, true);
        currentPage := currentPage + 1;
      } else {
        isEndOfData := true;
      }
      isLoading := false;
    }
  }
}
