/** The page session as a value: the state the page keeps between events and what each event does to it. */
module Session {
  import opened Records
  import opened Sorting
  import opened Paging
  import opened Rendering

  /** What the one initial data request delivers: the record list, or a failure (HTTP status, malformed JSON). */
  datatype FetchResult = Fetched(list: seq<Promotion>) | FetchFailed

  /** allApiPromotions, currentPage, isLoading, isEndOfData, the list container and whether the error message is shown. */
  datatype State = State(
    promotions: seq<Promotion>,
    currentPage: int,
    isLoading: bool,
    isEndOfData: bool,
    container: seq<Item>,
    errorShown: bool)

  /** The state when the page has loaded and nothing has run yet. */
  const INITIAL: State := State([], 1, false, false, [], false)

  /** loadInitialData: sort the list, render page 1 replacing the container, and move to page 2; on failure only show the error. */
  function LoadInitial(s: State, fetched: FetchResult): (r: State)
    ensures r.isLoading == s.isLoading && r.isEndOfData == s.isEndOfData
    ensures r.errorShown <==> fetched.FetchFailed?
    ensures fetched.FetchFailed? ==> r == s.(errorShown := true)
    ensures fetched.Fetched? ==> r.promotions == StableSort(fetched.list) && r.currentPage == 2
  {
    match fetched
    case FetchFailed => s.(errorShown := true)
    case Fetched(list) =>
      var sorted := StableSort(list);
      s.(promotions := sorted,
         container := Rendered(s.container, Page(sorted, 1), false),
         currentPage := 2,
         errorShown := false)
  }

  /** The synchronous part of loadMorePromotions: the guard, then the loading flag. */
  function StartLoad(s: State): (r: State)
    ensures r.isLoading <==> s.isLoading || !s.isEndOfData
    ensures r.(isLoading := s.isLoading) == s
  {
    if s.isLoading || s.isEndOfData then s else s.(isLoading := true)
  }

  /** The timer callback of loadMorePromotions: append the current page and advance, or latch end-of-data. */
  function CompleteLoad(s: State): (r: State)
    ensures !r.isLoading && r.promotions == s.promotions && r.errorShown == s.errorShown
    ensures r.isEndOfData <==> s.isEndOfData || Page(s.promotions, s.currentPage) == []
    ensures r.currentPage == s.currentPage + (if Page(s.promotions, s.currentPage) == [] then 0 else 1)
  {
    var next := Page(s.promotions, s.currentPage);
    if |next| > 0 then
      s.(container := Rendered(s.container, next, true), currentPage := s.currentPage + 1, isLoading := false)
    else
      s.(isEndOfData := true, isLoading := false)
  }

  /** The events after the initial load: the scroll condition firing, and the pending timer firing. */
  datatype Event = Scroll | Timer

  /** One event; a timer fires only while a load is pending, which is exactly while isLoading holds. */
  function Step(s: State, e: Event): (r: State)
    ensures e == Timer && !s.isLoading ==> r == s
    ensures s.isEndOfData && !s.isLoading ==> r == s
    ensures s.isEndOfData ==> r.isEndOfData
    ensures r.promotions == s.promotions
  {
    match e
    case Scroll => StartLoad(s)
    case Timer => if s.isLoading then CompleteLoad(s) else s
  }

  function Run(s: State, events: seq<Event>): State
    decreases |events|
  {
    if events == [] then s else Run(Step(s, events[0]), events[1..])
  }

  /** n scroll-then-timer cycles. */
  function Cycles(n: nat): seq<Event> {
    if n == 0 then [] else [Scroll, Timer] + Cycles(n - 1)
  }

  /** n scroll events in a row. */
  function Scrolls(n: nat): seq<Event> {
    if n == 0 then [] else [Scroll] + Scrolls(n - 1)
  }

  /** The records displayed so far: those before page currentPage. */
  function Shown(s: State): seq<Promotion>
    requires s.currentPage >= 1
  {
    s.promotions[..Min((s.currentPage - 1) * PAGE_SIZE, |s.promotions|)]
  }

  /** What is displayed is pages 1 to currentPage - 1, one after the other. */
  lemma ShownIsPages(s: State)
    requires s.currentPage >= 1
    ensures Shown(s) == Pages(s.promotions, s.currentPage - 1)
  {
    PagesPrefix(s.promotions, s.currentPage - 1);
  }

  /** The session invariant: pages count from 1, no load is pending once the data has ended, and the container shows
      exactly the pages before currentPage, or is the lone placeholder of an empty list. */
  predicate Consistent(s: State) {
    s.currentPage >= 1
    && !(s.isLoading && s.isEndOfData)
    && (s.container == Cards(Shown(s)) || (s.container == [Placeholder] && s.promotions == []))
  }

  lemma InitialConsistent()
    ensures Consistent(INITIAL)
  {
    assert Shown(INITIAL) == [];
  }

  /** Rendering page 1 of a list in replace mode and moving to page 2 gives a consistent state. */
  lemma FirstPageConsistent(s: State, sorted: seq<Promotion>)
    requires Consistent(s)
    ensures Consistent(s.(promotions := sorted, container := Rendered(s.container, Page(sorted, 1), false),
      currentPage := 2, errorShown := false))
  {
    PageWindow(sorted, 1);
  }

  /** The initial load keeps the invariant. */
  lemma LoadInitialConsistent(s: State, fetched: FetchResult)
    requires Consistent(s)
    ensures Consistent(LoadInitial(s, fetched))
  {
    if fetched.Fetched? {
      FirstPageConsistent(s, StableSort(fetched.list));
    }
  }

  /** A successful initial load holds the sorted list, shows its first page (the placeholder when the list is empty)
      and leaves currentPage at 2; a failed one only shows the error message. */
  lemma InitialLoadEffect(s: State, fetched: FetchResult)
    ensures fetched.FetchFailed? ==> LoadInitial(s, fetched) == s.(errorShown := true)
    ensures fetched.Fetched? ==>
      var t := LoadInitial(s, fetched);
      t.promotions == StableSort(fetched.list) && t.currentPage == 2 && !t.errorShown
      && t.isLoading == s.isLoading && t.isEndOfData == s.isEndOfData
      && CardRecords(t.container) == Page(t.promotions, 1)
      && (t.container == [Placeholder] <==> fetched.list == [])
  {
    if fetched.Fetched? {
      var sorted := StableSort(fetched.list);
      PageWindow(sorted, 1);
      if sorted == [] {
        RenderEmptyReplace(s.container);
      } else {
        RenderRecords(s.container, Page(sorted, 1), false);
        assert Placeholders([Placeholder]) == 1 by {
          assert [Placeholder][..0] == [];
        }
      }
    }
  }

  /** A completed load leaves isLoading false; with a non-empty page it appends that page's cards and advances
      currentPage by one, with an empty page it latches end-of-data and leaves currentPage and the container alone. */
  lemma CompleteLoadEffect(s: State)
    ensures !CompleteLoad(s).isLoading
    ensures CompleteLoad(s).promotions == s.promotions
    ensures var next := Page(s.promotions, s.currentPage);
      next != [] ==>
        CardRecords(CompleteLoad(s).container) == CardRecords(s.container) + next
        && Placeholders(CompleteLoad(s).container) == Placeholders(s.container)
        && CompleteLoad(s).currentPage == s.currentPage + 1
        && CompleteLoad(s).isEndOfData == s.isEndOfData
    ensures var next := Page(s.promotions, s.currentPage);
      next == [] ==>
        CompleteLoad(s).isEndOfData
        && CompleteLoad(s).container == s.container
        && CompleteLoad(s).currentPage == s.currentPage
  {
    var next := Page(s.promotions, s.currentPage);
    if next != [] {
      RenderRecords(s.container, next, true);
    }
  }

  lemma StartLoadConsistent(s: State)
    requires Consistent(s)
    ensures Consistent(StartLoad(s))
  {
  }

  /** A load that finds a non-empty page appends exactly that page, so the container still shows the pages before currentPage. */
  lemma AppendPageConsistent(s: State)
    requires Consistent(s) && Page(s.promotions, s.currentPage) != []
    ensures Consistent(CompleteLoad(s))
  {
    var next := Page(s.promotions, s.currentPage);
    PageWindow(s.promotions, s.currentPage);
    var t := CompleteLoad(s);
    assert t.container == s.container + Cards(next);
    assert Shown(t) == Shown(s) + next;
    CardsConcat(Shown(s), next);
  }

  lemma CompleteLoadConsistent(s: State)
    requires Consistent(s)
    ensures Consistent(CompleteLoad(s))
  {
    if Page(s.promotions, s.currentPage) != [] {
      AppendPageConsistent(s);
    } else {
      assert Shown(CompleteLoad(s)) == Shown(s);
    }
  }

  lemma {:induction false} RunConsistent(s: State, events: seq<Event>)
    requires Consistent(s)
    ensures Consistent(Run(s, events))
    decreases |events|
  {
    if events != [] {
      StartLoadConsistent(s);
      CompleteLoadConsistent(s);
      RunConsistent(Step(s, events[0]), events[1..]);
    }
  }

  /** The guard: while a load is pending or the data has ended, any number of scroll events changes nothing;
      otherwise the first one only raises isLoading and the rest change nothing. */
  lemma {:induction false} RepeatedScrolls(s: State, n: nat)
    requires n >= 1
    ensures s.isLoading || s.isEndOfData ==> Run(s, Scrolls(n)) == s
    ensures !(s.isLoading || s.isEndOfData) ==>
      Run(s, Scrolls(n)) == s.(isLoading := true)
    decreases n
  {
    if n > 1 {
      RepeatedScrolls(StartLoad(s), n - 1);
    }
  }

  /** Once the data has ended, no sequence of scroll and timer events changes anything: no page is fetched, nothing is rendered. */
  lemma {:induction false} EndOfDataIsFinal(s: State, events: seq<Event>)
    requires Consistent(s) && s.isEndOfData
    ensures Run(s, events) == s
    decreases |events|
  {
    if events != [] {
      assert Step(s, events[0]) == s;
      EndOfDataIsFinal(s, events[1..]);
    }
  }

  /** When the current page is empty, the pages before it are the whole list. */
  lemma ShownAll(s: State)
    requires s.currentPage >= 1 && Page(s.promotions, s.currentPage) == []
    ensures Shown(s) == s.promotions
  {
    PageWindow(s.promotions, s.currentPage);
  }

  /** A load that finds the current page empty shows the whole list: every record of it, in sorted order, once. */
  lemma EndShowsEverything(s: State)
    requires Consistent(s) && Page(s.promotions, s.currentPage) == []
    ensures CompleteLoad(s).isEndOfData && !CompleteLoad(s).isLoading
    ensures CompleteLoad(s).currentPage == s.currentPage && CompleteLoad(s).container == s.container
    ensures CardRecords(CompleteLoad(s).container) == s.promotions
  {
    if s.container == Cards(Shown(s)) {
      ShownAll(s);
      CardsShow(s.promotions);
    } else {
      assert CardRecords([Placeholder]) == [] by {
        assert [Placeholder][..0] == [];
      }
    }
  }

  lemma {:induction false} RunConcat(s: State, a: seq<Event>, b: seq<Event>)
    ensures Run(s, a + b) == Run(Run(s, a), b)
    decreases |a|
  {
    if a == [] {
      assert a + b == b;
    } else {
      assert (a + b)[1..] == a[1..] + b;
      RunConcat(Step(s, a[0]), a[1..], b);
    }
  }

  /** The number of non-empty pages not yet shown. */
  function Remaining(s: State): nat {
    var left := PageCount(|s.promotions|) - (s.currentPage - 1);
    if left < 0 then 0 else left
  }

  /** Scrolling to the bottom Remaining + 1 times, each time letting the timer fire, shows every record and latches
      end-of-data. */
  lemma {:induction false} ScrollToEnd(s: State)
    requires Consistent(s) && !s.isLoading && !s.isEndOfData
    ensures var t := Run(s, Cycles(Remaining(s) + 1));
      t.isEndOfData && !t.isLoading && t.promotions == s.promotions
      && CardRecords(t.container) == s.promotions
    decreases Remaining(s)
  {
    var started := StartLoad(s);
    var done := CompleteLoad(started);
    assert Run(s, [Scroll, Timer]) == done by {
      assert [Scroll, Timer][1..] == [Timer];
      assert [Timer][1..] == [];
    }
    StartLoadConsistent(s);
    PageWindow(s.promotions, s.currentPage);
    if Page(s.promotions, s.currentPage) == [] {
      EndShowsEverything(started);
      assert Cycles(Remaining(s) + 1) == [Scroll, Timer] + Cycles(Remaining(s));
      RunConcat(s, [Scroll, Timer], Cycles(Remaining(s)));
      CompleteLoadConsistent(started);
      EndOfDataIsFinal(done, Cycles(Remaining(s)));
    } else {
      CompleteLoadConsistent(started);
      assert Remaining(done) + 1 == Remaining(s);
      ScrollToEnd(done);
      assert Cycles(Remaining(s) + 1) == [Scroll, Timer] + Cycles(Remaining(done) + 1);
      RunConcat(s, [Scroll, Timer], Cycles(Remaining(done) + 1));
    }
  }

  /** A whole session: after the initial load of `list`, scrolling to the end displays exactly the sorted list,
      i.e. the pages partition it. */
  lemma WholeSession(list: seq<Promotion>)
    ensures var loaded := LoadInitial(INITIAL, Fetched(list));
      var t := Run(loaded, Cycles(Remaining(loaded) + 1));
      t.isEndOfData && CardRecords(t.container) == StableSort(list)
  {
    InitialConsistent();
    LoadInitialConsistent(INITIAL, Fetched(list));
    ScrollToEnd(LoadInitial(INITIAL, Fetched(list)));
  }

  /** A scroll whose timer fires before the initial data has arrived finds page 1 of the still-empty list, latches
      end-of-data, and from then on no scrolling shows more than page 1 of the list that arrives. */
  lemma EarlyLoadEndsSession(list: seq<Promotion>, events: seq<Event>)
    ensures var early := Run(INITIAL, [Scroll, Timer]);
      early.isEndOfData && early.currentPage == 1 && early.container == []
    ensures var loaded := LoadInitial(Run(INITIAL, [Scroll, Timer]), Fetched(list));
      loaded.isEndOfData && Run(loaded, events) == loaded
      && CardRecords(loaded.container) == Page(StableSort(list), 1)
  {
    var early := Run(INITIAL, [Scroll, Timer]);
    assert early == CompleteLoad(StartLoad(INITIAL)) by {
      assert [Scroll, Timer][1..] == [Timer];
      assert [Timer][1..] == [];
    }
    InitialConsistent();
    StartLoadConsistent(INITIAL);
    CompleteLoadConsistent(StartLoad(INITIAL));
    LoadInitialConsistent(early, Fetched(list));
    InitialLoadEffect(early, Fetched(list));
    var loaded := LoadInitial(early, Fetched(list));
    if list == [] {
      assert StableSort(list) == [];
      assert CardRecords([Placeholder]) == [] by {
        assert [Placeholder][..0] == [];
      }
    }
    EndOfDataIsFinal(loaded, events);
  }
}
