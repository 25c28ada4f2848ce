/**
 * The navigation bar's search overlay (`Nav`): a small state machine over the
 * overlay's visibility, the event listeners it attaches while visible, the
 * search hook's query and results, and where the keyboard focus is.
 */
module Nav {
  import opened JsValue

  /** `SEARCH_VISIBLE` / `SEARCH_HIDDEN` */
  datatype Visibility = Visible | Hidden

  /** The handlers the component registers: two on `document.body`, one on `document`. */
  datatype Listener = DocumentClick | ResultsRoving | Escape

  /** One hit of the search hook: the `slug` keys the list item, the `title` is the link text. */
  datatype SearchResult = SearchResult(slug: string, title: string)

  /**
   * `document.activeElement`, as far as the overlay is concerned: the search
   * input, the `i`-th result link, or the document body (where focus goes when
   * the focused element is removed from the page).
   */
  datatype Focus = OnInput | OnLink(i: nat) | OnBody

  const ESCAPE_KEY_CODE: int := 27
  const ARROW_DOWN: string := "ArrowDown"
  const ARROW_UP: string := "ArrowUp"

  /** The body listeners present while the overlay is open. */
  const OVERLAY_LISTENERS: set<Listener> := {DocumentClick, ResultsRoving}

  // ---------------------------------------------------------------------------
  // The navigation location
  // ---------------------------------------------------------------------------

  /**
   * `process.env.WORDPRESS_MENU_LOCATION_NAVIGATION || MENU_LOCATION_NAVIGATION_DEFAULT`:
   * an unset or empty configured location falls back to the default.
   */
  function NavigationLocation(configured: Option<string>, fallback: string): (location: string)
    ensures configured.Some? && configured.value != "" ==> location == configured.value
    ensures configured.None? || configured.value == "" ==> location == fallback
  {
    if configured.Some? && configured.value != "" then configured.value else fallback
  }

  // ---------------------------------------------------------------------------
  // handleResultsRoving: the DOM walk, branch by branch
  // ---------------------------------------------------------------------------
  //
  // While the overlay is open the search box holds one `form` (its only child)
  // whose children are the `input` and the results box; the box holds either a
  // `ul` with one `li` per result, each wrapping one link `a`, or the "Sorry"
  // paragraph `p`. A walk that reaches `null` throws a `TypeError`: `None` below.

  /** The element that ArrowDown focuses, for `k` rendered results. */
  function RovingDown(f: Focus, k: nat): (target: Option<Focus>)
    requires f.OnLink? ==> f.i < k
    ensures target.Some? && target.value.OnLink? ==> target.value.i < k
  {
    match f
    case OnInput =>
      if k > 0 then Some(OnLink(0))  // input.nextSibling.children[0] is the list: its first item's link
      else Some(OnInput)              // the form has no next sibling: input.parentElement.parentElement is the search box, whose first child is the form, whose first child is the input
    case OnLink(i) =>
      if i + 1 < k then Some(OnLink(i + 1))  // li.nextSibling.firstChild
      else Some(OnLink(0))                   // ul.firstChild.firstChild
    case OnBody =>
      None          // html has no next sibling and no parent element
  }

  /** The element that ArrowUp focuses, for `k` rendered results. */
  function RovingUp(f: Focus, k: nat): (target: Option<Focus>)
    requires f.OnLink? ==> f.i < k
    ensures target.Some? && target.value.OnLink? ==> target.value.i < k
  {
    match f
    case OnInput =>
      Some(OnInput)  // not a link: input.parentElement.parentElement.lastChild is the form, its first child the input
    case OnLink(i) =>
      if i > 0 then Some(OnLink(i - 1))  // li.previousSibling.firstChild
      else Some(OnLink(k - 1))           // ul.lastChild.firstChild
    case OnBody =>
      None          // html has no parent element
  }

  // ---------------------------------------------------------------------------
  // The intended roving order, as an index over [input, link_0, …, link_{k-1}]
  // ---------------------------------------------------------------------------

  function ToIndex(f: Focus): nat
    requires f.OnInput? || f.OnLink?
  {
    if f.OnInput? then 0 else f.i + 1
  }

  function FromIndex(p: nat): Focus {
    if p == 0 then OnInput else OnLink(p - 1)
  }

  /** ArrowDown: the next target, wrapping from the last link to the first; nothing to move to without links. */
  function DownIndex(p: nat, k: nat): nat {
    if k == 0 then p else if p == k then 1 else p + 1
  }

  /** ArrowUp: the previous target, wrapping from the first link to the last; the input stays. */
  function UpIndex(p: nat, k: nat): nat {
    if p == 0 then 0 else if p == 1 then k else p - 1
  }

  /**
   * On the input and the links, the DOM walk follows the index order over
   * [input, link_0, …, link_{k-1}], and it never leaves the targets [0, k].
   */
  lemma RovingFollowsIndex(f: Focus, k: nat)
    requires f.OnInput? || (f.OnLink? && f.i < k)
    ensures RovingDown(f, k) == Some(FromIndex(DownIndex(ToIndex(f), k)))
    ensures RovingUp(f, k) == Some(FromIndex(UpIndex(ToIndex(f), k)))
    ensures DownIndex(ToIndex(f), k) <= k && UpIndex(ToIndex(f), k) <= k
  {
  }

  /** ArrowDown from the link list never returns to the input; with the "Sorry" paragraph shown it leaves focus on the input. */
  lemma DownNeverReturnsToInput(f: Focus, k: nat)
    requires f.OnInput? || (f.OnLink? && f.i < k)
    ensures RovingDown(f, k) == Some(OnInput) <==> f.OnInput? && k == 0
  {
  }

  /** Between links, ArrowDown and ArrowUp are steps of one around a ring of `k`. */
  lemma LinksWrapAround(i: nat, k: nat)
    requires i < k
    ensures RovingDown(OnLink(i), k) == Some(OnLink((i + 1) % k))
    ensures RovingUp(OnLink(i), k) == Some(OnLink((i + k - 1) % k))
  {
    if i + 1 == k {
      ModUnique(i + 1, 1, 0, k);
    } else {
      ModUnique(i + 1, 0, i + 1, k);
    }
    if i == 0 {
      ModUnique(i + k - 1, 0, k - 1, k);
    } else {
      ModUnique(i + k - 1, 1, i - 1, k);
    }
  }

  /** ArrowUp undoes ArrowDown on the links. */
  lemma UpUndoesDown(i: nat, k: nat)
    requires i < k
    ensures RovingDown(OnLink(i), k).Some?
    ensures RovingUp(RovingDown(OnLink(i), k).value, k) == Some(OnLink(i))
  {
  }

  /** Focus after `n` ArrowDown presses. */
  function DownTimes(f: Focus, k: nat, n: nat): Focus
    requires f.OnLink? ==> f.i < k
    decreases n
  {
    if n == 0 then f
    else
      match RovingDown(f, k)
      case None => f
      case Some(g) => DownTimes(g, k, n - 1)
  }

  /** `n` ArrowDown presses from link `i` land on link `(i + n) % k`. */
  lemma {:induction false} DownTimesFromLink(i: nat, k: nat, n: nat)
    requires i < k
    ensures DownTimes(OnLink(i), k, n) == OnLink((i + n) % k)
    decreases n
  {
    if n == 0 {
      ModUnique(i, 0, i, k);
    } else {
      LinksWrapAround(i, k);
      var j := (i + 1) % k;
      assert DownTimes(OnLink(i), k, n) == DownTimes(OnLink(j), k, n - 1);
      DownTimesFromLink(j, k, n - 1);
      ModAddLeft(i + 1, n - 1, k);
      assert i + 1 + (n - 1) == i + n;
    }
  }

  /** Euclidean division has one remainder. */
  lemma ModUnique(x: int, q: int, r: int, k: int)
    requires k > 0 && 0 <= r < k && x == q * k + r
    ensures x % k == r
  {
    var d := q - x / k;
    assert d * k == x % k - r;
  }

  lemma ModAddLeft(a: nat, b: nat, k: nat)
    requires k > 0
    ensures (a % k + b) % k == (a + b) % k
  {
    var q := a / k;
    var q2 := (a % k + b) / k;
    assert (q + q2) * k == q * k + q2 * k;
    ModUnique(a + b, q + q2, (a % k + b) % k, k);
  }

  /** From the input with `k` links, `n >= 1` ArrowDown presses land on link `(n - 1) % k`. */
  lemma DownTimesFromInput(k: nat, n: nat)
    requires k > 0 && n >= 1
    ensures DownTimes(OnInput, k, n) == OnLink((n - 1) % k)
  {
    DownTimesFromLink(0, k, n - 1);
  }

  // ---------------------------------------------------------------------------
  // The state machine
  // ---------------------------------------------------------------------------

  /** Everything the overlay's behaviour depends on. */
  datatype NavView = NavView(
    visibility: Visibility,
    mobileOpen: bool,
    bodyListeners: set<Listener>,
    documentListeners: set<Listener>,
    focus: Focus,
    query: string,
    results: seq<SearchResult>,
    loaded: bool)

  datatype Event =
    | ToggleSearch                      // a click on the search toggle button
    | Click(insideForm: bool)           // a click anywhere; whether its path includes the form
    | KeyDown(key: string, keyCode: int)
    | SearchUpdated(query: string, results: seq<SearchResult>, loaded: bool)  // the search hook renders new state
    | ToggleMobileMenu

  /** The states the component can be in. */
  predicate ValidView(v: NavView) {
    && (v.visibility == Visible ==> v.bodyListeners == OVERLAY_LISTENERS)
    && (v.visibility == Hidden ==> v.bodyListeners == {})
    && v.documentListeners == {Escape}
    && (v.visibility == Hidden ==> v.focus == OnBody)
    && (v.focus.OnLink? ==> v.focus.i < |v.results|)
  }

  /** The first position whose result has the given slug. */
  function IndexOfSlug(results: seq<SearchResult>, slug: string): (r: Option<nat>)
    ensures r.Some? ==> r.value < |results| && results[r.value].slug == slug
    ensures r.Some? ==> forall j :: 0 <= j < r.value ==> results[j].slug != slug
    ensures r.None? ==> forall j :: 0 <= j < |results| ==> results[j].slug != slug
    decreases |results|
  {
    if results == [] then None
    else if results[0].slug == slug then Some(0)
    else
      match IndexOfSlug(results[1..], slug)
      case None => None
      case Some(j) => Some(j + 1)
  }

  /**
   * Focus after the result list is re-rendered: list items are keyed by slug,
   * so a focused link survives at the position of its slug, and a focused link
   * whose item is removed leaves focus on the body.
   */
  function Refocus(f: Focus, before: seq<SearchResult>, after: seq<SearchResult>): (g: Focus)
    ensures g.OnLink? ==> g.i < |after|
    ensures !f.OnLink? ==> g == f
    ensures f.OnLink? ==> g.OnLink? || g == OnBody
    ensures f.OnLink? && f.i < |before| && g.OnLink? ==> after[g.i].slug == before[f.i].slug
    ensures f.OnLink? && f.i < |before| ==>
      (g == OnBody <==> forall j :: 0 <= j < |after| ==> after[j].slug != before[f.i].slug)
    ensures f.OnLink? && f.i >= |before| ==> g == OnBody
  {
    match f
    case OnLink(i) =>
      if i < |before| then
        match IndexOfSlug(after, before[i].slug)
        case Some(j) => OnLink(j)
        case None => OnBody
      else OnBody
    case _ => f
  }

  /** `clearSearch()`: the hook empties the query and the results. */
  function Cleared(v: NavView): (w: NavView)
    ensures w.query == "" && w.results == []
    ensures w == v.(query := "", results := [], focus := w.focus)
    ensures v.focus.OnLink? ==> w.focus == OnBody
    ensures !v.focus.OnLink? ==> w.focus == v.focus
  {
    v.(query := "", results := [], focus := Refocus(v.focus, v.results, []))
  }

  /**
   * The effect on `[searchVisibility]`, run after a render in which the
   * visibility changed: on hiding, the body listeners go and the unmounted form
   * takes focus with it; on showing, they are added and the input is focused.
   */
  function Commit(before: NavView, after: NavView): (w: NavView)
    ensures before.visibility == after.visibility ==> w == after
    ensures w == after.(bodyListeners := w.bodyListeners, focus := w.focus)
    ensures before.visibility != after.visibility && after.visibility == Visible ==>
      w.bodyListeners == after.bodyListeners + OVERLAY_LISTENERS && w.focus == OnInput
    ensures before.visibility != after.visibility && after.visibility == Hidden ==>
      w.bodyListeners == after.bodyListeners - OVERLAY_LISTENERS && w.focus == OnBody
  {
    if before.visibility == after.visibility then after
    else if after.visibility == Hidden then
      after.(bodyListeners := after.bodyListeners - OVERLAY_LISTENERS,
             focus := if after.focus.OnInput? || after.focus.OnLink? then OnBody else after.focus)
    else
      after.(bodyListeners := after.bodyListeners + OVERLAY_LISTENERS, focus := OnInput)
  }

  /** `handleResultsRoving` */
  function Roving(v: NavView, key: string): (w: NavView)
    requires v.focus.OnLink? ==> v.focus.i < |v.results|
    ensures w == v.(focus := w.focus)
    ensures key != ARROW_DOWN && key != ARROW_UP ==> w == v
    ensures v.focus == OnBody ==> w == v
    ensures key == ARROW_DOWN && !v.focus.OnBody? ==> w.focus == FromIndex(DownIndex(ToIndex(v.focus), |v.results|))
    ensures key == ARROW_UP && !v.focus.OnBody? ==> w.focus == FromIndex(UpIndex(ToIndex(v.focus), |v.results|))
  {
    if key == ARROW_DOWN then
      match RovingDown(v.focus, |v.results|)
      case None => v
      case Some(f) => v.(focus := f)
    else if key == ARROW_UP then
      match RovingUp(v.focus, |v.results|)
      case None => v
      case Some(f) => v.(focus := f)
    else v
  }

  /** The component after one event. */
  function Step(v: NavView, e: Event): (w: NavView)
    requires v.focus.OnLink? ==> v.focus.i < |v.results|
    ensures w.documentListeners == v.documentListeners
    ensures w.mobileOpen != v.mobileOpen <==> e.ToggleMobileMenu?
    ensures !e.SearchUpdated? ==> w.loaded == v.loaded && (w.query != v.query ==> w.query == "")
    ensures v.visibility == Hidden && w.visibility == Visible <==> e.ToggleSearch? && v.visibility == Hidden && v.loaded
  {
    match e
    case ToggleSearch =>
      // the button is rendered only while hidden and is disabled until the search is loaded
      if v.visibility == Hidden && v.loaded then Commit(v, v.(visibility := Visible)) else v
    case Click(insideForm) =>
      if DocumentClick in v.bodyListeners && !insideForm then Commit(v, Cleared(v).(visibility := Hidden)) else v
    case KeyDown(key, keyCode) =>
      // the event reaches the body's listener before the document's
      var roved := if ResultsRoving in v.bodyListeners then Roving(v, key) else v;
      var escaped := if Escape in v.documentListeners && keyCode == ESCAPE_KEY_CODE then Cleared(roved).(visibility := Hidden) else roved;
      Commit(v, escaped)
    case SearchUpdated(query, results, loaded) =>
      v.(query := query, results := results, loaded := loaded, focus := Refocus(v.focus, v.results, results))
    case ToggleMobileMenu =>
      v.(mobileOpen := !v.mobileOpen)
  }

  /** The state after mounting: hidden, menu closed, only the Escape listener. */
  function Mounted(query: string, results: seq<SearchResult>, loaded: bool): NavView {
    NavView(Hidden, false, {}, {Escape}, OnBody, query, results, loaded)
  }

  /** Every event keeps the component in a valid state: listeners are attached exactly while visible. */
  lemma StepPreservesValid(v: NavView, e: Event)
    requires ValidView(v)
    ensures ValidView(Step(v, e))
  {
    if e.KeyDown? && ResultsRoving in v.bodyListeners {
      RovingKeepsFocusInRange(v, e.key);
    }
  }

  lemma RovingKeepsFocusInRange(v: NavView, key: string)
    requires v.focus.OnLink? ==> v.focus.i < |v.results|
    ensures Roving(v, key) == v.(focus := Roving(v, key).focus)
    ensures var r := Roving(v, key);
      && (r.focus.OnLink? ==> r.focus.i < |r.results|)
      && (v.focus == OnBody ==> r.focus == OnBody)
  {
  }

  /** The state after a sequence of events. */
  function Run(v: NavView, events: seq<Event>): NavView
    requires ValidView(v)
    ensures ValidView(Run(v, events))
    decreases |events|
  {
    if events == [] then v
    else
      StepPreservesValid(v, events[0]);
      Run(Step(v, events[0]), events[1..])
  }

  /** Arrow keys, and every other key but Escape, do nothing while the overlay is hidden. */
  lemma KeysIgnoredWhileHidden(v: NavView, key: string, keyCode: int)
    requires ValidView(v) && v.visibility == Hidden && keyCode != ESCAPE_KEY_CODE
    ensures Step(v, KeyDown(key, keyCode)) == v
  {
  }

  /** Escape clears the search and hides the overlay whatever the focus and visibility; pressing it again changes nothing. */
  lemma EscapeCloses(v: NavView, key: string, key2: string)
    requires ValidView(v)
    ensures var w := Step(v, KeyDown(key, ESCAPE_KEY_CODE));
      && w.visibility == Hidden && w.query == "" && w.results == [] && w.bodyListeners == {}
      && w.focus == OnBody
      && Step(w, KeyDown(key2, ESCAPE_KEY_CODE)) == w
  {
    var w := Step(v, KeyDown(key, ESCAPE_KEY_CODE));
    StepPreservesValid(v, KeyDown(key, ESCAPE_KEY_CODE));
  }

  /** The toggle opens the overlay only from hidden with the search loaded, and then focuses the input. */
  lemma ToggleOpens(v: NavView)
    requires ValidView(v)
    ensures var w := Step(v, ToggleSearch);
      && (w.visibility == Visible <==> v.visibility == Visible || v.loaded)
      && (v.visibility == Hidden && v.loaded ==> w.focus == OnInput && w.bodyListeners == OVERLAY_LISTENERS)
      && (v.visibility == Hidden && !v.loaded ==> w == v)
  {
  }

  /** A click outside the form closes and clears an open overlay; a click inside it changes nothing. */
  lemma OutsideClickCloses(v: NavView, insideForm: bool)
    requires ValidView(v) && v.visibility == Visible
    ensures var w := Step(v, Click(insideForm));
      && (insideForm ==> w == v)
      && (!insideForm ==> w.visibility == Hidden && w.query == "" && w.results == [] && w.bodyListeners == {})
      && (!insideForm ==> w.focus == OnBody)
  {
  }

  /** Whatever event hides the overlay also clears the query and the results, and detaches the body listeners. */
  lemma HidingClears(v: NavView, e: Event)
    requires ValidView(v) && v.visibility == Visible
    ensures var w := Step(v, e);
      w.visibility == Hidden ==> w.query == "" && w.results == [] && w.bodyListeners == {} && w.focus == OnBody
  {
  }

  /** Two mobile-menu toggles restore the state. */
  lemma MobileToggleTwice(v: NavView)
    requires ValidView(v)
    ensures Step(Step(v, ToggleMobileMenu), ToggleMobileMenu) == v
  {
  }

  /** With three results, four ArrowDown presses from the input come back to the first link. */
  lemma FourDownsWithThreeResults(results: seq<SearchResult>, query: string)
    requires |results| == 3
    ensures var open := NavView(Visible, false, OVERLAY_LISTENERS, {Escape}, OnInput, query, results, true);
      var down := KeyDown(ARROW_DOWN, 40);
      Run(open, [down, down, down, down]).focus == OnLink(0)
  {
    var open := NavView(Visible, false, OVERLAY_LISTENERS, {Escape}, OnInput, query, results, true);
    var down := KeyDown(ARROW_DOWN, 40);
    var s1 := Step(open, down);
    assert s1 == open.(focus := OnLink(0));
    var s2 := Step(s1, down);
    assert s2 == open.(focus := OnLink(1));
    var s3 := Step(s2, down);
    assert s3 == open.(focus := OnLink(2));
    var s4 := Step(s3, down);
    assert s4 == open.(focus := OnLink(0));
    assert [down, down, down, down][1..] == [down, down, down];
    assert [down, down, down][1..] == [down, down];
    assert [down, down][1..] == [down];
    assert [down][1..] == [];
    assert Run(s3, [down]) == Run(s4, []) == s4;
    assert Run(s2, [down, down]) == Run(s3, [down]);
    assert Run(s1, [down, down, down]) == Run(s2, [down, down]);
    assert Run(open, [down, down, down, down]) == Run(s1, [down, down, down]);
  }

  // ---------------------------------------------------------------------------
  // The component
  // ---------------------------------------------------------------------------

  class NavBar {
    var searchVisibility: Visibility
    var mobileOpen: bool
    var bodyListeners: set<Listener>
    var documentListeners: set<Listener>
    var focus: Focus
    var query: string
    var results: seq<SearchResult>
    var searchIsLoaded: bool

    function View(): NavView
      reads this
    {
      NavView(searchVisibility, mobileOpen, bodyListeners, documentListeners, focus, query, results, searchIsLoaded)
    }

    predicate Valid()
      reads this
    {
      ValidView(View())
    }

    /** Mounting: hidden, menu closed, the Escape listener added to the document. */
    constructor (query0: string, results0: seq<SearchResult>, loaded: bool)
      ensures Valid() && View() == Mounted(query0, results0, loaded)
    {
      searchVisibility := Hidden;
      mobileOpen := false;
      bodyListeners := {};
      documentListeners := {Escape};
      focus := OnBody;
      query := query0;
      results := results0;
      searchIsLoaded := loaded;
    }

    /** `clearSearch()`, and the re-render of the results it causes. */
    method ClearSearch()
      modifies this
      ensures View() == Cleared(old(View()))
    {
      focus := Refocus(focus, results, []);
      query := "";
      results := [];
    }

    /** The `[searchVisibility]` effect, given the visibility of the previous render. */
    method CommitVisibility(previous: Visibility)
      modifies this
      ensures View() == Commit(old(View()).(visibility := previous), old(View()))
    {
      if previous != searchVisibility {
        if searchVisibility == Hidden {
          bodyListeners := bodyListeners - OVERLAY_LISTENERS;
          if focus.OnInput? || focus.OnLink? {
            focus := OnBody;
          }
        } else {
          bodyListeners := bodyListeners + OVERLAY_LISTENERS;
          focus := OnInput;
        }
      }
    }

    /** `handleOnToggleSearch`, reachable through the button only while hidden and loaded. */
    method ToggleSearch()
      requires Valid()
      modifies this
      ensures Valid() && View() == Step(old(View()), Event.ToggleSearch)
    {
      if searchVisibility == Hidden && searchIsLoaded {
        searchVisibility := Visible;
        CommitVisibility(Hidden);
      }
    }

    /** A click, delivered to `handleOnDocumentClick` while it is attached. */
    method Click(insideForm: bool)
      requires Valid()
      modifies this
      ensures Valid() && View() == Step(old(View()), Event.Click(insideForm))
    {
      if DocumentClick in bodyListeners && !insideForm {
        var previous := searchVisibility;
        searchVisibility := Hidden;
        ClearSearch();
        CommitVisibility(previous);
      }
    }

    /** `handleResultsRoving`: moves the focus as the DOM walk does; a walk that throws leaves it. */
    method HandleResultsRoving(key: string)
      requires focus.OnLink? ==> focus.i < |results|
      modifies this
      ensures View() == Roving(old(View()), key)
    {
      if key == ARROW_DOWN {
        var target := RovingDown(focus, |results|);
        if target.Some? {
          focus := target.value;
        }
      } else if key == ARROW_UP {
        var target := RovingUp(focus, |results|);
        if target.Some? {
          focus := target.value;
        }
      }
    }

    /** A key press: `handleResultsRoving` on the body while attached, then `escFunction` on the document. */
    method KeyDown(key: string, keyCode: int)
      requires Valid()
      modifies this
      ensures Valid() && View() == Step(old(View()), Event.KeyDown(key, keyCode))
    {
      ghost var v := View();
      StepPreservesValid(v, Event.KeyDown(key, keyCode));
      var previous := searchVisibility;
      if ResultsRoving in bodyListeners {
        HandleResultsRoving(key);
      }
      ghost var roved := View();
      if Escape in documentListeners && keyCode == ESCAPE_KEY_CODE {
        ClearSearch();
        searchVisibility := Hidden;
      }
      assert View() == if Escape in v.documentListeners && keyCode == ESCAPE_KEY_CODE then Cleared(roved).(visibility := Hidden) else roved;
      CommitVisibility(previous);
    }

    /** The search hook renders a new query, result list and load state. */
    method SearchUpdated(query1: string, results1: seq<SearchResult>, loaded: bool)
      requires Valid()
      modifies this
      ensures Valid() && View() == Step(old(View()), Event.SearchUpdated(query1, results1, loaded))
    {
      focus := Refocus(focus, results, results1);
      query := query1;
      results := results1;
      searchIsLoaded := loaded;
    }

    /** `toggleMobileMenu` */
    method ToggleMobileMenu()
      requires Valid()
      modifies this
      ensures Valid() && View() == Step(old(View()), Event.ToggleMobileMenu)
    {
      mobileOpen := !mobileOpen;
    }
  }
}
