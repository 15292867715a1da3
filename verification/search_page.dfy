/**
 * `SearchPage` of pages/search_page.py: searching, choosing a results tab,
 * picking a streamer at random and scrolling for more results, each as the
 * interactions it performs on the session.
 */
module Pages {
  import opened Wrappers
  import opened Actions

  const MenuPrefix: string := "//div[contains(text(), '"
  const MenuSuffix: string := "')]"

  /** The XPath locator `click_on_menu` builds from a menu label; the label can be read back from it. */
  function MenuLocator(option: string): (locator: Locator)
    ensures locator.strategy == XPath
    ensures MenuOption(locator) == Some(option)
  {
    Locator(XPath, MenuPrefix + option + MenuSuffix)
  }

  /** Reads the menu label back out of a locator, if it has the shape `MenuLocator` builds. */
  function MenuOption(locator: Locator): Option<string>
  {
    var v := locator.value;
    if locator.strategy == XPath && |v| >= |MenuPrefix| + |MenuSuffix|
       && v[..|MenuPrefix|] == MenuPrefix && v[|v| - |MenuSuffix|..] == MenuSuffix
    then Some(v[|MenuPrefix|..|v| - |MenuSuffix|])
    else None
  }

  /** Every locator of that shape is the one built for its label. */
  lemma MenuOptionRoundTrip(locator: Locator, option: string)
    requires MenuOption(locator) == Some(option)
    ensures MenuLocator(option) == locator
  {
  }

  /** Different labels give different locators, so a menu click names its label exactly. */
  lemma MenuLocatorInjective(a: string, b: string)
    requires MenuLocator(a) == MenuLocator(b)
    ensures a == b
  {
  }

  /**
   * `random.randint(lo, hi)`, inclusive at both ends, with the random source
   * supplied as an arbitrary `draw`.
   */
  function RandInt(lo: int, hi: int, draw: nat): (r: int)
    requires lo <= hi
    ensures lo <= r <= hi
  {
    lo + draw % (hi - lo + 1)
  }

  /** Every value of the range is drawn by some `draw`. */
  lemma RandIntCoversRange(lo: int, hi: int, value: int)
    requires lo <= value <= hi
    ensures RandInt(lo, hi, value - lo) == value
  {
  }

  /** One load-more cycle after another: wait for the page, then scroll. */
  function Cycles(n: nat): seq<Action>
  {
    if n == 0 then [] else [WaitForPageToLoad, ScrollDown] + Cycles(n - 1)
  }

  /** The number of cycles `load_more_streamers(max_scrolls, current_scroll)` runs. */
  function CycleCount(maxScrolls: int, currentScroll: int): nat
  {
    if currentScroll >= maxScrolls then 0 else maxScrolls - currentScroll
  }

  /**
   * `load_more_streamers` as the source writes it: stop once `currentScroll`
   * reaches `maxScrolls`, otherwise wait, scroll and recurse with the counter
   * one higher; an exception from the wait or the scroll propagates.
   */
  function LoadMore(log: seq<Action>, failsAfter: Option<nat>, maxScrolls: int, currentScroll: int): (r: (seq<Action>, Outcome))
    ensures |log| <= |r.0| <= |log| + 2 * CycleCount(maxScrolls, currentScroll)
    ensures r.0[..|log|] == log
    ensures r.1.Pass? ==> |r.0| == |log| + 2 * CycleCount(maxScrolls, currentScroll)
    ensures r.1.Fail? ==> r.1.error in {ActionFailed(WaitForPageToLoad), ActionFailed(ScrollDown)}
    decreases maxScrolls - currentScroll
  {
    if currentScroll >= maxScrolls then (log, Pass)
    else
      var (waited, w) := Attempt(log, failsAfter, WaitForPageToLoad);
      if w.Fail? then (waited, w)
      else
        var (scrolled, s) := Attempt(waited, failsAfter, ScrollDown);
        if s.Fail? then (scrolled, s)
        else LoadMore(scrolled, failsAfter, maxScrolls, currentScroll + 1)
  }

  /** The recursion performs exactly `CycleCount(maxScrolls, currentScroll)` wait-then-scroll cycles. */
  lemma {:induction false} LoadMoreRunsCycles(log: seq<Action>, failsAfter: Option<nat>, maxScrolls: int, currentScroll: int)
    ensures LoadMore(log, failsAfter, maxScrolls, currentScroll)
         == AttemptAll(log, failsAfter, Cycles(CycleCount(maxScrolls, currentScroll)))
    decreases maxScrolls - currentScroll
  {
    if currentScroll < maxScrolls {
      var n := CycleCount(maxScrolls, currentScroll);
      var rest := Cycles(n - 1);
      assert Cycles(n) == [WaitForPageToLoad, ScrollDown] + rest;
      assert Cycles(n)[1..] == [ScrollDown] + rest;
      assert ([ScrollDown] + rest)[1..] == rest;
      LoadMoreRunsCycles(log + [WaitForPageToLoad, ScrollDown], failsAfter, maxScrolls, currentScroll + 1);
      assert log + [WaitForPageToLoad] + [ScrollDown] == log + [WaitForPageToLoad, ScrollDown];
    }
  }

  /** The cycles alternate wait and scroll, starting with a wait. */
  lemma {:induction false} CyclesAlternate(n: nat)
    ensures |Cycles(n)| == 2 * n
    ensures forall i :: 0 <= i < 2 * n ==>
      Cycles(n)[i] == if i % 2 == 0 then WaitForPageToLoad else ScrollDown
  {
    if n > 0 {
      CyclesAlternate(n - 1);
      var c := Cycles(n);
      assert c == [WaitForPageToLoad, ScrollDown] + Cycles(n - 1);
      forall i | 2 <= i < 2 * n
        ensures c[i] == if i % 2 == 0 then WaitForPageToLoad else ScrollDown
      {
        assert c[i] == Cycles(n - 1)[i - 2];
      }
    }
  }

  /** The cycles hold `n` waits, `n` scrolls and nothing else. */
  lemma {:induction false} CyclesCount(n: nat)
    ensures multiset(Cycles(n)) == multiset{}[WaitForPageToLoad := n][ScrollDown := n]
  {
    if n > 0 {
      CyclesCount(n - 1);
      assert Cycles(n) == [WaitForPageToLoad, ScrollDown] + Cycles(n - 1);
    }
  }

  /**
   * On a session with room for every interaction, `load_more_streamers` logs
   * exactly `CycleCount` wait-then-scroll cycles and returns normally; with
   * `currentScroll >= maxScrolls` (in particular `maxScrolls <= 0` from the
   * start) it logs nothing.
   */
  lemma LoadMoreCompletes(log: seq<Action>, failsAfter: Option<nat>, maxScrolls: int, currentScroll: int)
    requires Consistent(log, failsAfter)
    requires Fits(log, failsAfter, 2 * CycleCount(maxScrolls, currentScroll))
    ensures LoadMore(log, failsAfter, maxScrolls, currentScroll)
         == (log + Cycles(CycleCount(maxScrolls, currentScroll)), Pass)
  {
    LoadMoreRunsCycles(log, failsAfter, maxScrolls, currentScroll);
    CyclesAlternate(CycleCount(maxScrolls, currentScroll));
    AttemptAllEffect(log, failsAfter, Cycles(CycleCount(maxScrolls, currentScroll)));
  }

  /**
   * When the session fails part-way, the interaction that fails is raised and
   * no later wait or scroll is attempted: the log holds exactly the cycles'
   * first `done` interactions.
   */
  lemma LoadMoreStopsAtFailure(log: seq<Action>, failsAfter: Option<nat>, maxScrolls: int, currentScroll: int)
    requires Consistent(log, failsAfter)
    requires !Fits(log, failsAfter, 2 * CycleCount(maxScrolls, currentScroll))
    ensures
      var cycles := Cycles(CycleCount(maxScrolls, currentScroll));
      var done := failsAfter.value - |log|;
      0 <= done < |cycles| &&
      LoadMore(log, failsAfter, maxScrolls, currentScroll)
        == (log + cycles[..done], Fail(ActionFailed(if done % 2 == 0 then WaitForPageToLoad else ScrollDown)))
  {
    var cycles := Cycles(CycleCount(maxScrolls, currentScroll));
    LoadMoreRunsCycles(log, failsAfter, maxScrolls, currentScroll);
    CyclesAlternate(CycleCount(maxScrolls, currentScroll));
    AttemptAllEffect(log, failsAfter, cycles);
  }

  /** The interactions `select_streamer_randomly` attempts when the wait reports `found` streamers. */
  function SelectionActions(streamers: Locator, found: nat, draw: nat): (actions: seq<Action>)
    ensures |actions| == if found == 0 then 1 else 3
    ensures actions[0] == WaitAllVisible(streamers)
    ensures found > 0 ==>
      actions[2].Click? && actions[1] == WaitClickable(actions[2].target) &&
      actions[2].target.Element? && actions[2].target.locator == streamers && actions[2].target.index < found
  {
    if found == 0 then [WaitAllVisible(streamers)]
    else
      var index := RandInt(0, found - 1, draw);
      [WaitAllVisible(streamers), WaitClickable(Element(streamers, index)), Click(Element(streamers, index))]
  }

  /**
   * The streamer clicked lies in `[0, found - 1]`, and with no streamer found
   * nothing is clicked.
   */
  lemma SelectionClicksInRange(streamers: Locator, found: nat, draw: nat, target: Target)
    requires Click(target) in SelectionActions(streamers, found, draw)
    ensures found > 0 && target.Element? && target.locator == streamers && target.index < found
  {
  }

  class SearchPage {
    const session: Session
    const inputSearch: Locator := Locator(CssSelector, "[data-a-target='tw-input']")
    const streamers: Locator := Locator(CssSelector, "[role='list']>div")
    const image: Locator := Locator(CssSelector, "img.tw-image")

    constructor (session: Session)
      ensures this.session == session
    {
      this.session := session;
    }

    /** `search`: types `text` into the search box and presses ENTER, nothing else. */
    method Search(text: string) returns (r: Outcome)
      requires session.Valid()
      modifies session
      ensures session.Valid()
      ensures (session.log, r)
           == AttemptAll(old(session.log), session.failsAfter, [SendKeys(Located(inputSearch), text, Some(Enter))])
    {
      r := session.Perform(SendKeys(Located(inputSearch), text, Some(Enter)));
    }

    /** `click_on_menu`: one click on the XPath locator built from `option`. */
    method ClickOnMenu(option: string) returns (r: Outcome)
      requires session.Valid()
      modifies session
      ensures session.Valid()
      ensures (session.log, r)
           == AttemptAll(old(session.log), session.failsAfter, [Click(Located(MenuLocator(option)))])
    {
      r := session.Perform(Click(Located(MenuLocator(option))));
    }

    /**
     * `select_streamer_randomly`: waits for the list of streamers (of which the
     * session reports `found`), returns quietly when there are none, otherwise
     * draws an index with `randint(0, found - 1)`, waits until that streamer is
     * clickable and clicks it. `picked` is the index drawn, if one was.
     */
    method SelectStreamerRandomly(found: nat, draw: nat) returns (r: Outcome, picked: Option<nat>)
      requires session.Valid()
      modifies session
      ensures session.Valid()
      ensures (session.log, r) == AttemptAll(old(session.log), session.failsAfter, SelectionActions(streamers, found, draw))
      ensures picked.Some? <==> found > 0 && Responsive(old(session.log), session.failsAfter)
      ensures picked.Some? ==> picked.value < found && picked.value == RandInt(0, found - 1, draw)
    {
      ghost var actions := SelectionActions(streamers, found, draw);
      ghost var goal := AttemptAll(session.log, session.failsAfter, actions);
      assert actions != [] && actions[0] == WaitAllVisible(streamers);
      picked := None;
      r := session.Perform(WaitAllVisible(streamers));
      if r.Fail? {
        return;
      }
      assert goal == AttemptAll(session.log, session.failsAfter, actions[1..]);
      if found == 0 {
        assert actions[1..] == [];
        return;
      }
      var index := RandInt(0, found - 1, draw);
      picked := Some(index);
      var element := Element(streamers, index);
      assert actions[1..] == [WaitClickable(element), Click(element)];
      r := session.Perform(WaitClickable(element));
      if r.Fail? {
        return;
      }
      assert goal == AttemptAll(session.log, session.failsAfter, [Click(element)]);
      r := session.Perform(Click(element));
      assert [Click(element)][1..] == [];
    }

    /**
     * `load_more_streamers`: the source's recursion, run as a loop whose
     * counter climbs to `maxScrolls`.
     */
    method LoadMoreStreamers(maxScrolls: int := 1, currentScroll: int := 0) returns (r: Outcome)
      requires session.Valid()
      modifies session
      ensures session.Valid()
      ensures (session.log, r) == LoadMore(old(session.log), session.failsAfter, maxScrolls, currentScroll)
    {
      var current := currentScroll;
      while current < maxScrolls
        invariant session.Valid()
        invariant LoadMore(session.log, session.failsAfter, maxScrolls, current)
               == LoadMore(old(session.log), session.failsAfter, maxScrolls, currentScroll)
        decreases maxScrolls - current
      {
        r := session.Perform(WaitForPageToLoad);
        if r.Fail? {
          return;
        }
        r := session.Perform(ScrollDown);
        if r.Fail? {
          return;
        }
        current := current + 1;
      }
      r := Pass;
    }
  }
}
