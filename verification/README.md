# wap-testing browser layer and search page, modelled in Dafny

The repository is a Selenium end-to-end test suite for the Twitch mobile site. This
project models the decision logic inside it:

- **Browser factory** (`BrowserFactory`, browser_factory.dfy): a browser name is
  lower-cased (ASCII) and looked up among `chrome`, `firefox` and `edge`; a miss
  raises `ValueError("Invalid browser name: " + name)` with the name as given.
  `IsValidBrowser` is a separate list-membership test, proved to agree with the
  lookup.
- **Browsers** (`Drivers`, drivers.dfy): the abstract `Browser` class and its
  Chrome, Firefox and Edge subclasses become one class `Browser` with a constant
  `kind`. The three subclasses differ only in the native `Options` class they
  fill and the driver constructor they call. drivers/firefox_browser.py:19-55 and
  drivers/edge_browser.py:19-55 have the same shape as drivers/chrome_browser.py:19-55,
  so `Browser.AddOptions` and `Browser.GetDriver` model all three. Selenium's
  `Options` object is the class `NativeOptions`, which holds a `seq<string>` of
  arguments; `add_argument` appends to it.
- **Interactions** (`Actions`, session.dfy): the live browser that the pages
  drive is a `Session` holding a log of the interactions the base page performs:
  waits, clicks, typing and scrolling. Whether an interaction raises (a timed-out
  wait, a script error) is decided by an environment oracle, `failsAfter`. The
  session completes interactions while fewer than `failsAfter` are logged, and
  every later one raises. `AttemptAll` runs straight-line code: the first
  exception propagates and nothing after it runs.
- **Search page** (`Pages`, search_page.dfy): `search`, `click_on_menu`,
  `select_streamer_randomly` and `load_more_streamers`. Each is a method of
  `SearchPage` that appends to the session log. `load_more_streamers` is a
  recursion in the source. Here it is a loop, proved equal to `LoadMore`, a
  function that follows the recursion branch by branch. `random.randint` is
  `RandInt` over an arbitrary `draw` supplied by the caller. The number of
  streamers the visibility wait returns is the parameter `found`.

The model follows the code throughout: an unknown name raises `ValueError`,
not a dedicated error type. A failing driver
constructor's exception is re-raised unchanged. `load_more_streamers` defaults to
`max_scrolls = 1`, as in the signature, although its docstring says 2. The
empty-list branch of `select_streamer_randomly` is a silent return.

## Model

| member | source | states |
|---|---|---|
| `BrowserFactory.Lower` | drivers/browser_factory.py:54 | `str.lower()` keeps the length and lower-cases each character (ASCII) |
| `BrowserFactory.Resolve` | drivers/browser_factory.py:49-57 | a success names the variant registered under the lowered name; a failure raises `ValueError` whose message is "Invalid browser name: " followed by the original name, and happens only when the lowered name is none of the three |
| `BrowserFactory.IsValidBrowser` | drivers/browser_factory.py:74-83 | the list-membership check is true exactly when the dictionary lookup of `get_browser` succeeds; it is a function, so it constructs nothing |
| `BrowserFactory.GetBrowser` | drivers/browser_factory.py:24-61 | succeeds exactly when `is_valid_browser` holds; on success a new browser of the resolved variant holding `options` unchanged (`None` when omitted); otherwise the `ValueError` with the original name |
| `BrowserFactory.ResolveAccepts` | drivers/browser_factory.py:49-54 | a name is accepted exactly when its lower-case form is "chrome", "firefox" or "edge" |
| `BrowserFactory.ResolveNamesVariant` | drivers/browser_factory.py:49-61 | a name resolves to a variant exactly when its lower-case form is that variant's own name: chrome to Chrome, firefox to Firefox, edge to Edge, and no other pairing |
| `BrowserFactory.ResolveIgnoresCase` | drivers/browser_factory.py:54-61 | two names equal up to letter case are both accepted or both refused, and select the same variant |
| `BrowserFactory.LowerIdempotent` | drivers/browser_factory.py:54-61 | lower-casing twice equals lower-casing once; the lowered name is accepted exactly when the original is and selects the same variant (a refusal's message still carries the spelling given) |
| `BrowserFactory.ResolveChromeAnyCase` | drivers/browser_factory.py:54-61 | "chrome", "Chrome" and "CHROME" all select Chrome |
| `BrowserFactory.ResolveOtherNames` | drivers/browser_factory.py:49-61 | "FireFox" selects Firefox and "EDGE" selects Edge |
| `BrowserFactory.ResolveRefusals` | drivers/browser_factory.py:54-57 | "Safari" and "" are refused with the messages "Invalid browser name: Safari" and "Invalid browser name: " |
| `Drivers.Browser.constructor` | drivers/browser.py:17-18 | a new browser holds exactly the options it was given (`None` when omitted) |
| `Drivers.Browser.SetOptions` | drivers/browser.py:30-37 | the stored options become the argument whatever they were; only `options` may change, so a repeated call changes nothing and the last call wins |
| `Drivers.Arguments` | drivers/chrome_browser.py:45-49 | the `if self.options:` test: nothing is handed to `add_argument` exactly when the options are `None` or empty, otherwise every entry of the list (the same test at firefox_browser.py:45 and edge_browser.py:45) |
| `Drivers.Browser.AddOptions` | drivers/chrome_browser.py:36-55 | the native argument list becomes its previous contents followed by every entry of `options` in order, each once; nothing is added for `None` or `[]`; `options` itself is not modified |
| `Drivers.Browser.GetDriver` | drivers/chrome_browser.py:19-34 | the driver is started from a fresh options object, so its arguments are exactly the browser's options in order; a constructor failure is raised to the caller unchanged |
| `Drivers.NativeOptions.constructor` | drivers/firefox_browser.py:28 | `Options()` starts with no argument (the same at chrome_browser.py:28 and edge_browser.py:28) |
| `Drivers.NativeOptions.AddArgument` | drivers/edge_browser.py:49 | `add_argument` appends one argument at the end (the same at chrome_browser.py:49 and firefox_browser.py:48) |
| `Actions.Session.Perform` | pages/base_page.py:69-155 | any one base-page interaction (`click`, `send_keys`, `scroll_down`, `wait_for_page_to_load`, and the `self.wait.until` calls of pages/search_page.py:72-80) is logged when the session still responds, and otherwise is raised with nothing logged |
| `Actions.AttemptAll` | pages/search_page.py:79-81 | straight-line calls in a `try` that re-raises: the log gains a prefix of the attempted interactions, all of them on success, and on failure the exception raised is that of the first interaction not logged |
| `Actions.AttemptAllEffect` | pages/search_page.py:103-109 | a run of interactions completes exactly when the session has room for all of them, and then logs them all in order; otherwise it logs those before the first failure, raises that one, and attempts nothing after it |
| `Pages.MenuLocator` | pages/search_page.py:53-56 | the locator is of strategy XPath and the label can be read back from the value `//div[contains(text(), '<label>')]` built for it |
| `Pages.MenuOptionRoundTrip` | pages/search_page.py:53 | every XPath locator of that shape is the one built for the label read out of it |
| `Pages.MenuLocatorInjective` | pages/search_page.py:53-56 | different labels give different locators |
| `Pages.RandInt` | pages/search_page.py:78 | `randint(lo, hi)` lies in `[lo, hi]`, both ends included |
| `Pages.RandIntCoversRange` | pages/search_page.py:78 | every value of `[lo, hi]` is drawn by some draw |
| `Pages.LoadMore` | pages/search_page.py:97-109 | the recursion as written keeps the earlier log, adds at most two interactions per remaining scroll, exactly that many when it returns normally, and can only raise the failure of a page-load wait or a scroll |
| `Pages.LoadMoreRunsCycles` | pages/search_page.py:97-106 | the recursion attempts exactly `max(0, max_scrolls - current_scroll)` wait-then-scroll cycles; it terminates because the counter rises toward `max_scrolls` |
| `Pages.CyclesAlternate` | pages/search_page.py:104-105 | the cycles alternate a page-load wait and a scroll, starting with the wait |
| `Pages.CyclesCount` | pages/search_page.py:104-106 | `n` cycles hold `n` waits, `n` scrolls and nothing else |
| `Pages.LoadMoreCompletes` | pages/search_page.py:97-106 | on a session that keeps responding, `load_more_streamers` logs exactly the cycles and returns normally; with `current_scroll >= max_scrolls` it logs nothing |
| `Pages.LoadMoreStopsAtFailure` | pages/search_page.py:103-109 | when a wait or scroll fails, that exception is raised, the log holds only the interactions before it, and no later cycle runs |
| `Pages.SelectionActions` | pages/search_page.py:72-81 | the interactions of `select_streamer_randomly` start with the wait for the streamer list; with none found that is all, otherwise it is followed by a wait until the drawn streamer is clickable and a click on that same streamer, whose index is below `found` |
| `Pages.SelectionClicksInRange` | pages/search_page.py:74-81 | any click `select_streamer_randomly` makes is on a streamer whose index lies in `[0, found - 1]`; with no streamer found nothing is clicked |
| `Pages.SearchPage.constructor` | pages/search_page.py:24-28 | the page acts on the session it was given |
| `Pages.SearchPage.Search` | pages/search_page.py:30-44 | the only interaction is typing `text` followed by ENTER into the search input; its failure is raised |
| `Pages.SearchPage.ClickOnMenu` | pages/search_page.py:46-61 | the only interaction is one click on the XPath locator built from the label; its failure is raised |
| `Pages.SearchPage.SelectStreamerRandomly` | pages/search_page.py:63-86 | waits for the streamer list; returns without clicking when it is empty; otherwise waits for and clicks the streamer at the drawn index, which lies in `[0, found - 1]`; any failure is raised |
| `Pages.SearchPage.LoadMoreStreamers` | pages/search_page.py:88-109 | the loop leaves the log and outcome the recursion `LoadMore` gives |

## Left out

- Base-page internals (pages/base_page.py): Selenium waits, expected conditions, `execute_script`, the fixed sleep after the ready-state check, screenshots and file checks. Each wait or action is one logged interaction; durations and polling are real time and are not modelled.
- Live browser failures: the `failsAfter` oracle fixes one point after which every interaction raises. A session that raises once and later recovers is not represented. This makes no difference to the methods modelled, because each of them stops at its first exception.
- pages/home_page.py and pages/streamer_page.py: one or two waits or clicks each, with nothing to state beyond their order. They are not part of this model.
- tests/conftest.py and tests/test_search_page.py: process management and an end-to-end script against the live site. utilities/logger.py, utilities/utils.py and config/config.py: logging, file paths and constants. All logging calls are left out everywhere.
- `random.randint`'s generator: the draw is an arbitrary natural number chosen by the caller, so a fixed draw gives a fixed choice.
- `Drivers.Browser.AddOptions`: Selenium's `add_argument` refuses an empty argument with an exception. Here it is a plain append, because that validation is outside this repository.
- `BrowserFactory.Lower`: only ASCII letters are lower-cased; Python's Unicode case mapping is not modelled.
- `Drivers.Browser.SetOptions`: Python accepts any value; here options are `None` or a list of strings, as the factory's signature declares.
- `Drivers.Browser.SetOptions`: Python stores the caller's list by reference (drivers/browser.py:18 and :37), so a later mutation of that list changes what `get_driver` applies. Here options are held by value as a snapshot, and that aliasing is not modelled.
- `Pages.SearchPage.LoadMoreStreamers`: each cycle of the Python recursion adds a stack frame, so with `max_scrolls - current_scroll` near CPython's recursion limit (1000 by default) the call raises `RecursionError` part-way, and the `except` clause re-raises it. The loop and `LoadMore` follow the intended unbounded recursion, and the recursion limit is not modelled.
- `Pages.SearchPage.SelectStreamerRandomly`: the model takes the empty-list branch as the code writes it. It does not claim that Selenium's visibility wait can ever return an empty list.
- The abstract `Browser` class cannot be instantiated in Python; here every `Browser` has a concrete `kind`, so every browser has a `GetDriver`.
