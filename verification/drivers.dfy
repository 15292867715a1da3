/**
 * The browser abstraction of drivers/browser.py and its three variants
 * (drivers/chrome_browser.py, drivers/firefox_browser.py, drivers/edge_browser.py).
 *
 * The abstract base class and its subclasses become one class `Browser` whose
 * constant `kind` says which variant it is: the variants differ only in the
 * native options class they fill and the driver constructor they call.
 */
module Drivers {
  import opened Wrappers

  datatype BrowserKind = Chrome | Firefox | Edge

  /** The `options` attribute: `None` when omitted, otherwise a list of flags. */
  type BrowserOptions = Option<seq<string>>

  /**
   * The entries `_add_options` hands to `add_argument`: nothing when the options
   * are `None` or empty (the `if self.options:` test), every entry otherwise.
   */
  function Arguments(options: BrowserOptions): (args: seq<string>)
    ensures args == [] <==> options.None? || options.value == []
    ensures options.Some? ==> args == options.value
  {
    match options
    case None => []
    case Some(list) => list
  }

  /** Selenium's `Options` object of one browser variant, reduced to its argument list. */
  class NativeOptions {
    const kind: BrowserKind
    var arguments: seq<string>

    /** `Options()`: a fresh object holds no argument. */
    constructor (kind: BrowserKind)
      ensures this.kind == kind && arguments == []
    {
      this.kind := kind;
      arguments := [];
    }

    /** `add_argument`: appends one argument. */
    method AddArgument(argument: string)
      modifies this
      ensures arguments == old(arguments) + [argument]
    {
      arguments := arguments + [argument];
    }
  }

  /** A live web driver, described by its variant and the arguments it was started with. */
  datatype WebDriver = WebDriver(kind: BrowserKind, arguments: seq<string>)

  /** What the native driver constructor (`webdriver.Chrome(...)` and the like) does. */
  datatype Launch = Started | Crashed(cause: string)

  class Browser {
    const kind: BrowserKind
    var options: BrowserOptions

    /** `__init__(options=None)`: the browser holds exactly the options it was given. */
    constructor (kind: BrowserKind, options: BrowserOptions := None)
      ensures this.kind == kind && this.options == options
    {
      this.kind := kind;
      this.options := options;
    }

    /** `set_options`: the stored options become `newOptions`; nothing else changes. */
    method SetOptions(newOptions: BrowserOptions)
      modifies this`options
      ensures options == newOptions
    {
      options := newOptions;
    }

    /**
     * `_add_options`: appends every entry of `options`, in order, to `native`,
     * and leaves `options` as it was.
     */
    method AddOptions(native: NativeOptions)
      modifies native
      ensures native.arguments == old(native.arguments) + Arguments(options)
    {
      if options.Some? && |options.value| > 0 {
        var list := options.value;
        for i := 0 to |list|
          invariant native.arguments == old(native.arguments) + list[..i]
        {
          native.AddArgument(list[i]);
        }
      }
    }

    /**
     * `get_driver`: builds a fresh native options object, applies every option to
     * it, then calls the driver constructor, whose outcome `launch` supplies. A
     * started driver carries exactly `Arguments(options)`; the constructor's
     * exception is logged and raised again unchanged.
     */
    method GetDriver(launch: Launch) returns (r: Result<WebDriver, string>)
      ensures r.Success? <==> launch.Started?
      ensures r.Success? ==> r.value.kind == kind && r.value.arguments == Arguments(options)
      ensures r.Failure? ==> r.error == launch.cause
    {
      var native := new NativeOptions(kind);
      AddOptions(native);
      match launch
      case Started =>
        r := Success(WebDriver(native.kind, native.arguments));
      case Crashed(cause) =>
        r := Failure(cause);
    }
  }
}
