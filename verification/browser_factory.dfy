/**
 * `BrowserFactory` of drivers/browser_factory.py: resolves a browser name,
 * ignoring letter case, to one of the three variants.
 */
module BrowserFactory {
  import opened Wrappers
  import opened Drivers

  /** ASCII lower-casing of one character (`str.lower` restricted to ASCII). */
  function LowerChar(c: char): char
  {
    if 'A' <= c <= 'Z' then (c as int - 'A' as int + 'a' as int) as char else c
  }

  /** `str.lower()`, character by character. */
  function Lower(s: string): (r: string)
    ensures |r| == |s|
    ensures forall i :: 0 <= i < |s| ==> r[i] == LowerChar(s[i])
  {
    if s == [] then [] else [LowerChar(s[0])] + Lower(s[1..])
  }

  /** The name each variant is registered under, in lower case. */
  function Name(kind: BrowserKind): string
  {
    match kind
    case Chrome => "chrome"
    case Firefox => "firefox"
    case Edge => "edge"
  }

  /** The dictionary `browsers` of `get_browser`. */
  const Browsers: map<string, BrowserKind> :=
    map["chrome" := Chrome, "firefox" := Firefox, "edge" := Edge]

  /** The list `valid_browsers` of `is_valid_browser`. */
  const ValidBrowsers: seq<string> := ["chrome", "firefox", "edge"]

  /** The `ValueError` raised for an unsupported name. */
  datatype FactoryError = ValueError(message: string)

  const InvalidNamePrefix: string := "Invalid browser name: "

  /**
   * The decision `get_browser` takes: the lowered name is looked up in
   * `Browsers`; a miss raises `ValueError` naming the ORIGINAL name.
   */
  function Resolve(name: string): (r: Result<BrowserKind, FactoryError>)
    ensures r.Success? ==> Name(r.value) == Lower(name)
    ensures r.Failure? ==> r.error.message == InvalidNamePrefix + name
    ensures r.Failure? ==> forall kind: BrowserKind :: Lower(name) != Name(kind)
  {
    var key := Lower(name);
    if key in Browsers then Success(Browsers[key])
    else Failure(ValueError(InvalidNamePrefix + name))
  }

  /** `is_valid_browser`: a membership test on a list; it builds nothing. */
  function IsValidBrowser(name: string): (valid: bool)
    ensures valid <==> Resolve(name).Success?
  {
    Lower(name) in ValidBrowsers
  }

  /**
   * `get_browser`: constructs the resolved variant with `options` passed
   * through unchanged (`None` when the caller omits them).
   */
  method GetBrowser(name: string, options: BrowserOptions := None) returns (r: Result<Browser, FactoryError>)
    ensures r.Success? <==> IsValidBrowser(name)
    ensures r.Success? ==> fresh(r.value) && Resolve(name) == Success(r.value.kind)
    ensures r.Success? ==> r.value.options == options
    ensures r.Failure? ==> r == Failure(ValueError(InvalidNamePrefix + name))
  {
    var resolved := Resolve(name);
    match resolved
    case Failure(e) =>
      r := Failure(e);
    case Success(kind) =>
      var browser := new Browser(kind, options);
      r := Success(browser);
  }

  /** A name is accepted exactly when its lower-case form is one of the three registered names. */
  lemma ResolveAccepts(name: string)
    ensures Resolve(name).Success? <==> Lower(name) in {"chrome", "firefox", "edge"}
  {
  }

  /** Each variant is reached from its own name and from no other. */
  lemma ResolveNamesVariant(name: string, kind: BrowserKind)
    ensures Resolve(name) == Success(kind) <==> Lower(name) == Name(kind)
  {
  }

  /** Two names that differ only in letter case resolve alike. */
  lemma ResolveIgnoresCase(a: string, b: string)
    requires Lower(a) == Lower(b)
    ensures Resolve(a).Success? == Resolve(b).Success?
    ensures Resolve(a).Success? ==> Resolve(a).value == Resolve(b).value
  {
  }

  /**
   * Lower-casing is idempotent, so the lowered name is accepted exactly when the
   * original is, and selects the same variant (only the error message differs,
   * since it carries the spelling it was given).
   */
  lemma LowerIdempotent(s: string)
    ensures Lower(Lower(s)) == Lower(s)
    ensures Resolve(Lower(s)).Success? == Resolve(s).Success?
    ensures Resolve(s).Success? ==> Resolve(Lower(s)) == Resolve(s)
  {
  }

  /** A string with no upper-case ASCII letter is its own lower-case form. */
  lemma LowerOfLowercase(s: string)
    requires forall i :: 0 <= i < |s| ==> !('A' <= s[i] <= 'Z')
    ensures Lower(s) == s
  {
  }

  /** "Chrome", "CHROME" and "chrome" all select Chrome. */
  lemma ResolveChromeAnyCase()
    ensures Resolve("chrome") == Success(Chrome)
    ensures Resolve("Chrome") == Success(Chrome)
    ensures Resolve("CHROME") == Success(Chrome)
  {
    LowerOfLowercase("chrome");
    assert Lower("Chrome") == "chrome";
    assert Lower("CHROME") == "chrome";
  }

  /** Mixed-case spellings of the other two names select their own variants. */
  lemma ResolveOtherNames()
    ensures Resolve("FireFox") == Success(Firefox)
    ensures Resolve("EDGE") == Success(Edge)
  {
    assert Lower("FireFox") == "firefox";
    assert Lower("EDGE") == "edge";
  }

  /** "safari" and the empty name are refused, and the message carries the name as given. */
  lemma ResolveRefusals()
    ensures Resolve("Safari") == Failure(ValueError("Invalid browser name: Safari"))
    ensures Resolve("") == Failure(ValueError("Invalid browser name: "))
  {
    LowerOfLowercase("");
    assert Lower("Safari") == "safari";
    assert "safari" !in Browsers && "" !in Browsers;
    assert InvalidNamePrefix + "Safari" == "Invalid browser name: Safari";
    assert InvalidNamePrefix + "" == "Invalid browser name: ";
  }
}
