/**
 * The live browser as the page objects see it, reduced to a log of the
 * interactions the base page performs on it (pages/base_page.py): waits,
 * clicks, typing and scrolling. The browser's own behaviour is not modelled;
 * whether an interaction fails (a wait that times out, a script error) is an
 * environment oracle `failsAfter`: the session completes interactions while
 * fewer than `failsAfter` have been logged, and every later one raises.
 */
module Actions {
  import opened Wrappers

  datatype Strategy = CssSelector | XPath

  /** A `(By.<strategy>, value)` locator tuple. */
  datatype Locator = Locator(strategy: Strategy, value: string)

  /** What an interaction is aimed at: the match of a locator, or the `index`-th of its matches. */
  datatype Target = Located(locator: Locator) | Element(locator: Locator, index: nat)

  datatype Key = Enter

  datatype Action =
    | WaitForPageToLoad                                        // `wait_for_page_to_load`
    | ScrollDown                                               // `scroll_down`
    | WaitAllVisible(locator: Locator)                         // `visibility_of_all_elements_located`
    | WaitClickable(target: Target)                            // `element_to_be_clickable`
    | Click(target: Target)                                    // `click`
    | SendKeys(target: Target, text: string, key: Option<Key>) // `send_keys`

  /** The exception an interaction raised; page methods log it and raise it again. */
  datatype Error = ActionFailed(action: Action)

  datatype Outcome = Pass | Fail(error: Error)

  /** A log the oracle can have produced: it never holds more than `failsAfter` interactions. */
  predicate Consistent(log: seq<Action>, failsAfter: Option<nat>)
  {
    failsAfter.None? || |log| <= failsAfter.value
  }

  /** Whether the session still completes an interaction after `log`. */
  predicate Responsive(log: seq<Action>, failsAfter: Option<nat>)
  {
    failsAfter.None? || |log| < failsAfter.value
  }

  /** Whether `count` more interactions all complete after `log`. */
  predicate Fits(log: seq<Action>, failsAfter: Option<nat>, count: nat)
  {
    failsAfter.None? || |log| + count <= failsAfter.value
  }

  /** Attempting `action` after `log`: it is logged on success and raised otherwise. */
  function Attempt(log: seq<Action>, failsAfter: Option<nat>, action: Action): (seq<Action>, Outcome)
  {
    if Responsive(log, failsAfter) then (log + [action], Pass)
    else (log, Fail(ActionFailed(action)))
  }

  /**
   * Attempting `actions` in order as straight-line Python code does: the first
   * exception propagates and nothing after it runs.
   */
  function AttemptAll(log: seq<Action>, failsAfter: Option<nat>, actions: seq<Action>): (r: (seq<Action>, Outcome))
    ensures |log| <= |r.0| <= |log| + |actions|
    ensures r.0 == log + actions[..|r.0| - |log|]
    ensures r.1.Pass? ==> r.0 == log + actions
    ensures r.1.Fail? ==> |r.0| < |log| + |actions| && r.1.error == ActionFailed(actions[|r.0| - |log|])
    decreases |actions|
  {
    if actions == [] then (log, Pass)
    else
      var (next, outcome) := Attempt(log, failsAfter, actions[0]);
      if outcome.Fail? then (next, outcome) else AttemptAll(next, failsAfter, actions[1..])
  }

  /**
   * A run of interactions completes exactly when the session has room for all
   * of them, and then logs them all in order; otherwise it logs the ones the
   * session had room for and raises the failure of the first one it had not.
   */
  lemma {:induction false} AttemptAllEffect(log: seq<Action>, failsAfter: Option<nat>, actions: seq<Action>)
    requires Consistent(log, failsAfter)
    ensures AttemptAll(log, failsAfter, actions).1.Pass? <==> Fits(log, failsAfter, |actions|)
    ensures Fits(log, failsAfter, |actions|) ==> AttemptAll(log, failsAfter, actions) == (log + actions, Pass)
    ensures !Fits(log, failsAfter, |actions|) ==>
      var done := failsAfter.value - |log|;
      0 <= done < |actions| &&
      AttemptAll(log, failsAfter, actions) == (log + actions[..done], Fail(ActionFailed(actions[done])))
    decreases |actions|
  {
    if actions == [] {
      assert log + actions == log;
    } else {
      if !Responsive(log, failsAfter) {
        assert log + actions[..0] == log;
      } else {
        var next := log + [actions[0]];
        AttemptAllEffect(next, failsAfter, actions[1..]);
        assert next + actions[1..] == log + actions;
        if !Fits(log, failsAfter, |actions|) {
          var done := failsAfter.value - |log|;
          assert actions[1..][..done - 1] == actions[1..done];
          assert next + actions[1..done] == log + actions[..done];
        }
      }
    }
  }

  class Session {
    var log: seq<Action>
    const failsAfter: Option<nat>

    predicate Valid()
      reads this
    {
      Consistent(log, failsAfter)
    }

    constructor (failsAfter: Option<nat>)
      ensures Valid() && log == [] && this.failsAfter == failsAfter
    {
      log := [];
      this.failsAfter := failsAfter;
    }

    /** One base-page interaction. */
    method Perform(action: Action) returns (r: Outcome)
      requires Valid()
      modifies this
      ensures Valid()
      ensures (log, r) == Attempt(old(log), failsAfter, action)
    {
      if Responsive(log, failsAfter) {
        log := log + [action];
        r := Pass;
      } else {
        r := Fail(ActionFailed(action));
      }
    }
  }
}
