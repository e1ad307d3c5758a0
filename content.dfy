/** The interactivity and content tests: the collector of uncaught page errors and its
    critical-error filter, the per-route content checks, the contact form, and the link and
    card checks of the content pages. */
module Content {
  import opened Wrappers
  import opened Text
  import opened Locator
  import opened Registry
  import opened Battery

  // ---------------------------------------------------------------- page errors

  /** The messages of the `pageerror` events a page raised, in arrival order. */
  class ErrorLog {
    var errors: seq<string>

    /** An empty log, before the handler is attached to the page. */
    constructor ()
      ensures errors == []
    {
      errors := [];
    }

    /** The `pageerror` handler: records the error's message after those already recorded. */
    method OnPageError(message: string)
      modifies this
      ensures errors == old(errors) + [message]
    {
      errors := errors + [message];
    }
  }

  /** A message that mentions the favicon or analytics is not critical. The test is
      case-sensitive, so it recognises less than a case-insensitive reading would. */
  function IsNoise(message: string): (noise: bool)
    ensures noise ==> AnyCaseInsensitive(message, ["favicon", "analytics"])
  {
    if Contains(message, "favicon") then
      ContainsLower(message, "favicon");
      assert Lower("favicon") == "favicon";
      true
    else if Contains(message, "analytics") then
      ContainsLower(message, "analytics");
      assert Lower("analytics") == "analytics";
      true
    else false
  }

  /** The critical errors: the recorded messages that are not noise, in their order. */
  function CriticalErrors(errors: seq<string>): (cs: seq<string>)
    ensures |cs| <= |errors|
    ensures forall m :: m in cs <==> m in errors && !IsNoise(m)
  {
    if |errors| == 0 then []
    else
      var rest := CriticalErrors(errors[1..]);
      assert forall m :: m in errors <==> m == errors[0] || m in errors[1..];
      if IsNoise(errors[0]) then rest else [errors[0]] + rest
  }

  /** Filtering distributes over concatenation, so the critical errors keep the order in
      which the page raised them. */
  lemma {:induction false} CriticalErrorsAppend(a: seq<string>, b: seq<string>)
    ensures CriticalErrors(a + b) == CriticalErrors(a) + CriticalErrors(b)
    decreases |a|
  {
    if |a| == 0 {
      assert a + b == b;
    } else {
      assert (a + b)[1..] == a[1..] + b;
      CriticalErrorsAppend(a[1..], b);
    }
  }

  /** Filtering the critical errors again removes nothing. */
  lemma {:induction false} CriticalErrorsIdempotent(errors: seq<string>)
    ensures CriticalErrors(CriticalErrors(errors)) == CriticalErrors(errors)
    decreases |errors|
  {
    if |errors| > 0 {
      CriticalErrorsIdempotent(errors[1..]);
      var rest := CriticalErrors(errors[1..]);
      if !IsNoise(errors[0]) {
        assert ([errors[0]] + rest)[1..] == rest;
      }
    }
  }

  /** The JavaScript-error verdict: no critical error was recorded. */
  function JsErrorVerdict(errors: seq<string>): (ok: bool)
    ensures ok <==> forall i :: 0 <= i < |errors| ==> IsNoise(errors[i])
  {
    var cs := CriticalErrors(errors);
    assert forall i :: 0 <= i < |errors| ==> errors[i] in errors;
    assert |cs| > 0 ==> cs[0] in errors && !IsNoise(cs[0]);
    |cs| == 0
  }

  /** The JavaScript-error test: attach the handler, let the page raise `events`, then judge
      the log. It passes exactly when every event was noise. */
  method RunJsErrorTest(events: seq<string>) returns (recorded: seq<string>, ok: bool)
    ensures recorded == events
    ensures ok <==> forall i :: 0 <= i < |events| ==> IsNoise(events[i])
  {
    var log := new ErrorLog();
    for i := 0 to |events|
      invariant log.errors == events[..i]
    {
      log.OnPageError(events[i]);
      assert events[..i + 1] == events[..i] + [events[i]];
    }
    assert events[..|events|] == events;
    recorded := log.errors;
    ok := JsErrorVerdict(recorded);
  }

  /** The noise filter does not ignore case: an error about a missing "FAVICON" is critical. */
  lemma NoiseIsCaseSensitive(message: string)
    requires message == "FAVICON 404"
    ensures !IsNoise(message)
    ensures !JsErrorVerdict([message])
  {
    assert "favicon"[0] !in message;
    MissingChar(message, "favicon", 0);
    assert "analytics"[4] !in message;
    MissingChar(message, "analytics", 4);
  }

  // ---------------------------------------------------------------- per-route content

  /** A content check of one route: `main` must be visible and the body must match a
      case-insensitive alternation of the given words. */
  datatype RouteCheck = RouteCheck(route: string, alternatives: seq<string>)

  /** The five route checks, in the order the tests declare them. */
  const RouteChecks: seq<RouteCheck> := [
    RouteCheck("/investment-profiles", ["Investment"]),
    RouteCheck("/stakeholder-directory", ["Stakeholder", "Directory"]),
    RouteCheck("/knowledge-hub", ["Knowledge", "Resource"]),
    RouteCheck("/social-accountability", ["Accountability", "Social"]),
    RouteCheck("/news-events", ["News", "Events"])
  ]

  /** The verdict of a route check: `main` visible and some alternative found in the body,
      ignoring case; a null body reads as "". */
  function RouteContentVerdict(check: RouteCheck, mainVisible: bool, body: Option<string>): (ok: bool)
    ensures ok <==> mainVisible &&
                    exists i :: 0 <= i < |check.alternatives| &&
                                Contains(Lower(body.GetOr("")), Lower(check.alternatives[i]))
  {
    mainVisible && AnyCaseInsensitive(body.GetOr(""), check.alternatives)
  }

  /** The registry page each route check visits. */
  const RouteCheckPages: seq<nat> := [1, 3, 4, 2, 5]

  /** Each route check visits a registry page and accepts every word that page's
      static-content test accepts (for the stakeholder directory it also accepts
      "Directory"): on a page whose `main` is visible, the battery's content test passing
      implies the route check passing. */
  lemma RouteChecksCoverRegistry(k: nat, mainVisible: bool, body: Option<string>)
    requires k < |RouteChecks|
    ensures RouteChecks[k].route == Pages[RouteCheckPages[k]].url
    ensures mainVisible && ContentVerdict(Pages[RouteCheckPages[k]].expectedContent, body) ==>
              RouteContentVerdict(RouteChecks[k], mainVisible, body)
  {
    var p := Pages[RouteCheckPages[k]];
    assert forall a :: a in p.expectedContent ==> a in RouteChecks[k].alternatives;
    AnyCaseInsensitiveMonotone(body.GetOr(""), p.expectedContent, RouteChecks[k].alternatives);
  }

  /** The converse fails on the stakeholder directory: a body that says "directory" but never
      "stakeholder" passes the route check and fails the battery's content test. */
  lemma DirectoryWithoutStakeholder(body: string)
    requires Contains(Lower(body), "directory") && !Contains(Lower(body), "stakeholder")
    ensures RouteContentVerdict(RouteChecks[1], true, Some(body))
    ensures !ContentVerdict(Pages[3].expectedContent, Some(body))
  {
    assert Lower(RouteChecks[1].alternatives[1]) == "directory";
    assert Lower(Pages[3].expectedContent[0]) == "stakeholder";
  }

  // ---------------------------------------------------------------- contact form

  /** The contact-form test: the first form is visible, the first text field is visible,
      and the first submit control is visible. */
  function ContactFormVerdict(formVisible: bool, elements: seq<Element>): (ok: bool)
    ensures ok <==> formVisible && FirstIsVisible(elements, IsTextField) && FirstIsVisible(elements, IsSubmitControl)
  {
    formVisible && FirstIsVisible(elements, IsTextField) && FirstIsVisible(elements, IsSubmitControl)
  }

  /** A contact form that passes here passes the battery's form test too, since a visible
      text field is a form control. */
  lemma ContactFormImpliesForm(formVisible: bool, elements: seq<Element>)
    ensures ContactFormVerdict(formVisible, elements) ==> FormVerdict(formVisible, elements)
  {
    if ContactFormVerdict(formVisible, elements) {
      var i := FirstMatch(elements, IsTextField).value;
      assert IsFormControl(elements[i]);
    }
  }

  /** The converse fails: a form whose only field is a `select` passes the battery's form
      test but not the contact-form test. */
  lemma SelectOnlyForm()
    ensures FormVerdict(true, [Element("select", None, "", true), Element("button", Some("submit"), "", true)])
    ensures !ContactFormVerdict(true, [Element("select", None, "", true), Element("button", Some("submit"), "", true)])
  {
    var es := [Element("select", None, "", true), Element("button", Some("submit"), "", true)];
    assert IsFormControl(es[0]) && IsSubmitControl(es[1]) && !IsSubmitControl(es[0]);
    assert !IsTextField(es[0]) && !IsTextField(es[1]);
  }

  /** The submit-button test: the first `button[type="submit"], input[type="submit"]` is
      visible. Its selector is the typed half of the contact form's submit selector. */
  function SubmitButtonVerdict(elements: seq<Element>): (ok: bool)
    ensures ok <==> exists i :: 0 <= i < |elements| && IsTypedSubmit(elements[i]) && elements[i].visible &&
                               forall j :: 0 <= j < i ==> !IsTypedSubmit(elements[j])
  {
    FirstIsVisible(elements, IsTypedSubmit)
  }

  /** Where every submit control carries a submit type, the two tests judge the submit
      control alike: the contact form passes exactly when its fields are visible and the
      submit-button test passes. */
  lemma TypedSubmitAgrees(formVisible: bool, elements: seq<Element>)
    requires forall i :: 0 <= i < |elements| && IsSubmitControl(elements[i]) ==> IsTypedSubmit(elements[i])
    ensures ContactFormVerdict(formVisible, elements) <==>
              formVisible && FirstIsVisible(elements, IsTextField) && SubmitButtonVerdict(elements)
  {
    FirstMatchSame(elements, IsSubmitControl, IsTypedSubmit);
  }

  /** Otherwise they part: a visible button labelled "Send" with no type passes the
      contact-form test and fails the submit-button test. */
  lemma UntypedSendButton()
    ensures ContactFormVerdict(true, [Element("input", Some("text"), "", true), Element("button", None, "Send", true)])
    ensures !SubmitButtonVerdict([Element("input", Some("text"), "", true), Element("button", None, "Send", true)])
  {
    var es := [Element("input", Some("text"), "", true), Element("button", None, "Send", true)];
    assert Lower("Send") == "send";
    assert StartsWith(Lower(es[1].text), "send");
    assert IsSubmitControl(es[1]) && !IsSubmitControl(es[0]) && IsTextField(es[0]);
    assert !IsTypedSubmit(es[0]) && !IsTypedSubmit(es[1]);
  }

  // ---------------------------------------------------------------- navigation interactivity

  /** The clickable-menu test: the first navigation landmark is visible, its first link is
      visible, and that link has a non-empty `href`. */
  function ClickableMenuVerdict(navVisible: bool, firstLinkVisible: bool, firstHref: Option<string>): (ok: bool)
    ensures ok ==> navVisible && firstLinkVisible
    ensures ok <==> navVisible && firstLinkVisible && firstHref.Some? && |firstHref.value| > 0
  {
    navVisible && firstLinkVisible && firstHref.GetOr("") != ""
  }

  /** The menu-navigation test: when the first link labelled "Investment" is visible, the
      address reached by clicking it contains "investment"; otherwise it makes no claim. */
  function InvestmentLinkVerdict(linkVisible: bool, urlAfterClick: string): (ok: bool)
    ensures !linkVisible ==> ok
    ensures linkVisible ==> (ok <==> Contains(urlAfterClick, "investment"))
  {
    !linkVisible || Contains(urlAfterClick, "investment")
  }

  /** A click that lands on the registry's investment route passes. */
  lemma InvestmentRoutePasses(origin: string)
    ensures InvestmentLinkVerdict(true, origin + Pages[1].url)
  {
    var route := Pages[1].url;
    assert OccursAt(route, "investment", 1);
    ContainsAt(route, "investment", 1);
    ContainsInConcat(route, origin, "investment");
  }

  /** The mobile-viewport test: `main` is visible and a mobile menu, if present, is visible. */
  function MobileViewportVerdict(mainVisible: bool, menuCount: nat, menuVisible: bool): (ok: bool)
    ensures ok ==> mainVisible
    ensures mainVisible ==> (ok <==> OptionalFeature(menuCount, menuVisible))
  {
    mainVisible && OptionalFeature(menuCount, menuVisible)
  }
}
