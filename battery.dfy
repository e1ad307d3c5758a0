/** The functional battery over the page registry: which tests each page gets, and how each
    test turns what the browser reports into a verdict. */
module Battery {
  import opened Wrappers
  import opened Text
  import opened Locator
  import opened Registry
  import opened Flow

  /** The tests generated for a page. */
  datatype CheckKind = Load | MainContent | StaticContent | Navigation | Images | Form

  /** One registered test: the page it belongs to and its kind. */
  datatype TestCase = TestCase(page: string, kind: CheckKind)

  /** The tests a page gets, in the order they are declared. */
  function PageChecks(p: PageInfo): (ks: seq<CheckKind>)
    ensures Load in ks && MainContent in ks && StaticContent in ks && Images in ks
    ensures Navigation in ks <==> p.hasNavigation
    ensures Form in ks <==> p.hasForm
    ensures ks[0] == Load
  {
    [Load, MainContent, StaticContent]
      + (if p.hasNavigation then [Navigation] else [])
      + [Images]
      + (if p.hasForm then [Form] else [])
  }

  /** The test cases registered for one page: one per kind it asks for, under its name. */
  function Registrations(p: PageInfo): (cs: seq<TestCase>)
    ensures |cs| == |PageChecks(p)|
  {
    var ks := PageChecks(p);
    seq(|ks|, i requires 0 <= i < |ks| => TestCase(p.name, ks[i]))
  }

  /** The registrations written out kind by kind, as the registering loop issues them. */
  lemma RegistrationsInOrder(p: PageInfo)
    ensures Registrations(p) ==
              [TestCase(p.name, Load), TestCase(p.name, MainContent), TestCase(p.name, StaticContent)]
              + (if p.hasNavigation then [TestCase(p.name, Navigation)] else [])
              + [TestCase(p.name, Images)]
              + (if p.hasForm then [TestCase(p.name, Form)] else [])
  {
    var ks := PageChecks(p);
    var written := [TestCase(p.name, Load), TestCase(p.name, MainContent), TestCase(p.name, StaticContent)]
              + (if p.hasNavigation then [TestCase(p.name, Navigation)] else [])
              + [TestCase(p.name, Images)]
              + (if p.hasForm then [TestCase(p.name, Form)] else []);
    assert |written| == |ks|;
    forall i | 0 <= i < |ks| ensures Registrations(p)[i] == written[i] {
    }
  }

  /** A page registers a test exactly when the test carries its name and a kind it asks for. */
  lemma RegistrationsMembership(p: PageInfo, c: TestCase)
    ensures c in Registrations(p) <==> c.page == p.name && c.kind in PageChecks(p)
  {
    var cs, ks := Registrations(p), PageChecks(p);
    if c.page == p.name && c.kind in ks {
      var k :| 0 <= k < |ks| && ks[k] == c.kind;
      assert cs[k] == c;
    }
  }

  /** The test cases registered for a list of pages, page after page. */
  function Expansion(ps: seq<PageInfo>): seq<TestCase> {
    if |ps| == 0 then [] else Expansion(ps[..|ps| - 1]) + Registrations(ps[|ps| - 1])
  }

  /** The body of `test.describe` for one page: its tests, registered one after another,
      the navigation and form tests only when the page asks for them. */
  method RegisterPage(page: PageInfo) returns (checks: seq<TestCase>)
    ensures checks == Registrations(page)
  {
    checks := [TestCase(page.name, Load), TestCase(page.name, MainContent),
               TestCase(page.name, StaticContent)];
    if page.hasNavigation {
      checks := checks + [TestCase(page.name, Navigation)];
    }
    checks := checks + [TestCase(page.name, Images)];
    if page.hasForm {
      checks := checks + [TestCase(page.name, Form)];
    }
    RegistrationsInOrder(page);
  }

  /** The `for (const pageInfo of pages)` loop that registers the tests of every page. */
  method ExpandBattery(ps: seq<PageInfo>) returns (cases: seq<TestCase>)
    ensures cases == Expansion(ps)
  {
    cases := [];
    for i := 0 to |ps|
      invariant cases == Expansion(ps[..i])
    {
      var checks := RegisterPage(ps[i]);
      ExpansionStep(ps, i);
      cases := cases + checks;
    }
    assert ps[..|ps|] == ps;
  }

  /** One more page adds its registrations at the end. */
  lemma ExpansionStep(ps: seq<PageInfo>, i: nat)
    requires i < |ps|
    ensures Expansion(ps[..i + 1]) == Expansion(ps[..i]) + Registrations(ps[i])
  {
    assert ps[..i + 1][..i] == ps[..i];
  }

  /** A test is registered exactly when some page of that name asks for that kind of test. */
  lemma {:induction false} ExpansionMembership(ps: seq<PageInfo>, c: TestCase)
    ensures c in Expansion(ps) <==> exists i :: 0 <= i < |ps| && ps[i].name == c.page && c.kind in PageChecks(ps[i])
    decreases |ps|
  {
    if |ps| > 0 {
      var init, p := ps[..|ps| - 1], ps[|ps| - 1];
      ExpansionMembership(init, c);
      RegistrationsMembership(p, c);
      assert c in Expansion(ps) <==> c in Expansion(init) || c in Registrations(p);
      assert forall i :: 0 <= i < |init| ==> init[i] == ps[i];
    }
  }

  /** Over the registry: every page gets the load, main-content, static-content,
      navigation and image tests, and only "Contact Us" gets the form test. */
  lemma RegistryBattery(name: string)
    ensures (exists i :: 0 <= i < |Pages| && Pages[i].name == name) ==>
              forall k :: k in [Load, MainContent, StaticContent, Navigation, Images] ==>
                TestCase(name, k) in Expansion(Pages)
    ensures TestCase(name, Form) in Expansion(Pages) <==> name == "Contact Us"
  {
    RegistryFlags();
    forall k | k in [Load, MainContent, StaticContent, Navigation, Images]
      ensures (exists i :: 0 <= i < |Pages| && Pages[i].name == name) ==> TestCase(name, k) in Expansion(Pages)
    {
      ExpansionMembership(Pages, TestCase(name, k));
    }
    ExpansionMembership(Pages, TestCase(name, Form));
    assert Pages[6].name == "Contact Us";
  }

  // ---------------------------------------------------------------- load

  /** Text whose presence in the body marks an error page, tested case-sensitively. */
  const LoadErrorMarkers: seq<string> := ["404", "Page Not Found", "Error"]

  /** Why a load test fails: the first `expect` that throws. */
  datatype LoadFailure = WrongUrl | NullBody | ErrorText(marker: string)

  /** The load test: the URL must contain the route, then the body must contain none of the
      markers. `expect(null).not.toContain(...)` throws, so a null body fails here. */
  function LoadVerdict(route: string, v: View): (r: Option<LoadFailure>)
    ensures r.None? <==> Contains(v.url, route) && v.body.Some? &&
                         forall i :: 0 <= i < |LoadErrorMarkers| ==> !Contains(v.body.value, LoadErrorMarkers[i])
    ensures r == Some(WrongUrl) <==> !Contains(v.url, route)
    ensures r.Some? && r.value.ErrorText? ==>
              r.value.marker in LoadErrorMarkers && Contains(v.body.GetOr(""), r.value.marker)
  {
    if !Contains(v.url, route) then Some(WrongUrl)
    else if v.body.None? then Some(NullBody)
    else match FirstPresent(v.body.value, LoadErrorMarkers)
      case None => None
      case Some(k) => Some(ErrorText(LoadErrorMarkers[k]))
  }

  /** A sentence that mentions an "Error" without any error page. */
  const ErrorSentence: string := "Error reporting guide"

  /** A phone number that happens to hold the digits 404. */
  const PhoneNumber: string := "Call +255 404 1234"

  /** An ordinary heading that begins with the word "Error", and holds neither "404" nor
      "Page Not Found", fails the load test with the "Error" marker. */
  lemma LoadRejectsErrorSentence(route: string, body: string)
    requires body == ErrorSentence
    ensures LoadVerdict(route, View(route, Some(body))) == Some(ErrorText("Error"))
  {
    ErrorSentenceMarkers(body);
    StartsWithContains(body, "Error");
    LoadRejectsErrorWord(route, body);
  }

  /** `ErrorSentence` starts with "Error" and holds neither of the other two markers. */
  lemma ErrorSentenceMarkers(s: string)
    requires s == ErrorSentence
    ensures StartsWith(s, "Error") && !Contains(s, "404") && !Contains(s, "Page Not Found")
  {
    ErrorSentenceLacks(s, "404");
    ErrorSentenceLacks(s, "Page Not Found");
  }

  /** `ErrorSentence` holds neither the digit '4' nor a capital 'P', so it contains no
      marker that starts with either. */
  lemma ErrorSentenceLacks(s: string, marker: string)
    requires s == ErrorSentence
    requires |marker| > 0 && (marker[0] == '4' || marker[0] == 'P')
    ensures !Contains(s, marker)
  {
    assert marker[0] !in s;
    MissingChar(s, marker, 0);
  }

  /** `PhoneNumber` holds "404". */
  lemma PhoneNumberMarker(s: string)
    requires s == PhoneNumber
    ensures Contains(s, "404")
  {
    var tail, head := s[10..], s[..10];
    assert StartsWith(tail, "404");
    ContainsInConcat(tail, head, "404");
    assert head + tail == s;
  }

  /** The error detector is a plain substring test: any body that mentions "Error" fails the
      load test, whatever the rest of the page says; `ErrorSentence`, an ordinary heading,
      is one such body. */
  lemma LoadRejectsErrorWord(route: string, body: string)
    requires Contains(body, "Error")
    ensures LoadVerdict(route, View(route, Some(body))).Some?
    ensures !Contains(body, "404") && !Contains(body, "Page Not Found") ==>
              LoadVerdict(route, View(route, Some(body))) == Some(ErrorText("Error"))
  {
    StartsWithContains(route, route);
    assert LoadErrorMarkers[2] == "Error";
  }

  /** Likewise a body holding a phone number with 404 in it fails the load test. */
  lemma LoadRejectsPhoneNumber(route: string, body: string)
    requires body == PhoneNumber
    ensures LoadVerdict(route, View(route, Some(body))) == Some(ErrorText("404"))
  {
    StartsWithContains(route, route);
    PhoneNumberMarker(body);
  }

  // ---------------------------------------------------------------- main content

  /** The verdict of a test: passed, passed only through the `main` fallback (which logs a
      warning), or failed. */
  datatype Outcome = Passed | PassedOnFallback | Failed

  /** The main-content test: any failure of the page-specific selector (not attached, not
      visible, not scrollable) is caught and the test falls back to requiring `main` visible. */
  function MainContentVerdict(specificVisible: bool, mainVisible: bool): (o: Outcome)
    ensures specificVisible ==> o == Passed
    ensures !specificVisible ==> (o == PassedOnFallback <==> mainVisible) && (o == Failed <==> !mainVisible)
  {
    if specificVisible then Passed
    else if mainVisible then PassedOnFallback
    else Failed
  }

  // ---------------------------------------------------------------- static content

  /** The static-content test: some expected item, lower-cased, occurs in the lower-cased
      body; a null body reads as "". */
  function ContentVerdict(expected: seq<string>, body: Option<string>): (ok: bool)
    ensures ok <==> exists i :: 0 <= i < |expected| &&
                               Contains(Lower(body.GetOr("")), Lower(expected[i]))
  {
    AnyCaseInsensitive(body.GetOr(""), expected)
  }

  /** With no expected content the test cannot pass; with a null body it passes only if
      some expected item is empty. */
  lemma ContentVerdictEdges(expected: seq<string>)
    ensures !ContentVerdict([], None)
    ensures !ContentVerdict([], Some(""))
    ensures (forall i :: 0 <= i < |expected| ==> expected[i] != "") ==> !ContentVerdict(expected, None)
  {
    forall i | 0 <= i < |expected| && expected[i] != ""
      ensures !Contains(Lower(""), Lower(expected[i]))
    {
      ContainsLonger(Lower(""), Lower(expected[i]));
    }
  }

  // ---------------------------------------------------------------- navigation

  /** The navigation test: the first navigation landmark is visible and the navigation holds
      at least one link. */
  function NavigationVerdict(navVisible: bool, linkCount: nat): (ok: bool)
    ensures linkCount == 0 ==> !ok
    ensures !navVisible ==> !ok
    ensures navVisible && linkCount > 0 ==> ok
  {
    navVisible && linkCount > 0
  }

  // ---------------------------------------------------------------- images

  /** At most this many `img[src]` elements are examined. */
  const ImageSampleLimit: nat := 5

  /** `Math.min(count, 5)`. */
  function SampleSize(count: nat): (n: nat)
    ensures n <= count && n <= ImageSampleLimit
    ensures n == count || n == ImageSampleLimit
  {
    if count < ImageSampleLimit then count else ImageSampleLimit
  }

  /** A source the loop skips with `continue`: null, empty, `data:` or `blob:`. */
  function Skipped(src: Option<string>): (skip: bool)
    ensures !skip ==> src.Some? && |src.value| > 0
    ensures src.Some? && StartsWith(src.value, "http") ==> !skip
  {
    assert "data:"[0] != 'h' && "blob:"[0] != 'h';
    src.None? || src.value == "" || StartsWith(src.value, "data:") || StartsWith(src.value, "blob:")
  }

  /** The URL requested for a source: a source starting with "http" as it is, any other
      source appended to the base URL with no separator. */
  function ResolveImageUrl(baseURL: string, src: string): (u: string)
    ensures StartsWith(src, "http") ==> u == src
    ensures !StartsWith(src, "http") ==> StartsWith(u, baseURL) && u[|baseURL|..] == src
  {
    if StartsWith(src, "http") then src else baseURL + src
  }

  /** The relative-URL rule is a prefix test, not a URL parser: a protocol-relative source is
      glued to the base, and a relative path that happens to begin with "http" is not. */
  lemma ResolveImageUrlExamples()
    ensures ResolveImageUrl("https://tdt.akvotest.org", "//cdn.example/a.png") ==
            "https://tdt.akvotest.org//cdn.example/a.png"
    ensures ResolveImageUrl("https://tdt.akvotest.org", "httpdocs/a.png") == "httpdocs/a.png"
  {
    assert "//cdn.example/a.png"[0] != "http"[0];
    assert StartsWith("httpdocs/a.png", "http");
  }

  /** The URLs of the sources that are not skipped, resolved, in order. */
  function ProbedUrls(baseURL: string, srcs: seq<Option<string>>): (us: seq<string>)
    ensures |us| <= |srcs|
  {
    if |srcs| == 0 then []
    else
      var last := srcs[|srcs| - 1];
      ProbedUrls(baseURL, srcs[..|srcs| - 1])
        + if Skipped(last) then [] else [ResolveImageUrl(baseURL, last.value)]
  }

  /** Probing a concatenation probes each part in turn. */
  lemma {:induction false} ProbedUrlsAppend(baseURL: string, a: seq<Option<string>>, b: seq<Option<string>>)
    ensures ProbedUrls(baseURL, a + b) == ProbedUrls(baseURL, a) + ProbedUrls(baseURL, b)
    decreases |b|
  {
    if |b| > 0 {
      var b' := b[..|b| - 1];
      assert (a + b)[..|a + b| - 1] == a + b';
      ProbedUrlsAppend(baseURL, a, b');
    } else {
      assert a + b == a;
    }
  }

  /** A URL is probed exactly when it is the resolution of some source that is not skipped. */
  lemma {:induction false} ProbedUrlsMembership(baseURL: string, srcs: seq<Option<string>>, u: string)
    ensures u in ProbedUrls(baseURL, srcs) <==>
            exists i :: 0 <= i < |srcs| && !Skipped(srcs[i]) && u == ResolveImageUrl(baseURL, srcs[i].value)
    decreases |srcs|
  {
    if |srcs| > 0 {
      var init := srcs[..|srcs| - 1];
      ProbedUrlsMembership(baseURL, init, u);
      assert forall i :: 0 <= i < |init| ==> init[i] == srcs[i];
    }
  }

  /** The image test's verdict: every examined source that is not skipped answers its HEAD
      request with a status below 400. Only the first `min(count, 5)` sources are examined,
      and a skipped source still takes one of the five places. */
  function ImagesHealthy(baseURL: string, srcs: seq<Option<string>>, status: string -> int): (healthy: bool)
    ensures (forall i :: 0 <= i < |srcs| ==> Skipped(srcs[i])) ==> healthy
    ensures |srcs| > ImageSampleLimit ==>
              (healthy <==> ImagesHealthy(baseURL, srcs[..ImageSampleLimit], status))
    decreases |srcs|
  {
    assert |srcs| > ImageSampleLimit ==>
             forall i :: 0 <= i < ImageSampleLimit ==> srcs[..ImageSampleLimit][i] == srcs[i];
    forall i :: 0 <= i < SampleSize(|srcs|) && !Skipped(srcs[i]) ==>
      status(ResolveImageUrl(baseURL, srcs[i].value)) < 400
  }

  /** The verdict read off the probed URLs: healthy exactly when every URL requested answers
      below 400. */
  lemma ImagesHealthyIff(baseURL: string, srcs: seq<Option<string>>, status: string -> int)
    ensures var urls := ProbedUrls(baseURL, srcs[..SampleSize(|srcs|)]);
            ImagesHealthy(baseURL, srcs, status) <==> forall k :: 0 <= k < |urls| ==> status(urls[k]) < 400
  {
    var n := SampleSize(|srcs|);
    var sample := srcs[..n];
    var urls := ProbedUrls(baseURL, sample);
    if ImagesHealthy(baseURL, srcs, status) {
      forall k | 0 <= k < |urls| ensures status(urls[k]) < 400 {
        ProbedUrlsMembership(baseURL, sample, urls[k]);
      }
    } else {
      var i :| 0 <= i < n && !Skipped(srcs[i]) && status(ResolveImageUrl(baseURL, srcs[i].value)) >= 400;
      assert sample[i] == srcs[i];
      ProbedUrlsMembership(baseURL, sample, ResolveImageUrl(baseURL, srcs[i].value));
    }
  }

  /** Only the sample matters: five skipped sources hide a broken sixth image. */
  lemma SkippedSourcesUseSlots(baseURL: string, broken: string, status: string -> int)
    requires status(ResolveImageUrl(baseURL, broken)) >= 400
    ensures var srcs := [None, Some(""), Some("data:image/png"), Some("blob:x"), Some("data:"), Some(broken)];
            ImagesHealthy(baseURL, srcs, status)
  {
    var srcs := [None, Some(""), Some("data:image/png"), Some("blob:x"), Some("data:"), Some(broken)];
    assert StartsWith("data:image/png", "data:");
    assert StartsWith("blob:x", "blob:");
    assert StartsWith("data:", "data:");
    assert forall i :: 0 <= i < 5 ==> Skipped(srcs[i]);
  }

  /** The URLs probed for the first `i` sources begin the URLs probed for the first `n`. */
  lemma ProbedUrlsPrefix(baseURL: string, srcs: seq<Option<string>>, i: nat, n: nat)
    requires i <= n <= |srcs|
    ensures var short, long := ProbedUrls(baseURL, srcs[..i]), ProbedUrls(baseURL, srcs[..n]);
            |short| <= |long| && long[..|short|] == short
  {
    ProbedUrlsAppend(baseURL, srcs[..i], srcs[i..n]);
    assert srcs[..i] + srcs[i..n] == srcs[..n];
  }

  /** One more source adds its resolved URL unless it is skipped. */
  lemma ProbedUrlsStep(baseURL: string, srcs: seq<Option<string>>, i: nat)
    requires i < |srcs|
    ensures ProbedUrls(baseURL, srcs[..i + 1]) ==
            ProbedUrls(baseURL, srcs[..i]) + if Skipped(srcs[i]) then [] else [ResolveImageUrl(baseURL, srcs[i].value)]
  {
    assert srcs[..i + 1][..i] == srcs[..i];
  }

  /** The image loop (`for (let i = 0; i < limit; i++)`): it issues one HEAD request per
      examined source that is not skipped and stops at the first answer of 400 or more.
      `status` stands for the server's answer to a HEAD request. */
  method CheckImages(baseURL: string, srcs: seq<Option<string>>, status: string -> int)
    returns (requested: seq<string>, broken: Option<string>)
    ensures broken.None? <==> ImagesHealthy(baseURL, srcs, status)
    ensures var urls := ProbedUrls(baseURL, srcs[..SampleSize(|srcs|)]);
            broken.None? ==> requested == urls
    ensures var urls := ProbedUrls(baseURL, srcs[..SampleSize(|srcs|)]);
            broken.Some? ==> |requested| > 0 && |requested| <= |urls| && requested == urls[..|requested|] &&
                             broken.value == requested[|requested| - 1] && status(broken.value) >= 400
    ensures forall k :: 0 <= k < |requested| - 1 ==> status(requested[k]) < 400
  {
    var limit := SampleSize(|srcs|);
    ImagesHealthyIff(baseURL, srcs, status);
    requested, broken := [], None;
    var i := 0;
    while i < limit
      invariant 0 <= i <= limit
      invariant requested == ProbedUrls(baseURL, srcs[..i])
      invariant forall k :: 0 <= k < |requested| ==> status(requested[k]) < 400
    {
      ProbedUrlsStep(baseURL, srcs, i);
      var src := srcs[i];
      if !Skipped(src) {
        var imageUrl := ResolveImageUrl(baseURL, src.value);
        requested := requested + [imageUrl];
        if status(imageUrl) >= 400 {
          broken := Some(imageUrl);
          ProbedUrlsPrefix(baseURL, srcs, i + 1, limit);
          return;
        }
      }
      i := i + 1;
    }
  }

  // ---------------------------------------------------------------- form

  /** The form test: the first form is visible, some `input, textarea, select` exists, and
      the first submit control is visible. */
  function FormVerdict(formVisible: bool, elements: seq<Element>): (ok: bool)
    ensures ok <==> formVisible && Count(elements, IsFormControl) > 0 && FirstIsVisible(elements, IsSubmitControl)
  {
    formVisible && Count(elements, IsFormControl) > 0 && FirstIsVisible(elements, IsSubmitControl)
  }

  // ---------------------------------------------------------------- one page

  /** What the browser reports for one page, as the battery's tests read it. */
  datatype PageObservation = PageObservation(
    view: View,                      // URL and body text after navigating to the route
    specificVisible: bool,           // the page-specific selector became attached and visible
    mainVisible: bool,               // `main` is visible
    navVisible: bool,                // the first navigation landmark is visible
    navLinkCount: nat,               // links inside navigation or header
    imageSrcs: seq<Option<string>>,  // `src` of every `img[src]`, in document order
    status: string -> int,           // the answer to a HEAD request for a URL
    formVisible: bool,               // the first form is visible
    elements: seq<Element>)          // form controls and buttons, in document order

  /** The verdict of one test of a page. */
  function Judge(p: PageInfo, kind: CheckKind, baseURL: string, obs: PageObservation): Outcome {
    match kind
    case Load => if LoadVerdict(p.url, obs.view).None? then Passed else Failed
    case MainContent => MainContentVerdict(obs.specificVisible, obs.mainVisible)
    case StaticContent => if ContentVerdict(p.expectedContent, obs.view.body) then Passed else Failed
    case Navigation => if NavigationVerdict(obs.navVisible, obs.navLinkCount) then Passed else Failed
    case Images => if ImagesHealthy(baseURL, obs.imageSrcs, obs.status) then Passed else Failed
    case Form => if FormVerdict(obs.formVisible, obs.elements) then Passed else Failed
  }

  /** A reported result. */
  datatype CheckResult = CheckResult(page: string, kind: CheckKind, outcome: Outcome)

  /** The results of every test of a page: one per registered test, in order, each judged on
      its own, so that one failure does not hide the others. */
  function Report(p: PageInfo, baseURL: string, obs: PageObservation): (rs: seq<CheckResult>)
    ensures |rs| == |Registrations(p)|
    ensures forall i :: 0 <= i < |rs| ==>
              rs[i].page == Registrations(p)[i].page && rs[i].kind == Registrations(p)[i].kind
    ensures forall i :: 0 <= i < |rs| ==> rs[i].outcome == Judge(p, rs[i].kind, baseURL, obs)
  {
    var ks := PageChecks(p);
    seq(|ks|, i requires 0 <= i < |ks| => CheckResult(p.name, ks[i], Judge(p, ks[i], baseURL, obs)))
  }

  /** A page whose load test fails still gets a verdict on its static content, and the other
      way round: a failure of one test does not decide another. */
  lemma ReportIndependent(p: PageInfo, baseURL: string, obs: PageObservation)
    requires LoadVerdict(p.url, obs.view).Some?
    requires ContentVerdict(p.expectedContent, obs.view.body)
    ensures Report(p, baseURL, obs)[0].outcome == Failed
    ensures Report(p, baseURL, obs)[2].outcome == Passed
  {
  }

  // ---------------------------------------------------------------- whole-site tests

  /** The address of the staging deployment the battery runs against. */
  const StagingBaseUrl: string := "https://tdt.akvotest.org"

  /** The words the staging title is matched against, ignoring case. */
  const StagingTitleWords: seq<string> := ["TDT", "Tanzania", "Investment", "Home"]

  /** The staging test: the configured base URL is the staging address and the title
      matches `/TDT|Tanzania|Investment|Home/i`. */
  function StagingVerdict(baseURL: string, title: string): (ok: bool)
    ensures ok <==> baseURL == StagingBaseUrl &&
                    exists i :: 0 <= i < |StagingTitleWords| && Contains(Lower(title), Lower(StagingTitleWords[i]))
  {
    baseURL == StagingBaseUrl && AnyCaseInsensitive(title, StagingTitleWords)
  }

  /** On the staging address, a title that names the site in any letter case passes. */
  lemma StagingAcceptsAnyCase(title: string)
    requires Contains(title, "TDT") || Contains(Lower(title), "home")
    ensures StagingVerdict(StagingBaseUrl, title)
  {
    var alts := StagingTitleWords;
    if Contains(title, "TDT") {
      ContainsLower(title, "TDT");
      assert Lower(alts[0]) == Lower("TDT");
    } else {
      assert Lower(alts[3]) == "home";
    }
  }

  /** The cross-page flow, visited after the home page. */
  const CrossPageFlow: seq<FlowStep> := [
    FlowStep("/investment-profiles", "Investment"),
    FlowStep("/stakeholder-directory", "Stakeholder"),
    FlowStep("/contact-us", "Contact")
  ]

  /** A flow step whose text is one of a page's expected words implies that page's
      static-content test on the same body. */
  lemma StepImpliesContent(step: FlowStep, p: PageInfo, v: View)
    requires step.expectedText in p.expectedContent
    ensures StepPasses(step, v) ==> ContentVerdict(p.expectedContent, v.body)
  {
    var k :| 0 <= k < |p.expectedContent| && p.expectedContent[k] == step.expectedText;
  }

  /** Every step of the cross-page flow names a registry route and one of that page's
      expected words, so a step that passes implies the page's static-content test passes on
      the same body. */
  lemma CrossPageFlowFollowsRegistry(i: nat, v: View)
    requires i < |CrossPageFlow|
    ensures PageAt(CrossPageFlow[i].url).Some?
    ensures StepPasses(CrossPageFlow[i], v) ==>
              ContentVerdict(PageAt(CrossPageFlow[i].url).value.expectedContent, v.body)
  {
    var step := CrossPageFlow[i];
    var k := [1, 3, 6][i];
    assert Pages[k].url == step.url;
    var p := PageAt(step.url).value;
    RegistryWellFormed();
    assert p == Pages[k];
    assert p.expectedContent[0] == step.expectedText;
    StepImpliesContent(step, p, v);
  }
}
