/** The site-wide navigation tests: the header, footer and navigation landmarks on several
    routes, a walk through every main page, direct access to deep routes, and the rules
    applied to internal links, external links, the mobile menu and the skip link. Locators reach these judgements as counts, visibility flags and attribute values. */
module Navigation {
  import opened Wrappers
  import opened Text
  import opened Locator
  import opened Registry
  import opened Flow
  import opened Battery

  // ---------------------------------------------------------------- routes

  /** The routes whose header is checked. */
  const HeaderRoutes: seq<string> := ["/", "/investment-profiles", "/stakeholder-directory", "/contact-us"]

  /** The routes whose footer is checked. */
  const FooterRoutes: seq<string> := ["/", "/investment-profiles", "/knowledge-hub"]

  /** The routes opened directly by address. */
  const DirectAccessRoutes: seq<string> := ["/investment-profiles", "/stakeholder-directory", "/knowledge-hub", "/contact-us"]

  /** Every route these tests visit is a page of the registry. */
  lemma SuiteRoutesRegistered()
    ensures forall i :: 0 <= i < |HeaderRoutes| ==> PageAt(HeaderRoutes[i]).Some?
    ensures forall i :: 0 <= i < |FooterRoutes| ==> PageAt(FooterRoutes[i]).Some?
    ensures forall i :: 0 <= i < |DirectAccessRoutes| ==> PageAt(DirectAccessRoutes[i]).Some?
  {
    forall i | 0 <= i < |HeaderRoutes| ensures PageAt(HeaderRoutes[i]).Some? {
      assert HeaderRoutes[i] == Pages[[0, 1, 3, 6][i]].url;
    }
    forall i | 0 <= i < |FooterRoutes| ensures PageAt(FooterRoutes[i]).Some? {
      assert FooterRoutes[i] == Pages[[0, 1, 4][i]].url;
    }
    forall i | 0 <= i < |DirectAccessRoutes| ensures PageAt(DirectAccessRoutes[i]).Some? {
      assert DirectAccessRoutes[i] == Pages[[1, 3, 4, 6][i]].url;
    }
  }

  // ---------------------------------------------------------------- header and navigation menu

  /** The header test: on each route in turn the first `header`, banner or `nav` element must
      be visible; the test stops at the first route where it is not. */
  method CheckHeaders(headerVisible: string -> bool) returns (failed: Option<nat>)
    ensures failed.None? <==> forall i :: 0 <= i < |HeaderRoutes| ==> headerVisible(HeaderRoutes[i])
    ensures failed.Some? ==> failed.value < |HeaderRoutes| && !headerVisible(HeaderRoutes[failed.value])
    ensures failed.Some? ==> forall i :: 0 <= i < failed.value ==> headerVisible(HeaderRoutes[i])
  {
    failed := FirstFailing(HeaderRoutes, headerVisible);
  }

  /** The consistency test: the home page passes the battery's navigation test (first
      navigation landmark visible, at least one link), and the contact page shows a navigation
      landmark too; no link count is asked of the contact page. */
  function NavConsistencyVerdict(homeNavVisible: bool, homeLinkCount: nat, contactNavVisible: bool): (ok: bool)
    ensures ok <==> NavigationVerdict(homeNavVisible, homeLinkCount) && contactNavVisible
  {
    homeNavVisible && homeLinkCount > 0 && contactNavVisible
  }

  // ---------------------------------------------------------------- footer

  /** The footer test: on each route in turn a footer, if there is one, must be visible. */
  method CheckFooters(footerCount: string -> nat, footerVisible: string -> bool) returns (failed: Option<nat>)
    ensures failed.None? <==> forall i :: 0 <= i < |FooterRoutes| ==>
              footerCount(FooterRoutes[i]) == 0 || footerVisible(FooterRoutes[i])
    ensures failed.Some? ==>
              failed.value < |FooterRoutes| &&
              footerCount(FooterRoutes[failed.value]) > 0 && !footerVisible(FooterRoutes[failed.value])
    ensures failed.Some? ==> forall i :: 0 <= i < failed.value ==>
              footerCount(FooterRoutes[i]) == 0 || footerVisible(FooterRoutes[i])
  {
    failed := FirstFailing(FooterRoutes, (r: string) => OptionalFeature(footerCount(r), footerVisible(r)));
  }

  /** The footer-links test asks for a link count of at least zero, which every count meets:
      it passes whatever the footer holds. */
  function FooterLinksVerdict(hasFooter: bool, linkCount: nat): (ok: bool)
    ensures ok
  {
    !hasFooter || linkCount >= 0
  }

  // ---------------------------------------------------------------- navigation flow

  /** The walk through every main page, in order, each with a word expected on it. */
  const NavigationFlow: seq<FlowStep> := [
    FlowStep("/", "TDT"),
    FlowStep("/investment-profiles", "Investment"),
    FlowStep("/social-accountability", "Accountability"),
    FlowStep("/stakeholder-directory", "Stakeholder"),
    FlowStep("/knowledge-hub", "Knowledge"),
    FlowStep("/news-events", "News"),
    FlowStep("/contact-us", "Contact")
  ]

  /** The walk visits the registry's pages in registry order, and each step expects the first
      word that page's static-content test accepts. */
  lemma NavigationFlowFollowsRegistry()
    ensures |NavigationFlow| == |Pages|
    ensures forall i :: 0 <= i < |Pages| ==>
              NavigationFlow[i].url == Pages[i].url &&
              NavigationFlow[i].expectedText == Pages[i].expectedContent[0]
  {
  }

  /** A step of the walk that passes implies that the static-content test of its page passes
      on the same body. */
  lemma NavigationStepImpliesContent(i: nat, v: View)
    requires i < |NavigationFlow|
    ensures StepPasses(NavigationFlow[i], v) ==> ContentVerdict(Pages[i].expectedContent, v.body)
  {
    NavigationFlowFollowsRegistry();
    StepImpliesContent(NavigationFlow[i], Pages[i], v);
  }

  /** The battery's cross-page flow is a part of the walk, taken in the same order. */
  lemma CrossPageFlowIsSubflow()
    ensures forall j :: 0 <= j < |CrossPageFlow| ==> CrossPageFlow[j] == NavigationFlow[[1, 3, 6][j]]
  {
  }

  // ---------------------------------------------------------------- direct access

  /** The error markers of the direct-access test: "Error" is not among them. */
  const DirectAccessMarkers: seq<string> := ["404", "Page Not Found"]

  /** The direct-access test on one route: `main` is visible and the body, a null body read as
      "", holds neither marker. */
  function DirectAccessVerdict(mainVisible: bool, v: View): (ok: bool)
    ensures ok <==> mainVisible && !Contains(BodyText(v), "404") && !Contains(BodyText(v), "Page Not Found")
  {
    assert DirectAccessMarkers[0] == "404" && DirectAccessMarkers[1] == "Page Not Found";
    mainVisible && FirstPresent(BodyText(v), DirectAccessMarkers).None?
  }

  /** The direct-access test over its routes, stopping at the first route that fails. */
  method CheckDirectAccess(mainVisible: string -> bool, visit: string -> View) returns (failed: Option<nat>)
    ensures failed.None? <==> forall i :: 0 <= i < |DirectAccessRoutes| ==>
              DirectAccessVerdict(mainVisible(DirectAccessRoutes[i]), visit(DirectAccessRoutes[i]))
    ensures failed.Some? ==>
              failed.value < |DirectAccessRoutes| &&
              !DirectAccessVerdict(mainVisible(DirectAccessRoutes[failed.value]), visit(DirectAccessRoutes[failed.value]))
    ensures failed.Some? ==> forall i :: 0 <= i < failed.value ==>
              DirectAccessVerdict(mainVisible(DirectAccessRoutes[i]), visit(DirectAccessRoutes[i]))
  {
    failed := FirstFailing(DirectAccessRoutes,
                           (r: string) => DirectAccessVerdict(mainVisible(r), visit(r)));
  }

  /** The direct-access test is weaker than the battery's load test: a body that passes the
      load test passes direct access wherever `main` is visible. */
  lemma LoadImpliesDirectAccess(route: string, v: View)
    requires LoadVerdict(route, v).None?
    ensures DirectAccessVerdict(true, v)
  {
    assert LoadErrorMarkers[0] == "404" && LoadErrorMarkers[1] == "Page Not Found";
  }

  /** The converse fails: a null body passes direct access but fails the load test, and so
      does a body that mentions "Error" but neither "404" nor "Page Not Found". */
  lemma DirectAccessAcceptsWhatLoadRejects(route: string, body: string)
    requires Contains(body, "Error") && !Contains(body, "404") && !Contains(body, "Page Not Found")
    ensures DirectAccessVerdict(true, View(route, None)) && LoadVerdict(route, View(route, None)).Some?
    ensures DirectAccessVerdict(true, View(route, Some(body))) && LoadVerdict(route, View(route, Some(body))).Some?
  {
    ContainsLonger("", "404");
    ContainsLonger("", "Page Not Found");
    LoadRejectsErrorWord(route, body);
  }

  // ---------------------------------------------------------------- links

  /** An `a` element of the home page, with its `href` and `target` attributes. */
  datatype Anchor = Anchor(href: Option<string>, target: Option<string>)

  /** `a[href^="/"], a[href^="./"], a[href^="../"]`: a relative link, whose `href` begins with
      a slash or a dot. */
  function IsInternal(a: Anchor): (internal: bool)
    ensures internal ==> a.href.Some? && |a.href.value| > 0 && (a.href.value[0] == '/' || a.href.value[0] == '.')
  {
    a.href.Some? && (StartsWith(a.href.value, "/") || StartsWith(a.href.value, "./") || StartsWith(a.href.value, "../"))
  }

  /** `a[href^="http"]:not([href*="tdt.akvotest.org"])`: an absolute link off the staging
      host. No link is both internal and external. */
  function IsExternal(a: Anchor): (external: bool)
    ensures external ==> a.href.Some? && StartsWith(a.href.value, "http")
    ensures external ==> !IsInternal(a)
  {
    if a.href.Some? && StartsWith(a.href.value, "http") then
      assert a.href.value[0] == 'h' && "/"[0] == '/' && "./"[0] == '.' && "../"[0] == '.';
      !Contains(a.href.value, "tdt.akvotest.org")
    else false
  }

  /** A link to the staging site itself is never external. */
  lemma StagingLinksNotExternal(path: string, target: Option<string>)
    ensures !IsExternal(Anchor(Some(StagingBaseUrl + path), target))
  {
    var host := "tdt.akvotest.org";
    var scheme := "https://";
    assert StagingBaseUrl == scheme + host;
    assert StartsWith(host, host);
    ContainsInConcat(host, scheme, host);
    ContainsInConcat(scheme + host, path, host);
    assert scheme + host + path == StagingBaseUrl + path;
  }

  /** The `href` values of the internal links, in document order. */
  function InternalHrefs(anchors: seq<Anchor>): (hs: seq<string>)
    ensures |hs| <= |anchors|
    ensures forall k :: 0 <= k < |hs| ==> |hs[k]| > 0
    ensures forall h :: h in hs <==> exists i :: 0 <= i < |anchors| && IsInternal(anchors[i]) && anchors[i].href.value == h
  {
    if |anchors| == 0 then []
    else
      var rest := InternalHrefs(anchors[1..]);
      assert forall i :: 1 <= i < |anchors| ==> anchors[i] == anchors[1..][i - 1];
      if IsInternal(anchors[0]) then [anchors[0].href.value] + rest else rest
  }

  /** At most this many internal links are examined. */
  const InternalLinkLimit: nat := 10

  /** A link to an anchor, a mail address or a phone number is not examined; the empty
      `href` is not exempt, the guard drops it separately. */
  function Exempt(h: string): (exempt: bool)
    ensures StartsWith(h, "#") || StartsWith(h, "mailto:") || StartsWith(h, "tel:") ==> exempt
    ensures exempt ==> |h| > 0
  {
    Contains(h, "#") || Contains(h, "mailto:") || Contains(h, "tel:")
  }

  /** The links that reach the assertions: non-empty and not exempt, in their order. */
  function Examined(hs: seq<string>): (es: seq<string>)
    ensures |es| <= |hs|
    ensures forall h :: h in es <==> h in hs && h != "" && !Exempt(h)
  {
    if |hs| == 0 then []
    else
      var rest := Examined(hs[1..]);
      assert forall h :: h in hs <==> h == hs[0] || h in hs[1..];
      if hs[0] != "" && !Exempt(hs[0]) then [hs[0]] + rest else rest
  }

  /** The internal-links test: of the first ten internal links, each non-empty, non-exempt
      `href` must be truthy and non-empty. It returns the hrefs it examined; the assertions
      restate the guard, so the test cannot fail. */
  method CheckInternalLinks(anchors: seq<Anchor>) returns (examined: seq<string>, ok: bool)
    ensures |examined| <= InternalLinkLimit
    ensures examined == Examined(InternalHrefs(anchors)[..if |InternalHrefs(anchors)| < InternalLinkLimit then |InternalHrefs(anchors)| else InternalLinkLimit])
    ensures ok
  {
    var links := InternalHrefs(anchors);
    var n := if |links| < InternalLinkLimit then |links| else InternalLinkLimit;
    examined := [];
    ok := true;
    for i := 0 to n
      invariant examined == Examined(links[..i])
      invariant ok
    {
      var href := links[i];
      if href != "" && !Exempt(href) {
        ok := ok && |href| > 0;
        examined := examined + [href];
      }
      ExaminedAppend(links[..i], href);
      assert links[..i + 1] == links[..i] + [href];
    }
  }

  /** `Examined` takes the links one at a time. */
  lemma {:induction false} ExaminedAppend(hs: seq<string>, h: string)
    ensures Examined(hs + [h]) == Examined(hs) + (if h != "" && !Exempt(h) then [h] else [])
    decreases |hs|
  {
    if |hs| == 0 {
      assert [] + [h] == [h];
    } else {
      assert (hs + [h])[1..] == hs[1..] + [h];
      ExaminedAppend(hs[1..], h);
    }
  }

  /** A `target` the external-links test accepts: none, empty, or `_blank`. */
  function TargetAccepted(target: Option<string>): (accepted: bool)
    ensures target.None? || target == Some("") ==> accepted
    ensures target.Some? && target.value != "" ==> (accepted <==> target.value == "_blank")
  {
    target.None? || target.value == "" || target.value == "_blank"
  }

  /** The external-links test: only the first external link is looked at, and its target, if
      set, must be `_blank`. A page without external links passes. */
  function ExternalLinkVerdict(anchors: seq<Anchor>): (ok: bool)
    ensures (forall i :: 0 <= i < |anchors| ==> !IsExternal(anchors[i])) ==> ok
    ensures forall i :: 0 <= i < |anchors| && IsExternal(anchors[i]) &&
                        (forall j :: 0 <= j < i ==> !IsExternal(anchors[j])) ==>
                        (ok <==> TargetAccepted(anchors[i].target))
  {
    match FirstMatch(anchors, IsExternal)
    case None => true
    case Some(i) => TargetAccepted(anchors[i].target)
  }

  /** Links after the first external one never change the verdict. */
  lemma LaterExternalLinksIgnored(anchors: seq<Anchor>, later: seq<Anchor>)
    requires exists i :: 0 <= i < |anchors| && IsExternal(anchors[i])
    ensures ExternalLinkVerdict(anchors + later) == ExternalLinkVerdict(anchors)
  {
    FirstMatchAppend(anchors, later, IsExternal);
  }

  // ---------------------------------------------------------------- mobile menu, landmarks, skip link

  /** The toggle test: with a menu trigger, the click on the first trigger must succeed, and
      then an `aria-expanded` that is set must read "true"; an absent or empty attribute makes
      no claim. Without a trigger nothing is clicked and the test passes. */
  function AriaExpandedVerdict(triggerCount: nat, clicked: bool, ariaExpanded: Option<string>): (ok: bool)
    ensures triggerCount == 0 ==> ok
    ensures triggerCount > 0 && !clicked ==> !ok
    ensures triggerCount > 0 && clicked && (ariaExpanded.None? || ariaExpanded == Some("")) ==> ok
    ensures triggerCount > 0 && clicked && ariaExpanded.Some? && ariaExpanded.value != "" ==>
              (ok <==> ariaExpanded.value == "true")
  {
    triggerCount == 0 || (clicked && (ariaExpanded.GetOr("") == "" || ariaExpanded.GetOr("") == "true"))
  }

  /** The landmarks test: `main` is visible and the page has a navigation landmark; unlike the
      battery's navigation test it asks neither for the landmark's visibility nor for links. */
  function LandmarksVerdict(mainVisible: bool, navCount: nat): (ok: bool)
    ensures ok ==> mainVisible
    ensures navCount == 0 ==> !ok
    ensures mainVisible && navCount > 0 ==> ok
  {
    mainVisible && navCount > 0
  }

  /** The skip-link test: when a skip link exists, the first one carries a non-empty `href`.
      A `.skip-link` without an `href` fails. */
  function SkipLinkVerdict(count: nat, firstHref: Option<string>): (ok: bool)
    ensures count == 0 ==> ok
    ensures count > 0 ==> (ok <==> firstHref.Some? && |firstHref.value| > 0)
  {
    count == 0 || firstHref.GetOr("") != ""
  }
}
