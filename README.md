# Decision logic of the TDT website test suite

The suite drives a browser against the staging deployment of the TDT website
(`https://tdt.akvotest.org`). This project models what its tests *decide*. Each test
receives what the browser reports: URLs, body text, element counts, visibility flags,
attribute values, HTTP status codes and `ok` flags. From these it reaches a pass or a fail.
Every such judgement is written as a Dafny function or method over strings and sequences,
and the properties the tests promise are proved about them.

Modules:

- `Wrappers`, `Text` (text.dfy): optional values, plus the string operations the tests use.
  These are `startsWith`, `includes` (proved equal to the offset definition of a substring),
  ASCII `toLowerCase`, a case-insensitive alternation of literals, and the decimal rendering
  of a clock reading.
- `Locator` (locator.dfy): the first match of a selector, match counts, "the first match is
  visible", the optional-feature rule, and the form and submit-control selectors.
- `Registry` (registry.dfy): the seven page records of the functional battery.
- `Flow` (flow.dfy): a `for … of` loop of `expect` calls that stops at the first failure, and
  the acceptance test of one navigation step.
- `Battery` (battery.dfy): the tests generated for every page, and each test's verdict: load,
  main content with its fallback, static content, navigation, sampled image health, and form.
  Also the staging test and the cross-page flow.
- `Navigation` (navigation.dfy): the site-wide navigation tests. These cover header, footer,
  the navigation walk, direct access, internal and external links, the mobile-menu toggle,
  landmarks and the skip link.
- `Content` (content.dfy): the page-error log and its critical-error filter, the per-route
  content checks, the contact form, and the menu tests.
- `ContentSync` (content_sync.dfy): the write / observe / revert test against the content
  management system. A class holds the stored title, the phase reached and the requests sent.

## Model

| member | source | states |
|---|---|---|
| `Text.ContainsIffOccurs` | e2e/pages.spec.ts:105-106 | `includes` holds exactly when the needle occurs at some offset of the text |
| `Text.ContainsSameLength` | tests/tdt.spec.ts:43 | between strings of equal length, containing is being equal |
| `Text.Lower` | e2e/pages.spec.ts:106 | lower-casing keeps the length, maps each letter A-Z to a-z, keeps every other character, and leaves no capital |
| `Text.LowerIdempotent` | e2e/navigation.spec.ts:105 | lower-casing twice is lower-casing once |
| `Text.ContainsLower` | e2e/navigation.spec.ts:105 | a case-sensitive match is also a case-insensitive one |
| `Text.AnyCaseInsensitive` | e2e/content.spec.ts:72 | a case-insensitive regular expression made of alternative plain words passes exactly when some word, ignoring case, occurs in the text |
| `Text.AnyCaseInsensitiveMonotone` | e2e/content.spec.ts:98 | adding alternatives never turns a match into a failure |
| `Text.NatToString` | tests/tdt.spec.ts:28 | a clock reading renders as a non-empty run of digits with no leading zero |
| `Text.NatToStringInjective` | tests/tdt.spec.ts:28 | different clock readings render differently |
| `Locator.FirstMatch` | e2e/navigation.spec.ts:205 | `.first()` finds the earliest matching element, and finds none exactly when nothing matches |
| `Locator.FirstMatchAppend` | e2e/navigation.spec.ts:201-205 | elements after the first match do not change which element is first |
| `Locator.FirstMatchSame` | e2e/content.spec.ts:124-125 | two selectors that agree on every element find the same first match |
| `Locator.Count` | e2e/pages.spec.ts:160-162 | a count is at most the number of elements, and is zero exactly when there is no first match |
| `Locator.FirstIsVisible` | e2e/content.spec.ts:122-126 | `expect(first()).toBeVisible()` passes exactly when a first match exists and is visible; a later visible match does not help |
| `Locator.OptionalFeature` | e2e/navigation.spec.ts:35-45 | with no match the optional-feature rule makes no claim; otherwise it passes exactly when the first match is visible (the same rule is used at navigation.spec.ts 153-176, 220-233, 288-298 and content.spec.ts 51-61, 75-88, 101-111, 185-195; at content.spec.ts 55-56 and 105-106 the selector counted is not the one whose first match must be visible, so the count and the flag are separate inputs there) |
| `Locator.OptionalFeatureOnElements` | e2e/navigation.spec.ts:157-163 | on elements, the rule passes exactly when nothing matches or the first match is visible |
| `Locator.SubmitControlExamples` | e2e/pages.spec.ts:165 | a button labelled "SEND MESSAGE" with no type is a submit control, because `:has-text` ignores case; an input of type button labelled "Send" and a link labelled "Submit" are not |
| `Locator.IsSubmitControl` | e2e/pages.spec.ts:165 | only buttons and inputs are submit controls, an input only through its submit type, and every typed submit control qualifies |
| `Registry.RegistryWellFormed` | e2e/pages.spec.ts:3-54 | the seven routes are distinct, the seven names are distinct, and every page expects some content |
| `Registry.RegistryFlags` | e2e/pages.spec.ts:3-54 | every page asks for the navigation test, and only "Contact Us" asks for the form test |
| `Registry.PageAt` | e2e/pages.spec.ts:3-54 | the lookup that ties the routes of the navigation and content tests to registry records: it finds a registry page with that route, and finds none exactly when no page has it |
| `Flow.FirstFailing` | e2e/navigation.spec.ts:13-17 | a loop of assertions passes exactly when every item passes; otherwise it stops at the first item that fails, and all earlier items passed |
| `Flow.FirstPresent` | e2e/pages.spec.ts:78-80 | a run of `not.toContain` assertions finds the first marker the text holds, and finds none exactly when the text holds no marker |
| `Flow.StepPasses` | e2e/navigation.spec.ts:101-107 | a step passes exactly when the URL holds the route and the body holds the expected text, ignoring case |
| `Flow.StepPassesOnExactText` | e2e/navigation.spec.ts:101-107 | a step whose text appears verbatim on the right URL passes; a step on a URL without the route fails |
| `Flow.RunFlow` | e2e/navigation.spec.ts:97-108 | the walk passes exactly when every step passes; otherwise it reports the first failing step, and every earlier step passed |
| `Battery.PageChecks` | e2e/pages.spec.ts:68-170 | every page gets the load, main-content, static-content and image tests; the navigation test exactly when it has navigation; the form test exactly when it has a form; the load test comes first |
| `Battery.Registrations` | e2e/pages.spec.ts:69-168 | a page registers as many tests as the kinds it asks for |
| `Battery.RegistrationsInOrder` | e2e/pages.spec.ts:69-168 | the registrations are load, main content, static content, navigation when asked for, images, and form when asked for, in that order, all under the page's name |
| `Battery.RegistrationsMembership` | e2e/pages.spec.ts:69-168 | a page registers a test exactly when the test bears its name and a kind it asks for |
| `Battery.RegisterPage` | e2e/pages.spec.ts:69-168 | the body of one page's `describe` registers exactly that page's registrations |
| `Battery.ExpansionStep` | e2e/pages.spec.ts:68 | each page of the loop appends its registrations after those of the pages before it |
| `Battery.ExpandBattery` | e2e/pages.spec.ts:68-170 | the registration loop over the pages produces the page-by-page expansion |
| `Battery.ExpansionMembership` | e2e/pages.spec.ts:68-170 | a test is registered exactly when some page of that name asks for that kind |
| `Battery.RegistryBattery` | e2e/pages.spec.ts:68-170 | over the registry, every page gets the five basic tests, and the form test is registered exactly for "Contact Us" |
| `Battery.LoadVerdict` | e2e/pages.spec.ts:70-81 | the load test passes exactly when the URL holds the route and the body is present and holds none of "404", "Page Not Found" and "Error"; a wrong URL is reported as such, and an error marker named in a failure is really in the body |
| `Battery.PhoneNumberMarker` | e2e/pages.spec.ts:78 | the text "Call +255 404 1234" holds the marker "404" |
| `Battery.LoadRejectsErrorWord` | e2e/pages.spec.ts:80 | any body that mentions "Error" fails the load test on the right URL, and it fails on that very marker when the other two are absent |
| `Battery.LoadRejectsErrorSentence` | e2e/pages.spec.ts:78-80 | an ordinary heading "Error reporting guide", on the right URL, fails the load test with the marker "Error" |
| `Battery.LoadRejectsPhoneNumber` | e2e/pages.spec.ts:78 | a body holding that phone number fails the load test on the marker "404" |
| `Battery.MainContentVerdict` | e2e/pages.spec.ts:83-97 | when the page-specific content shows, the test passes; otherwise it passes through the fallback exactly when `main` is visible, and fails exactly when it is not |
| `Battery.ContentVerdict` | e2e/pages.spec.ts:99-112 | the static-content test passes exactly when some expected item, lower-cased, occurs in the lower-cased body; a null body reads as "" |
| `Battery.ContentVerdictEdges` | e2e/pages.spec.ts:102-107 | an empty list of expectations never passes, and a null body fails whenever no expected item is empty |
| `Battery.NavigationVerdict` | e2e/pages.spec.ts:114-127 | the navigation test fails without links or without a visible landmark, and passes with both |
| `Battery.SampleSize` | e2e/pages.spec.ts:134 | at most five images are examined, and fewer only when the page has fewer |
| `Battery.ResolveImageUrl` | e2e/pages.spec.ts:142 | a source starting with "http" is requested as it is; any other source is requested at the base URL followed directly by the source |
| `Battery.ResolveImageUrlExamples` | e2e/pages.spec.ts:142 | a protocol-relative source is glued to the base URL, and a relative path beginning with "http" is left unresolved |
| `Battery.ProbedUrls` | e2e/pages.spec.ts:136-144 | no more URLs are probed than there are sources |
| `Battery.ProbedUrlsAppend` | e2e/pages.spec.ts:136-144 | probing two runs of sources probes each run in turn |
| `Battery.ProbedUrlsMembership` | e2e/pages.spec.ts:140-144 | a URL is probed exactly when it resolves some source that is not null, empty, `data:` or `blob:` |
| `Battery.Skipped` | e2e/pages.spec.ts:140 | a source that is not skipped is present and non-empty, and a source starting with "http" is never skipped |
| `Battery.ImagesHealthy` | e2e/pages.spec.ts:134-148 | a page whose every source is skipped is healthy, and sources after the fifth never change the verdict |
| `Battery.ImagesHealthyIff` | e2e/pages.spec.ts:145-148 | the image test passes exactly when every URL probed from the sample answers below 400 |
| `Battery.SkippedSourcesUseSlots` | e2e/pages.spec.ts:134-140 | skipped sources still use sample places: five skipped sources hide a broken sixth image |
| `Battery.CheckImages` | e2e/pages.spec.ts:129-150 | the image loop reports no broken image exactly when the sample is healthy. It then requests every probed URL; otherwise it requests a prefix of them, ending at the first URL that answers 400 or more, and all earlier requests answered below 400 |
| `Battery.FormVerdict` | e2e/pages.spec.ts:152-168 | the form test passes exactly when the first form is visible, some form control exists, and the first submit control is visible |
| `Battery.Report` | e2e/pages.spec.ts:68-170 | a page gets one result per registered test, in order, each judged on its own |
| `Battery.ReportIndependent` | e2e/pages.spec.ts:70-112 | a failing load test does not stop the static-content test of the same page from passing |
| `Battery.StagingVerdict` | e2e/pages.spec.ts:62-66 | the staging test passes exactly when the base URL is the staging address and the title holds "TDT", "Tanzania", "Investment" or "Home", ignoring case |
| `Battery.StagingAcceptsAnyCase` | e2e/pages.spec.ts:65 | on the staging URL, a title holding "TDT", or "home" in any case, passes |
| `Battery.StepImpliesContent` | e2e/pages.spec.ts:185-186 | a flow step expecting one of a page's words, when it passes, implies that page's static-content test on the same body |
| `Battery.CrossPageFlowFollowsRegistry` | e2e/pages.spec.ts:172-188 | each cross-page step visits a registry route, and when it passes, that page's static-content test passes |
| `Navigation.SuiteRoutesRegistered` | e2e/navigation.spec.ts:11 | every route of the header, footer and direct-access tests is a registry page |
| `Navigation.CheckHeaders` | e2e/navigation.spec.ts:10-18 | the header test passes exactly when every route shows a header; otherwise it stops at the first route without one |
| `Navigation.NavConsistencyVerdict` | e2e/navigation.spec.ts:20-33 | the consistency test passes exactly when the home page passes the battery's navigation test and the contact page shows navigation |
| `Navigation.CheckFooters` | e2e/navigation.spec.ts:49-66 | the footer test passes exactly when every route either has no footer or shows it; a failure names a route with a hidden footer, and every earlier route passed |
| `Navigation.FooterLinksVerdict` | e2e/navigation.spec.ts:68-82 | the footer-links test passes for every page, because a count is never negative |
| `Navigation.NavigationFlowFollowsRegistry` | e2e/navigation.spec.ts:87-95 | the walk visits the registry pages in registry order, each expecting that page's first expected word |
| `Navigation.NavigationStepImpliesContent` | e2e/navigation.spec.ts:97-108 | a passing step of the walk implies its page's static-content test on the same body |
| `Navigation.CrossPageFlowIsSubflow` | e2e/pages.spec.ts:176-180 | the battery's cross-page flow is made of steps of the walk, in the same order |
| `Navigation.DirectAccessVerdict` | e2e/navigation.spec.ts:140-147 | direct access passes exactly when `main` is visible and the body (null read as "") holds neither "404" nor "Page Not Found" |
| `Navigation.CheckDirectAccess` | e2e/navigation.spec.ts:129-149 | the test passes exactly when every route passes direct access; otherwise it stops at a failing route, and every earlier route passed |
| `Navigation.LoadImpliesDirectAccess` | e2e/navigation.spec.ts:145-147 | a body that passes the battery's load test passes direct access wherever `main` is visible |
| `Navigation.DirectAccessAcceptsWhatLoadRejects` | e2e/navigation.spec.ts:145-147 | a null body, or one mentioning only "Error", passes direct access yet fails the load test |
| `Navigation.IsInternal` | e2e/navigation.spec.ts:183 | an internal link has an `href` beginning with a slash or a dot |
| `Navigation.IsExternal` | e2e/navigation.spec.ts:201 | an external link has an `href` beginning with "http", and no link is both internal and external |
| `Navigation.StagingLinksNotExternal` | e2e/navigation.spec.ts:201 | an absolute link to the staging site is never external |
| `Navigation.InternalHrefs` | e2e/navigation.spec.ts:183 | the internal hrefs are exactly those of links whose href starts with "/", "./" or "../", and none is empty |
| `Navigation.Exempt` | e2e/navigation.spec.ts:191 | links beginning with "#", "mailto:" or "tel:" are exempt, and an exempt link is never empty |
| `Navigation.Examined` | e2e/navigation.spec.ts:191 | the hrefs examined are exactly those that are non-empty and hold none of "#", "mailto:" and "tel:" |
| `Navigation.CheckInternalLinks` | e2e/navigation.spec.ts:180-196 | the loop examines at most ten links: the non-exempt ones among the first `min(count, 10)` internal links, in order. It can never fail, because its assertions repeat its guard |
| `Navigation.TargetAccepted` | e2e/navigation.spec.ts:210-214 | an absent or empty target makes no claim; any other target is accepted exactly when it is `_blank` |
| `Navigation.ExternalLinkVerdict` | e2e/navigation.spec.ts:198-216 | a page without external links passes; otherwise the test passes exactly when the first external link has no target, an empty one, or `_blank` |
| `Navigation.LaterExternalLinksIgnored` | e2e/navigation.spec.ts:204-214 | links after the first external one never change the verdict |
| `Navigation.AriaExpandedVerdict` | e2e/navigation.spec.ts:235-255 | with no menu trigger the toggle test passes; otherwise the click on the trigger must succeed, an absent or empty `aria-expanded` then passes, and a non-empty one must read "true" |
| `Navigation.LandmarksVerdict` | e2e/navigation.spec.ts:259-270 | the landmarks test fails without a visible `main` or without a navigation landmark, and passes with both |
| `Navigation.SkipLinkVerdict` | e2e/navigation.spec.ts:272-284 | with no skip link the test passes; otherwise it passes exactly when the first one has a non-empty `href` |
| `Content.ErrorLog.constructor` | e2e/content.spec.ts:235 | the log starts empty |
| `Content.ErrorLog.OnPageError` | e2e/content.spec.ts:236-238 | each page error appends exactly its message, after those already recorded |
| `Content.IsNoise` | e2e/content.spec.ts:244-246 | a message the filter counts as noise also mentions "favicon" or "analytics" when case is ignored |
| `Content.CriticalErrors` | e2e/content.spec.ts:244-246 | the critical errors are exactly the recorded messages mentioning neither "favicon" nor "analytics" |
| `Content.CriticalErrorsAppend` | e2e/content.spec.ts:244-246 | the filter distributes over concatenation, so it keeps the order of arrival |
| `Content.CriticalErrorsIdempotent` | e2e/content.spec.ts:244-246 | filtering the critical errors again removes nothing |
| `Content.JsErrorVerdict` | e2e/content.spec.ts:248 | the error test passes exactly when every recorded message mentions "favicon" or "analytics" |
| `Content.RunJsErrorTest` | e2e/content.spec.ts:234-249 | the log records every event in order, and the test passes exactly when every event is noise |
| `Content.NoiseIsCaseSensitive` | e2e/content.spec.ts:245 | a message "FAVICON 404" is critical: the filter does not ignore case |
| `Content.RouteContentVerdict` | e2e/content.spec.ts:41-49 | a route check passes exactly when `main` is visible and some alternative occurs in the body, ignoring case (the same shape at lines 65-73, 92-99, 165-172, 176-183) |
| `Content.RouteChecksCoverRegistry` | e2e/content.spec.ts:72 | each route check visits a registry page and accepts every word that page's static-content test accepts |
| `Content.DirectoryWithoutStakeholder` | e2e/content.spec.ts:72 | a body saying "directory" but never "stakeholder" passes the route check and fails the battery's content test |
| `Content.ContactFormVerdict` | e2e/content.spec.ts:115-127 | the contact-form test passes exactly when the form, the first text field and the first submit control are all visible |
| `Content.ContactFormImpliesForm` | e2e/content.spec.ts:122-126 | a contact form that passes also passes the battery's form test |
| `Content.SelectOnlyForm` | e2e/content.spec.ts:122-123 | a form whose only field is a `select` passes the battery's form test but not the contact-form test |
| `Content.SubmitButtonVerdict` | e2e/content.spec.ts:152-161 | the submit-button test passes exactly when a first `button` or `input` of type submit exists and is visible |
| `Content.TypedSubmitAgrees` | e2e/content.spec.ts:122-126 | when every submit control has a submit type, the contact form passes exactly when its form and first text field are visible and the submit-button test passes |
| `Content.UntypedSendButton` | e2e/content.spec.ts:155 | a visible untyped button labelled "Send" passes the contact-form test and fails the submit-button test |
| `Content.ClickableMenuVerdict` | e2e/content.spec.ts:10-25 | the menu test passes exactly when the navigation and its first link are visible and the link has a non-empty href |
| `Content.InvestmentLinkVerdict` | e2e/content.spec.ts:27-37 | with no visible "Investment" link there is no claim; otherwise the test passes exactly when the address reached holds "investment" |
| `Content.InvestmentRoutePasses` | e2e/content.spec.ts:35 | landing on the registry's investment route, on any origin, passes |
| `Content.MobileViewportVerdict` | e2e/content.spec.ts:199-213 | the mobile test requires `main` visible, and then follows the optional-feature rule for the menu |
| `ContentSync.TestTitle` | tests/tdt.spec.ts:28 | a test title is the fixed prefix followed by at least one digit, and only digits |
| `ContentSync.TestTitleInjective` | tests/tdt.spec.ts:28 | different clock readings give different test titles |
| `ContentSync.TestTitleNotOriginal` | tests/tdt.spec.ts:27-28 | no test title is the original heading |
| `ContentSync.Bearer` | tests/tdt.spec.ts:33 | the authorization header is "Bearer " followed by the token, or "Bearer undefined" when the token is unset |
| `ContentSync.Observes` | tests/tdt.spec.ts:43 | a heading shorter than the title never passes, and a heading that is the title passes |
| `ContentSync.Transaction` | tests/tdt.spec.ts:26-53 | a run passes exactly when it reaches the last phase, which is exactly when the update is ok, the heading shows the test title, and the revert is ok. The first request is always the update, and the revert is sent exactly when update and observation both succeeded |
| `ContentSync.SyncTest.constructor` | tests/tdt.spec.ts:26-27 | a test starts in the first phase with no request sent |
| `ContentSync.SyncTest.Send` | tests/tdt.spec.ts:31-37 | a PUT is recorded, and the stored title changes exactly when its response is ok |
| `ContentSync.SyncTest.Run` | tests/tdt.spec.ts:26-53 | the run as written ends with the verdict, phase, stored title and requests of the run specification |
| `ContentSync.SyncTest.RunWithTeardown` | tests/tdt.spec.ts:45-52 | the run with the revert in a teardown ends as the teardown specification says |
| `ContentSync.NoRevertWhenUpdateFails` | tests/tdt.spec.ts:38 | when the update fails, nothing else is sent and the article is unchanged |
| `ContentSync.ResidualStateOnObserveFailure` | tests/tdt.spec.ts:43-46 | when the heading check fails after an applied update, no revert is sent and the article keeps the test title |
| `ContentSync.PassRestoresOriginalHeading` | tests/tdt.spec.ts:50-52 | a passing run leaves "Original Heading", not the prior title, in the article |
| `ContentSync.RequestsTargetArticle` | tests/tdt.spec.ts:31-49 | every request goes to the article's address with the same authorization; only the update declares a content type |
| `ContentSync.FaithfulFrontendObserves` | tests/tdt.spec.ts:41-43 | a site that renders the stored title as its heading passes the observation |
| `ContentSync.StaleTitleSameWidthRejected` | tests/tdt.spec.ts:43 | a stale heading from another run whose clock reading has as many digits never passes |
| `ContentSync.StaleTitleLongerAccepted` | tests/tdt.spec.ts:43 | a stale heading whose clock reading extends the current one by a digit does pass, since the check is a substring test |
| `ContentSync.GuardedTransaction` | tests/tdt.spec.ts:45-52 | with a teardown, an applied update is always followed by the revert, and a failed update sends nothing more |
| `ContentSync.GuardedRestoresWhenRevertOk` | tests/tdt.spec.ts:45-52 | with a teardown, an ok revert leaves "Original Heading" whatever the observation found, and when the observation passes the run is the same as written |

## Left out

- Playwright itself is not modelled. Navigation, locators, waits, scrolling, viewport sizes, clicks and
  `fill` all become inputs: URLs, body text, counts, visibility flags and attribute values. A
  `toBeVisible` on a locator matching several elements is a strict-mode failure in Playwright;
  the model's visibility inputs stand for the assertion's outcome.
- Every `goto`, `click` and `fill` is taken to complete; no input stands for one that throws,
  except the menu-trigger click of the toggle test (`clicked` of
  `Navigation.AriaExpandedVerdict`). That is why `Navigation.FooterLinksVerdict` and
  `Navigation.CheckInternalLinks` can never fail in the model.
- The HEAD requests of the image test and the PUT requests of the content-sync test are not sent.
  Their answers are the `status` function and the `ok` flags. The API token is an input, since
  its value comes from the environment.
- Page bodies are the text the browser reports. Whitespace handling, Unicode case mapping and
  regular-expression semantics are not modelled. Every pattern the tests use is a plain word or
  an alternation of plain words, and lower-casing is ASCII.
- Each page is observed once. The tests reload the page for every test, and the model gives every
  test of a page the same observation.
- The back-and-forward test (e2e/navigation.spec.ts:111-127) depends only on the browser's session
  history and is not modelled.
- The load-time test (e2e/content.spec.ts:225-232) reads the wall clock and is not modelled, nor
  are the runner timeouts.
- The search and form typing round trips, and the "is enabled is a boolean" check, are not
  modelled (e2e/navigation.spec.ts:300-302, e2e/content.spec.ts:129-150 and 158-160). The
  visibility assertion of the submit-button test (e2e/content.spec.ts:155-156) is modelled.
  Neither is the tablet viewport test (e2e/content.spec.ts:215-221), whose verdict is the
  visibility of `main` itself.
- The title and header checks of tests/tdt.spec.ts:10-24, including the optional About-link
  click, are not modelled. tests/pages.spec.ts is not part of this model: its checks are live
  title and visibility assertions.
- How long the site takes to show a new title is not modelled. The content-sync observation
  receives the heading the site renders for the stored title.
- CSS attribute selectors (`href^=`, `href*=`) are modelled as case-sensitive prefix and
  substring tests on the attribute value.

## Findings

| source | as written | input that shows it | evidently intended | confidence | as-written member | corrected member |
|---|---|---|---|---|---|---|
| tests/tdt.spec.ts:43-52 | the revert PUT comes after the heading assertion, so a failed assertion ends the test before the revert | update ok, and a heading that does not show the test title | the revert, labelled as teardown, runs whatever the observation found, so the article is restored | medium, not executed | `ContentSync.ResidualStateOnObserveFailure` | `ContentSync.GuardedRestoresWhenRevertOk` |
