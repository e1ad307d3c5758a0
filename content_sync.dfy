/** The content-synchronisation test: write a fresh title to an article of the content
    management system, check that the site's heading shows it, then write "Original Heading"
    back. The stored title is one abstract string; each request's response is an `ok` flag,
    and a write is applied exactly when its response is ok. */
module ContentSync {
  import opened Wrappers
  import opened Text

  /** The address of the content management system. */
  const StrapiUrl: string := "https://tdt.akvotest.org/cms/admin"

  /** The article the test writes to. */
  const ContentId: string := "1"

  /** The title written back at the end of the test. */
  const OriginalTitle: string := "Original Heading"

  /** The fixed start of every test title. */
  const TitlePrefix: string := "Automated Test Title "

  /** The address both writes go to. */
  const ArticleEndpoint: string := StrapiUrl + "/api/articles/" + ContentId

  /** The title the test writes: the prefix followed by the clock reading in decimal. */
  function TestTitle(timestamp: nat): (t: string)
    ensures StartsWith(t, TitlePrefix) && |t| > |TitlePrefix|
    ensures forall i :: |TitlePrefix| <= i < |t| ==> '0' <= t[i] <= '9'
  {
    TitlePrefix + NatToString(timestamp)
  }

  /** Different clock readings give different titles. */
  lemma TestTitleInjective(a: nat, b: nat)
    requires TestTitle(a) == TestTitle(b)
    ensures a == b
  {
    assert NatToString(a) == TestTitle(a)[|TitlePrefix|..];
    assert NatToString(b) == TestTitle(b)[|TitlePrefix|..];
    NatToStringInjective(a, b);
  }

  /** No test title is the original heading. */
  lemma TestTitleNotOriginal(timestamp: nat)
    ensures TestTitle(timestamp) != OriginalTitle
  {
    assert TestTitle(timestamp)[0] == 'A' && OriginalTitle[0] == 'O';
  }

  /** The `Authorization` header. An unset token is rendered by the template as "undefined". */
  function Bearer(token: Option<string>): (h: string)
    ensures StartsWith(h, "Bearer ")
    ensures token.Some? ==> h[7..] == token.value
    ensures token.None? ==> h == "Bearer undefined"
  {
    "Bearer " + token.GetOr("undefined")
  }

  /** A PUT request to the content management system. */
  datatype Request = Put(url: string, authorization: string, contentType: Option<string>, title: string)

  /** The write of the test title, which declares a JSON body. */
  function Mutation(token: Option<string>, timestamp: nat): Request {
    Put(ArticleEndpoint, Bearer(token), Some("application/json"), TestTitle(timestamp))
  }

  /** The write back of the original heading, which sets no `Content-Type`. */
  function Revert(token: Option<string>): Request {
    Put(ArticleEndpoint, Bearer(token), None, OriginalTitle)
  }

  /** `toContainText(testTitle)` on the page's `h1`: there is a heading and its text holds
      the title. `None` stands for no heading within the wait. A heading shorter than the
      title never passes, and a heading that is the title does. */
  function Observes(heading: Option<string>, title: string): (seen: bool)
    ensures seen ==> heading.Some? && |title| <= |heading.value|
    ensures heading == Some(title) ==> seen
  {
    StartsWithContains(title, title);
    if heading.None? then false
    else if |heading.value| < |title| then
      ContainsLonger(heading.value, title);
      false
    else Contains(heading.value, title)
  }

  /** The last step of the test that succeeded. */
  datatype Phase = Pending | Mutated | Observed | Reverted

  /** What a run leaves behind: its verdict, the last step reached, the stored title, and the
      requests sent, in order. */
  datatype Outcome = Outcome(passed: bool, phase: Phase, finalTitle: string, requests: seq<Request>)

  /** A run as written: the update, then (only if it was ok) the observation, then (only if
      the observation passed) the revert. `frontend` gives the heading the site renders for
      a stored title. */
  function Transaction(prior: string, token: Option<string>, timestamp: nat, updateOk: bool,
                       frontend: string -> Option<string>, revertOk: bool): (r: Outcome)
    ensures r.passed <==> r.phase == Reverted
    ensures r.passed <==> updateOk && Observes(frontend(TestTitle(timestamp)), TestTitle(timestamp)) && revertOk
    ensures 1 <= |r.requests| <= 2 && r.requests[0] == Mutation(token, timestamp)
    ensures |r.requests| == 2 <==> updateOk && Observes(frontend(TestTitle(timestamp)), TestTitle(timestamp))
    ensures |r.requests| == 2 ==> r.requests[1] == Revert(token)
  {
    var title := TestTitle(timestamp);
    var mutation := Mutation(token, timestamp);
    if !updateOk then Outcome(false, Pending, prior, [mutation])
    else if !Observes(frontend(title), title) then Outcome(false, Mutated, title, [mutation])
    else if !revertOk then Outcome(false, Observed, title, [mutation, Revert(token)])
    else Outcome(true, Reverted, OriginalTitle, [mutation, Revert(token)])
  }

  /** The test and the article it writes to. */
  class SyncTest {
    var cmsTitle: string
    var phase: Phase
    var requests: seq<Request>

    /** A test that has not started, against an article holding `initialTitle`. */
    constructor (initialTitle: string)
      ensures cmsTitle == initialTitle && phase == Pending && requests == []
    {
      cmsTitle := initialTitle;
      phase := Pending;
      requests := [];
    }

    /** Sends one PUT; the stored title changes exactly when the response is ok. */
    method Send(request: Request, ok: bool)
      modifies this
      ensures requests == old(requests) + [request]
      ensures cmsTitle == if ok then request.title else old(cmsTitle)
      ensures phase == old(phase)
    {
      requests := requests + [request];
      if ok {
        cmsTitle := request.title;
      }
    }

    /** The test as written: every `expect` that fails ends the run, so the revert is sent
        only after the heading has been observed. */
    method Run(token: Option<string>, timestamp: nat, updateOk: bool,
               frontend: string -> Option<string>, revertOk: bool) returns (passed: bool)
      requires phase == Pending && requests == []
      modifies this
      ensures var r := Transaction(old(cmsTitle), token, timestamp, updateOk, frontend, revertOk);
              passed == r.passed && phase == r.phase && cmsTitle == r.finalTitle && requests == r.requests
    {
      var title := TestTitle(timestamp);
      Send(Mutation(token, timestamp), updateOk);
      if !updateOk {
        return false;
      }
      phase := Mutated;
      if !Observes(frontend(cmsTitle), title) {
        return false;
      }
      phase := Observed;
      Send(Revert(token), revertOk);
      if !revertOk {
        return false;
      }
      phase := Reverted;
      passed := true;
    }

    /** The test with its revert in a teardown that runs however the observation ends. */
    method RunWithTeardown(token: Option<string>, timestamp: nat, updateOk: bool,
                           frontend: string -> Option<string>, revertOk: bool) returns (passed: bool)
      requires phase == Pending && requests == []
      modifies this
      ensures var r := GuardedTransaction(old(cmsTitle), token, timestamp, updateOk, frontend, revertOk);
              passed == r.passed && phase == r.phase && cmsTitle == r.finalTitle && requests == r.requests
    {
      var title := TestTitle(timestamp);
      Send(Mutation(token, timestamp), updateOk);
      if !updateOk {
        return false;
      }
      phase := Mutated;
      var observed := Observes(frontend(cmsTitle), title);
      if observed {
        phase := Observed;
      }
      Send(Revert(token), revertOk);
      if revertOk && observed {
        phase := Reverted;
      }
      passed := observed && revertOk;
    }
  }

  /** A run whose update failed sends nothing else and leaves the article as it was. */
  lemma NoRevertWhenUpdateFails(prior: string, token: Option<string>, timestamp: nat,
                                frontend: string -> Option<string>, revertOk: bool)
    ensures var r := Transaction(prior, token, timestamp, false, frontend, revertOk);
            !r.passed && r.requests == [Mutation(token, timestamp)] && r.finalTitle == prior
  {
  }

  /** A run whose heading check fails after a successful update sends no revert, and the
      article keeps the test title, which is never the original heading. */
  lemma ResidualStateOnObserveFailure(prior: string, token: Option<string>, timestamp: nat,
                                      frontend: string -> Option<string>, revertOk: bool)
    requires !Observes(frontend(TestTitle(timestamp)), TestTitle(timestamp))
    ensures var r := Transaction(prior, token, timestamp, true, frontend, revertOk);
            !r.passed && |r.requests| == 1 && r.finalTitle == TestTitle(timestamp) &&
            r.finalTitle != OriginalTitle
  {
    TestTitleNotOriginal(timestamp);
  }

  /** A run that passes leaves "Original Heading" in the article, whatever it held before:
      the revert writes the constant, not the prior title. */
  lemma PassRestoresOriginalHeading(prior: string, token: Option<string>, timestamp: nat, updateOk: bool,
                                    frontend: string -> Option<string>, revertOk: bool)
    ensures var r := Transaction(prior, token, timestamp, updateOk, frontend, revertOk);
            r.passed ==> r.finalTitle == OriginalTitle
    ensures var r := Transaction(prior, token, timestamp, updateOk, frontend, revertOk);
            r.passed && prior != OriginalTitle ==> r.finalTitle != prior
  {
  }

  /** Every request goes to the article's address with the same `Authorization` header, and
      only the first declares a content type. */
  lemma RequestsTargetArticle(prior: string, token: Option<string>, timestamp: nat, updateOk: bool,
                              frontend: string -> Option<string>, revertOk: bool)
    ensures var r := Transaction(prior, token, timestamp, updateOk, frontend, revertOk);
            forall k :: 0 <= k < |r.requests| ==>
              r.requests[k].url == ArticleEndpoint && r.requests[k].authorization == Bearer(token) &&
              (r.requests[k].contentType.Some? <==> k == 0)
  {
  }

  /** A site that renders the stored title as its heading makes the observation pass after a
      successful update. */
  lemma FaithfulFrontendObserves(timestamp: nat, frontend: string -> Option<string>)
    requires frontend(TestTitle(timestamp)) == Some(TestTitle(timestamp))
    ensures Observes(frontend(TestTitle(timestamp)), TestTitle(timestamp))
  {
    StartsWithContains(TestTitle(timestamp), TestTitle(timestamp));
  }

  /** A heading that still shows the title of an earlier run with a clock reading of the same
      number of digits never passes the observation. */
  lemma StaleTitleSameWidthRejected(stale: nat, timestamp: nat)
    requires |NatToString(stale)| == |NatToString(timestamp)| && stale != timestamp
    ensures !Observes(Some(TestTitle(stale)), TestTitle(timestamp))
  {
    ContainsSameLength(TestTitle(stale), TestTitle(timestamp));
    if TestTitle(stale) == TestTitle(timestamp) {
      TestTitleInjective(stale, timestamp);
    }
  }

  /** The observation is a substring test, so a stale heading whose clock reading extends the
      current one by a digit passes it. */
  lemma StaleTitleLongerAccepted(timestamp: nat, digit: nat)
    requires timestamp > 0 && digit < 10
    ensures Observes(Some(TestTitle(timestamp * 10 + digit)), TestTitle(timestamp))
  {
    var n := timestamp * 10 + digit;
    assert n / 10 == timestamp && n % 10 == digit;
    assert NatToString(n) == NatToString(timestamp) + [DigitChar(digit)];
    assert TestTitle(n) == TestTitle(timestamp) + [DigitChar(digit)];
    assert StartsWith(TestTitle(n), TestTitle(timestamp));
    StartsWithContains(TestTitle(n), TestTitle(timestamp));
  }

  /** A run whose revert sits in a teardown: once the update is applied the revert is sent
      whatever the observation found. */
  function GuardedTransaction(prior: string, token: Option<string>, timestamp: nat, updateOk: bool,
                              frontend: string -> Option<string>, revertOk: bool): (r: Outcome)
    ensures r.passed <==> r.phase == Reverted
    ensures r.passed <==> updateOk && Observes(frontend(TestTitle(timestamp)), TestTitle(timestamp)) && revertOk
    ensures updateOk ==> r.requests == [Mutation(token, timestamp), Revert(token)]
    ensures !updateOk ==> r.requests == [Mutation(token, timestamp)] && r.finalTitle == prior
  {
    var title := TestTitle(timestamp);
    var mutation := Mutation(token, timestamp);
    var observed := Observes(frontend(title), title);
    if !updateOk then Outcome(false, Pending, prior, [mutation])
    else
      var phase := if !observed then Mutated else if !revertOk then Observed else Reverted;
      Outcome(observed && revertOk, phase, if revertOk then OriginalTitle else title, [mutation, Revert(token)])
  }

  /** With the teardown, an ok revert leaves "Original Heading" in the article whether or not
      the observation passed, and a run whose observation passes behaves exactly as written. */
  lemma GuardedRestoresWhenRevertOk(prior: string, token: Option<string>, timestamp: nat, updateOk: bool,
                                    frontend: string -> Option<string>)
    ensures updateOk ==> GuardedTransaction(prior, token, timestamp, updateOk, frontend, true).finalTitle == OriginalTitle
    ensures Observes(frontend(TestTitle(timestamp)), TestTitle(timestamp)) ==>
              forall revertOk: bool :: GuardedTransaction(prior, token, timestamp, updateOk, frontend, revertOk) ==
                                       Transaction(prior, token, timestamp, updateOk, frontend, revertOk)
  {
  }
}
