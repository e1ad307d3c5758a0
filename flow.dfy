/** The shapes every test in the suite shares: a page as the browser shows it after a
    navigation, a run of `expect` calls that stops at the first one that fails, and the
    acceptance test of one step of a navigation flow. */
module Flow {
  import opened Wrappers
  import opened Text

  /** What the browser reports after navigating: `page.url()` and the body's `textContent()`
      (which may be null). */
  datatype View = View(url: string, body: Option<string>)

  /** `textContent() || ''`: a null body reads as the empty string. */
  function BodyText(v: View): string {
    v.body.GetOr("")
  }

  /** A `for (const x of items) { ... expect(...) ... }` loop: an `expect` that fails throws,
      so the loop stops at the first item that does not pass and reports its index. */
  method FirstFailing<T>(items: seq<T>, passes: T -> bool) returns (failed: Option<nat>)
    ensures failed.None? <==> forall i :: 0 <= i < |items| ==> passes(items[i])
    ensures failed.Some? ==> failed.value < |items| && !passes(items[failed.value])
    ensures failed.Some? ==> forall i :: 0 <= i < failed.value ==> passes(items[i])
  {
    failed := None;
    var i := 0;
    while i < |items|
      invariant 0 <= i <= |items|
      invariant forall j :: 0 <= j < i ==> passes(items[j])
    {
      if !passes(items[i]) {
        failed := Some(i);
        return;
      }
      i := i + 1;
    }
  }

  /** `expect(text).not.toContain(m)` for each marker in turn: the index of the first marker
      that the text contains, if any. */
  function FirstPresent(text: string, markers: seq<string>): (r: Option<nat>)
    ensures r.None? <==> forall i :: 0 <= i < |markers| ==> !Contains(text, markers[i])
    ensures r.Some? ==> r.value < |markers| && Contains(text, markers[r.value])
    ensures r.Some? ==> forall i :: 0 <= i < r.value ==> !Contains(text, markers[i])
  {
    if |markers| == 0 then None
    else if Contains(text, markers[0]) then Some(0)
    else
      match FirstPresent(text, markers[1..])
      case None => None
      case Some(k) => Some(k + 1)
  }

  /** One step of a navigation flow: the route to visit and the text expected on it. */
  datatype FlowStep = FlowStep(url: string, expectedText: string)

  /** A step passes when the URL contains the route and the lower-cased body contains the
      lower-cased expected text. (`toHaveURL(new RegExp(route))` is the same test, since
      no route holds a regular-expression metacharacter.) */
  function StepPasses(step: FlowStep, v: View): (ok: bool)
    ensures ok <==> Contains(v.url, step.url) && AnyCaseInsensitive(BodyText(v), [step.expectedText])
  {
    assert [step.expectedText][0] == step.expectedText;
    Contains(v.url, step.url) && Contains(Lower(BodyText(v)), Lower(step.expectedText))
  }

  /** A step whose text appears verbatim in a body on the right URL passes; a step whose
      URL is wrong fails whatever the body says. */
  lemma StepPassesOnExactText(step: FlowStep, v: View)
    ensures Contains(v.url, step.url) && Contains(BodyText(v), step.expectedText) ==> StepPasses(step, v)
    ensures !Contains(v.url, step.url) ==> !StepPasses(step, v)
  {
    if Contains(BodyText(v), step.expectedText) {
      ContainsLower(BodyText(v), step.expectedText);
    }
  }

  /** Runs a navigation flow: visits each step's route in order and stops at the first step
      that does not pass. `visit` stands for navigating the browser. */
  method RunFlow(steps: seq<FlowStep>, visit: string -> View) returns (failed: Option<nat>)
    ensures failed.None? <==> forall i :: 0 <= i < |steps| ==> StepPasses(steps[i], visit(steps[i].url))
    ensures failed.Some? ==> failed.value < |steps| &&
                             !StepPasses(steps[failed.value], visit(steps[failed.value].url))
    ensures failed.Some? ==> forall i :: 0 <= i < failed.value ==> StepPasses(steps[i], visit(steps[i].url))
  {
    failed := FirstFailing(steps, (s: FlowStep) => StepPasses(s, visit(s.url)));
  }
}
