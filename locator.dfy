/** What the tests do with a locator: take the elements a selector matches, in document
    order, count them, look at the first one, and ask whether it is visible. Only the
    selectors whose logic the tests spell out (form fields, the submit control) are
    modelled on elements; every other locator reaches the judgements as a count and a
    visibility flag. */
module Locator {
  import opened Wrappers
  import opened Text

  /** One element of the rendered page, as far as the form selectors look at it. */
  datatype Element = Element(tag: string, typeAttr: Option<string>, text: string, visible: bool)

  /** The index of the first element (in document order) that `matches` selects. */
  function FirstMatch<T>(es: seq<T>, matches: T -> bool): (r: Option<nat>)
    ensures r.Some? ==> r.value < |es| && matches(es[r.value])
    ensures r.Some? ==> forall j :: 0 <= j < r.value ==> !matches(es[j])
    ensures r.None? <==> forall j :: 0 <= j < |es| ==> !matches(es[j])
  {
    if |es| == 0 then None
    else if matches(es[0]) then Some(0)
    else
      match FirstMatch(es[1..], matches)
      case None => None
      case Some(k) => Some(k + 1)
  }

  /** Elements appended after a match do not change which element matches first. */
  lemma FirstMatchAppend<T>(es: seq<T>, more: seq<T>, matches: T -> bool)
    requires FirstMatch(es, matches).Some?
    ensures FirstMatch(es + more, matches) == FirstMatch(es, matches)
  {
    var i := FirstMatch(es, matches).value;
    var r := FirstMatch(es + more, matches);
    assert (es + more)[i] == es[i];
    assert forall j :: 0 <= j < i ==> (es + more)[j] == es[j];
  }

  /** Two selectors that agree on every element find the same first match. */
  lemma {:induction false} FirstMatchSame<T>(es: seq<T>, m1: T -> bool, m2: T -> bool)
    requires forall i :: 0 <= i < |es| ==> m1(es[i]) == m2(es[i])
    ensures FirstMatch(es, m1) == FirstMatch(es, m2)
    decreases |es|
  {
    if |es| > 0 {
      assert forall i :: 0 <= i < |es[1..]| ==> es[1..][i] == es[i + 1];
      FirstMatchSame(es[1..], m1, m2);
    }
  }

  /** `locator.count()`: how many elements the selector matches. */
  function Count(es: seq<Element>, matches: Element -> bool): (n: nat)
    ensures n <= |es|
    ensures n == 0 <==> FirstMatch(es, matches).None?
  {
    if |es| == 0 then 0
    else (if matches(es[0]) then 1 else 0) + Count(es[1..], matches)
  }

  /** `expect(locator.first()).toBeVisible()`: the first match exists and is visible. A
      later visible match does not help, and no match at all fails. */
  function FirstIsVisible(es: seq<Element>, matches: Element -> bool): (ok: bool)
    ensures ok <==> exists i :: 0 <= i < |es| && matches(es[i]) && es[i].visible &&
                               forall j :: 0 <= j < i ==> !matches(es[j])
  {
    match FirstMatch(es, matches)
    case None => false
    case Some(i) => es[i].visible
  }

  /** The rule every optional feature follows: `if (count > 0) expect(first).toBeVisible()`.
      A count of 0 makes no claim; otherwise the first match must be visible. */
  function OptionalFeature(count: nat, firstVisible: bool): (ok: bool)
    ensures count == 0 ==> ok
    ensures count > 0 ==> (ok <==> firstVisible)
  {
    count == 0 || firstVisible
  }

  /** The optional-feature rule on elements: it passes exactly when nothing matches or the
      first match is visible, so it is implied by the mandatory check. */
  lemma OptionalFeatureOnElements(es: seq<Element>, matches: Element -> bool)
    ensures OptionalFeature(Count(es, matches), FirstIsVisible(es, matches)) <==>
            (forall j :: 0 <= j < |es| ==> !matches(es[j])) || FirstIsVisible(es, matches)
  {
  }

  /** `:has-text("...")`: the element's text contains the literal, ignoring case. */
  predicate HasText(e: Element, literal: string) {
    Contains(Lower(e.text), Lower(literal))
  }

  /** `button[type="submit"], input[type="submit"], button:has-text("Send"), button:has-text("Submit")`:
      only buttons and inputs qualify, and an input only through its type. */
  function IsSubmitControl(e: Element): (sc: bool)
    ensures sc ==> e.tag == "button" || e.tag == "input"
    ensures sc && e.tag == "input" ==> e.typeAttr == Some("submit")
    ensures IsTypedSubmit(e) ==> sc
  {
    || (e.tag == "button" && e.typeAttr == Some("submit"))
    || (e.tag == "input" && e.typeAttr == Some("submit"))
    || (e.tag == "button" && (HasText(e, "Send") || HasText(e, "Submit")))
  }

  /** `button[type="submit"], input[type="submit"]`: the typed half of the submit-control
      selector, with no text match. */
  predicate IsTypedSubmit(e: Element) {
    (e.tag == "button" || e.tag == "input") && e.typeAttr == Some("submit")
  }

  /** `input, textarea`. */
  predicate IsTextField(e: Element) {
    e.tag == "input" || e.tag == "textarea"
  }

  /** `input, textarea, select`. */
  predicate IsFormControl(e: Element) {
    e.tag == "input" || e.tag == "textarea" || e.tag == "select"
  }

  /** A button whose label reads "SEND MESSAGE" is a submit control although it has no
      `type`: the text match ignores case. An `input` labelled "Send" without a submit type is not. */
  lemma SubmitControlExamples()
    ensures IsSubmitControl(Element("button", None, "SEND MESSAGE", true))
    ensures !IsSubmitControl(Element("input", Some("button"), "Send", true))
    ensures !IsSubmitControl(Element("a", None, "Submit", true))
  {
    var e := Element("button", None, "SEND MESSAGE", true);
    assert Lower("Send") == "send";
    assert Lower(e.text)[..4] == "send";
  }
}
