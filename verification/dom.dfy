/**
 * The page as the content script (cursor-extension/content.js) sees it: a
 * CSS selector is answered by the document with the matching elements in
 * document order, or with a thrown syntax error. The selector engine itself
 * is the `Document` oracle; the locator chains built on it are modelled here.
 */
module Dom {
  import opened Wrappers
  import opened Text

  /**
   * An element: `id` identifies it within the page, `text` is its
   * `textContent`, `value` its `value` property (absent on elements that
   * have none), `visible` is `offsetParent !== null`.
   */
  datatype Element = Element(id: nat, tag: string, text: string, value: Option<string>, visible: bool)

  /** `querySelectorAll(selector)`: the matches in document order, or a thrown error. */
  datatype Query = Throws | Found(elements: seq<Element>)

  type Document = string -> Query

  /** `querySelector(selector)`: a thrown error, no match, or the first match. */
  datatype Lookup = Invalid | Missing | Hit(element: Element)

  function LookupIn(doc: Document, selector: string): (r: Lookup)
    ensures r.Hit? <==> doc(selector).Found? && doc(selector).elements != []
    ensures r.Hit? ==> r.element == doc(selector).elements[0]
    ensures r.Invalid? <==> doc(selector).Throws?
  {
    match doc(selector)
    case Throws => Invalid
    case Found(es) => if es == [] then Missing else Hit(es[0])
  }

  /**
   * `findElementBySelectors`: the first match of the earliest selector that
   * has one, skipping selectors that throw. There is no visibility check.
   */
  function FindElementBySelectors(doc: Document, selectors: seq<string>): (r: Option<Element>)
    ensures r.None? <==> forall k :: 0 <= k < |selectors| ==> !LookupIn(doc, selectors[k]).Hit?
    ensures r.Some? ==>
      exists k :: 0 <= k < |selectors| && LookupIn(doc, selectors[k]) == Hit(r.value)
        && forall j :: 0 <= j < k ==> !LookupIn(doc, selectors[j]).Hit?
  {
    if selectors == [] then None
    else match LookupIn(doc, selectors[0])
      case Hit(e) => Some(e)
      case _ =>
        var r := FindElementBySelectors(doc, selectors[1..]);
        assert forall k :: 1 <= k < |selectors| ==> selectors[k] == selectors[1..][k - 1];
        r
  }

  /**
   * The loop of `typeInFieldBySelectors`: every selector that does not throw
   * overwrites `field` with its first match, and the loop stops at the first
   * visible one. When none is visible, `field` keeps whatever the last
   * non-throwing selector produced, visible or not.
   */
  function LeakyField(doc: Document, selectors: seq<string>, field: Option<Element>): Option<Element> {
    if selectors == [] then field
    else match LookupIn(doc, selectors[0])
      case Invalid => LeakyField(doc, selectors[1..], field)
      case Missing => LeakyField(doc, selectors[1..], None)
      case Hit(e) => if e.visible then Some(e) else LeakyField(doc, selectors[1..], Some(e))
  }

  /** Selector `k` yields a visible first match. */
  predicate VisibleHit(doc: Document, selector: string) {
    LookupIn(doc, selector).Hit? && LookupIn(doc, selector).element.visible
  }

  /** The loop stops at the earliest selector whose first match is visible. */
  lemma {:induction false} LeakyFieldFindsFirstVisible(doc: Document, selectors: seq<string>, field: Option<Element>, k: nat)
    requires k < |selectors| && VisibleHit(doc, selectors[k])
    requires forall j :: 0 <= j < k ==> !VisibleHit(doc, selectors[j])
    ensures LeakyField(doc, selectors, field) == Some(LookupIn(doc, selectors[k]).element)
    decreases k
  {
    if k > 0 {
      var next := match LookupIn(doc, selectors[0]) case Invalid => field case Missing => None case Hit(e) => Some(e);
      assert !VisibleHit(doc, selectors[0]);
      assert forall j :: 0 <= j < k - 1 ==> selectors[1..][j] == selectors[j + 1];
      LeakyFieldFindsFirstVisible(doc, selectors[1..], next, k - 1);
    }
  }

  /**
   * Reference for the fall-through case: the first match of the LAST
   * selector that does not throw, or the initial field when all throw.
   */
  function LastLookup(doc: Document, selectors: seq<string>, field: Option<Element>): Option<Element>
    decreases |selectors|
  {
    if selectors == [] then field
    else match LookupIn(doc, selectors[|selectors| - 1])
      case Invalid => LastLookup(doc, selectors[..|selectors| - 1], field)
      case Missing => None
      case Hit(e) => Some(e)
  }

  /** Taking the first selector's answer as the new initial field does not change the last lookup. */
  lemma {:induction false} LastLookupFront(doc: Document, selectors: seq<string>, field: Option<Element>)
    requires selectors != []
    ensures LastLookup(doc, selectors, field) == LastLookup(doc, selectors[1..],
      match LookupIn(doc, selectors[0]) case Invalid => field case Missing => None case Hit(e) => Some(e))
    decreases |selectors|
  {
    var next := match LookupIn(doc, selectors[0]) case Invalid => field case Missing => None case Hit(e) => Some(e);
    if |selectors| > 1 {
      var init := selectors[..|selectors| - 1];
      assert init[1..] == selectors[1..][..|selectors[1..]| - 1];
      assert selectors[1..][|selectors[1..]| - 1] == selectors[|selectors| - 1];
      LastLookupFront(doc, init, field);
    } else {
      assert selectors[..0] == [];
    }
  }

  /** When no selector yields a visible element, the field is the last non-throwing selector's answer, which may be hidden or absent. */
  lemma {:induction false} LeakyFieldFallsThrough(doc: Document, selectors: seq<string>, field: Option<Element>)
    requires forall j :: 0 <= j < |selectors| ==> !VisibleHit(doc, selectors[j])
    ensures LeakyField(doc, selectors, field) == LastLookup(doc, selectors, field)
    decreases |selectors|
  {
    if selectors != [] {
      var next := match LookupIn(doc, selectors[0]) case Invalid => field case Missing => None case Hit(e) => Some(e);
      assert !VisibleHit(doc, selectors[0]);
      assert forall j :: 0 <= j < |selectors| - 1 ==> selectors[1..][j] == selectors[j + 1];
      LeakyFieldFallsThrough(doc, selectors[1..], next);
      LastLookupFront(doc, selectors, field);
    }
  }

  /** A one-element document whose only selector matches a hidden field: the field is chosen anyway. */
  lemma HiddenFieldIsChosen(e: Element)
    requires !e.visible
    ensures LeakyField((s: string) => Found([e]), ["input"], None) == Some(e)
  {
    var doc := (s: string) => Found([e]);
    assert LookupIn(doc, "input") == Hit(e);
    assert ["input"][1..] == [];
  }

  /**
   * Events dispatched on a field, in the order they happen: `focus()`,
   * `click()` and `blur()` calls, and the synthetic input and change events,
   * which carry the field's value at dispatch.
   */
  datatype FieldEvent = FocusEvent | ClickEvent | InputEvent(value: string) | ChangeEvent(value: string) | BlurEvent

  /** The `focus()` then `click()` that precede typing into a field. */
  const Engage: seq<FieldEvent> := [FocusEvent, ClickEvent]

  /** The per-character loop of `typeInFieldElement` over the first `n` characters: an input and a change event after each. */
  function TypingPairs(value: string, n: nat): (r: seq<FieldEvent>)
    requires n <= |value|
    ensures |r| == 2 * n
    ensures forall k :: 0 <= k < n ==> r[2 * k] == InputEvent(value[..k + 1]) && r[2 * k + 1] == ChangeEvent(value[..k + 1])
  {
    if n == 0 then []
    else
      var prev := TypingPairs(value, n - 1);
      var r := prev + [InputEvent(value[..n]), ChangeEvent(value[..n])];
      assert forall k :: 0 <= k < n - 1 ==> r[2 * k] == prev[2 * k] && r[2 * k + 1] == prev[2 * k + 1];
      r
  }

  /**
   * `typeInFieldElement`: the field's final value and the events on it: a
   * focus and a click, an input/change pair per character, then a blur.
   */
  function TypeInFieldElement(field: Element, value: string): (r: (Element, seq<FieldEvent>))
    ensures r.0 == field.(value := Some(value))
    ensures |r.1| == 2 * |value| + 3 && r.1[..2] == Engage && r.1[2 * |value| + 2] == BlurEvent
    ensures forall k :: 0 <= k < |value| ==>
      r.1[2 * k + 2] == InputEvent(value[..k + 1]) && r.1[2 * k + 3] == ChangeEvent(value[..k + 1])
  {
    var pairs := TypingPairs(value, |value|);
    var events := Engage + pairs + [BlurEvent];
    assert forall k :: 0 <= k < |value| ==> events[2 * k + 2] == pairs[2 * k] && events[2 * k + 3] == pairs[2 * k + 1];
    (field.(value := Some(value)), events)
  }

  datatype FieldError = FieldNotFound

  /** `typeInFieldBySelectors`: locate the field through the leaky loop, then type into it. */
  function TypeInFieldBySelectors(doc: Document, selectors: seq<string>, value: string): (r: Result<(Element, seq<FieldEvent>), FieldError>)
    ensures r.Err? <==> LeakyField(doc, selectors, None).None?
    ensures r.Ok? ==> r.value.0.value == Some(value) && r.value.0.id == LeakyField(doc, selectors, None).value.id
  {
    match LeakyField(doc, selectors, None)
    case None => Err(FieldNotFound)
    case Some(f) => Ok(TypeInFieldElement(f, value))
  }

  /** Some selector of the list yields a visible first match. */
  function AnyVisibleHit(doc: Document, selectors: seq<string>): (r: bool)
    ensures r <==> exists k :: 0 <= k < |selectors| && VisibleHit(doc, selectors[k])
  {
    if selectors == [] then false
    else if VisibleHit(doc, selectors[0]) then true
    else
      var r := AnyVisibleHit(doc, selectors[1..]);
      assert forall k :: 1 <= k < |selectors| ==> selectors[k] == selectors[1..][k - 1];
      r
  }

  const CaptchaSelectors: seq<string> := [
    "iframe[src*=\"recaptcha\"]",
    "iframe[src*=\"hcaptcha\"]",
    "div[class*=\"captcha\"]",
    "div[class*=\"challenge\"]",
    "div[class*=\"verification\"]",
    "[data-testid*=\"captcha\"]",
    ".cf-challenge-form",
    "#challenge-form",
    ".challenge-running"]

  /** `detectCaptcha`: some captcha selector's first match is visible; throwing selectors are skipped. */
  function DetectCaptcha(doc: Document): (r: bool)
    ensures r <==> exists k :: 0 <= k < |CaptchaSelectors| && VisibleHit(doc, CaptchaSelectors[k])
  {
    AnyVisibleHit(doc, CaptchaSelectors)
  }

  /** Some selector of the list matches at least one element. */
  function AnyMatch(doc: Document, selectors: seq<string>): (r: bool)
    ensures r <==> exists k :: 0 <= k < |selectors| && LookupIn(doc, selectors[k]).Hit?
  {
    if selectors == [] then false
    else if LookupIn(doc, selectors[0]).Hit? then true
    else
      var r := AnyMatch(doc, selectors[1..]);
      assert forall k :: 1 <= k < |selectors| ==> selectors[k] == selectors[1..][k - 1];
      r
  }

  const SignupIndicators: seq<string> := [
    "input[name=\"firstName\"]",
    "input[name=\"first_name\"]",
    "input[name=\"lastname\"]",
    "input[name=\"last_name\"]",
    "input[placeholder*=\"First name\"]",
    "input[placeholder*=\"Last name\"]",
    "input[placeholder*=\"이름\"]",
    "input[placeholder*=\"성\"]",
    "input[name=\"email\"] + input[name=\"password\"]",
    "input[type=\"email\"] + input[type=\"password\"]",
    "form[data-testid*=\"signup\"]",
    "form[data-testid*=\"register\"]",
    "div[data-testid*=\"signup\"] input",
    "div[data-testid*=\"register\"] input",
    "button:contains(\"Continue\") + input[type=\"email\"]",
    "button:contains(\"Sign up\") + input[type=\"email\"]"]

  const FirstNameProbe: string := "input[name*=\"first\" i], input[placeholder*=\"first\" i]"
  const LastNameProbe: string := "input[name*=\"last\" i], input[placeholder*=\"last\" i]"
  const EmailProbe: string := "input[type=\"email\"], input[name=\"email\"]"

  /**
   * `detectSignupForm`: true when an indicator selector matches (throwing
   * ones are skipped), else when the first-name, last-name and email probes
   * all match. The probes are not guarded, so a probe that throws escapes:
   * that is `None`.
   */
  function DetectSignupForm(doc: Document): (r: Option<bool>)
    ensures AnyMatch(doc, SignupIndicators) ==> r == Some(true)
    ensures !AnyMatch(doc, SignupIndicators) ==> (r.None? <==>
      LookupIn(doc, FirstNameProbe).Invalid? || LookupIn(doc, LastNameProbe).Invalid? || LookupIn(doc, EmailProbe).Invalid?)
    ensures !AnyMatch(doc, SignupIndicators) ==> (r == Some(true) <==>
      LookupIn(doc, FirstNameProbe).Hit? && LookupIn(doc, LastNameProbe).Hit? && LookupIn(doc, EmailProbe).Hit?)
  {
    if AnyMatch(doc, SignupIndicators) then Some(true)
    else
      var first := LookupIn(doc, FirstNameProbe);
      if first.Invalid? then None
      else
        var last := LookupIn(doc, LastNameProbe);
        if last.Invalid? then None
        else
          var email := LookupIn(doc, EmailProbe);
          if email.Invalid? then None
          else Some(first.Hit? && last.Hit? && email.Hit?)
  }

  /**
   * `waitForElement`: poll `findElementBySelectors` up to `2 * maxWaitSeconds`
   * times, `snapshots(i)` being the document at poll `i`; `None` is the
   * time-out error.
   */
  method WaitForElement(snapshots: nat -> Document, selectors: seq<string>, maxWaitSeconds: int) returns (r: Option<Element>)
    ensures r.None? <==> forall i :: 0 <= i < 2 * maxWaitSeconds ==> FindElementBySelectors(snapshots(i), selectors).None?
    ensures r.Some? ==>
      exists i :: 0 <= i < 2 * maxWaitSeconds && FindElementBySelectors(snapshots(i), selectors) == r
        && forall j :: 0 <= j < i ==> FindElementBySelectors(snapshots(j), selectors).None?
  {
    var i: nat := 0;
    while i < 2 * maxWaitSeconds
      invariant forall j :: 0 <= j < i ==> FindElementBySelectors(snapshots(j), selectors).None?
      decreases 2 * maxWaitSeconds - i
    {
      var found := FindElementBySelectors(snapshots(i), selectors);
      if found.Some? {
        return found;
      }
      i := i + 1;
    }
    return None;
  }

  /** The default bound: 30 seconds are 60 polls. */
  const DefaultWaitSeconds: int := 30
}
