/**
 * The three step actions of the page agent (cursor-extension/content.js):
 * click "Sign in", click "Sign up", fill and submit the sign-up form. None
 * of them looks at the current step number; only button enablement guards
 * them. Their selector chains are not wrapped in `try`, so a selector that
 * throws fails the whole step.
 */
module Steps {
  import opened Wrappers
  import opened Text
  import opened Dom
  import opened Server
  import opened StepState

  /** A selector of a locator chain threw. */
  datatype StepFailure = QueryThrew

  /** The first match of the earliest selector with one; a throwing selector aborts the search. */
  function FirstOfChain(doc: Document, selectors: seq<string>): (r: Result<Option<Element>, StepFailure>)
    ensures r == Ok(None) <==> forall k :: 0 <= k < |selectors| ==> LookupIn(doc, selectors[k]).Missing?
    ensures r.Ok? && r.value.Some? ==>
      exists k :: 0 <= k < |selectors| && LookupIn(doc, selectors[k]) == Hit(r.value.value)
        && forall j :: 0 <= j < k ==> LookupIn(doc, selectors[j]).Missing?
  {
    if selectors == [] then Ok(None)
    else match LookupIn(doc, selectors[0])
      case Invalid => Err(QueryThrew)
      case Hit(e) => Ok(Some(e))
      case Missing =>
        var r := FirstOfChain(doc, selectors[1..]);
        assert forall k :: 1 <= k < |selectors| ==> selectors[k] == selectors[1..][k - 1];
        r
  }

  /** The lower-cased, trimmed text the fallbacks compare against. */
  function Label(e: Element): string {
    JsTrim(AsciiLower(e.text))
  }

  predicate HasKeyword(e: Element, keywords: seq<string>) {
    exists k :: 0 <= k < |keywords| && Contains(Label(e), keywords[k])
  }

  /** The selector chain, then the first element of `fallback` whose label contains a keyword. */
  function Locate(doc: Document, selectors: seq<string>, fallback: string, keywords: seq<string>): (r: Result<Option<Element>, StepFailure>)
    ensures FirstOfChain(doc, selectors).Err? ==> r.Err?
    ensures FirstOfChain(doc, selectors).Ok? && FirstOfChain(doc, selectors).value.Some? ==> r == FirstOfChain(doc, selectors)
    ensures FirstOfChain(doc, selectors) == Ok(None) ==>
      && (r.Err? <==> doc(fallback).Throws?)
      && (r.Ok? ==> r.value == FirstWhere(doc(fallback).elements, (e: Element) => HasKeyword(e, keywords)))
  {
    match FirstOfChain(doc, selectors)
    case Err(f) => Err(f)
    case Ok(Some(e)) => Ok(Some(e))
    case Ok(None) =>
      match doc(fallback)
      case Throws => Err(QueryThrew)
      case Found(es) => Ok(FirstWhere(es, (e: Element) => HasKeyword(e, keywords)))
  }

  /** The target is found: no selector threw and the chain or the fallback produced an element. */
  predicate Located(doc: Document, selectors: seq<string>, fallback: string, keywords: seq<string>) {
    var l := Locate(doc, selectors, fallback, keywords);
    l.Ok? && l.value.Some?
  }

  /** What a step did: the new tab state, what it clicked, the fields it filled, and whether it arms the next step's button. */
  datatype StepOutcome = StepOutcome(tab: Tab, clicked: Option<Element>, filled: seq<(Element, string)>, armsNext: bool)

  /** Step `n` succeeded: the step number is `n`, the record is saved, and button `n` is done. */
  predicate Advanced(t: Tab, r: StepOutcome, n: nat, now: int)
    requires 1 <= n <= 3
  {
    && r.tab.mem == t.mem.(currentStepNumber := n)
    && r.tab.storage == Some(SaveState(r.tab.mem, now))
    && r.tab.ui == SetLook(t.ui, n, Done)
    && r.clicked.Some?
  }

  /** Step `n` failed: memory and storage are untouched and button `n` is armed again. */
  predicate Rearmed(t: Tab, r: StepOutcome, n: nat)
    requires 1 <= n <= 3
  {
    && r.tab.mem == t.mem && r.tab.storage == t.storage
    && r.tab.ui == SetLook(t.ui, n, Ready)
    && r.clicked.None? && !r.armsNext
  }

  /** Steps 1 and 2: locate the target, click it, record step `n` and arm the next button two seconds later. */
  function ClickStep(t: Tab, n: nat, doc: Document, selectors: seq<string>, fallback: string, keywords: seq<string>, now: int): (r: StepOutcome)
    requires 1 <= n <= 2
    ensures r.clicked.Some? <==> Located(doc, selectors, fallback, keywords)
    ensures r.clicked.Some? ==> Advanced(t, r, n, now) && r.armsNext && r.clicked == Locate(doc, selectors, fallback, keywords).value
    ensures r.clicked.None? ==> Rearmed(t, r, n)
    ensures r.filled == []
  {
    match Locate(doc, selectors, fallback, keywords)
    case Ok(Some(e)) =>
      var mem := t.mem.(currentStepNumber := n);
      StepOutcome(Tab(mem, SetLook(t.ui, n, Done), Some(SaveState(mem, now))), Some(e), [], true)
    case _ => StepOutcome(t.(ui := SetLook(t.ui, n, Ready)), None, [], false)
  }

  const SignInSelectors: seq<string> := ["a[href*=\"auth\"]", "a[href*=\"login\"]", "a[href*=\"signin\"]", ".sign-in", ".login-btn"]
  const SignInKeywords: seq<string> := ["sign in", "login", "로그인"]
  const SignUpSelectors: seq<string> := ["a[href*=\"sign-up\"]", ".sign-up", ".signup-btn"]
  const SignUpKeywords: seq<string> := ["sign up", "signup", "회원가입"]
  const LinkOrButton: string := "a, button"

  /** `executeStep1`. */
  function ExecuteStep1(t: Tab, doc: Document, now: int): (r: StepOutcome)
    ensures r.clicked.Some? <==> Located(doc, SignInSelectors, LinkOrButton, SignInKeywords)
    ensures r.clicked.Some? ==> Advanced(t, r, 1, now) && r.armsNext
    ensures r.clicked.None? ==> Rearmed(t, r, 1)
  {
    ClickStep(t, 1, doc, SignInSelectors, LinkOrButton, SignInKeywords, now)
  }

  /** `executeStep2`. */
  function ExecuteStep2(t: Tab, doc: Document, now: int): (r: StepOutcome)
    ensures r.clicked.Some? <==> Located(doc, SignUpSelectors, LinkOrButton, SignUpKeywords)
    ensures r.clicked.Some? ==> Advanced(t, r, 2, now) && r.armsNext
    ensures r.clicked.None? ==> Rearmed(t, r, 2)
  {
    ClickStep(t, 2, doc, SignUpSelectors, LinkOrButton, SignUpKeywords, now)
  }

  /** The delayed arming of the next step's button after a successful step. */
  function ArmStep(t: Tab, n: nat): (r: Tab)
    requires 1 <= n <= 3
    ensures LookOf(r.ui, n) == Ready && r.mem == t.mem && r.storage == t.storage
  {
    t.(ui := SetLook(t.ui, n, Ready))
  }

  const FirstNameSelector: string := "input[name*=\"first\"], input[name*=\"firstName\"], input[placeholder*=\"First\"], input[placeholder*=\"이름\"]"
  const LastNameSelector: string := "input[name*=\"last\"], input[name*=\"lastName\"], input[placeholder*=\"Last\"], input[placeholder*=\"성\"]"
  const EmailSelector: string := "input[type=\"email\"], input[name*=\"email\"], input[placeholder*=\"email\"], input[placeholder*=\"이메일\"]"
  const ContinueSelectors: seq<string> := ["button[type=\"submit\"]", ".continue-btn", ".submit-btn"]
  const ContinueKeywords: seq<string> := ["continue", "계속", "다음", "submit"]

  /**
   * `executeStep3`, with `fetched` the answer of `/get-user-data`. The three
   * fields are filled before the continue button is looked for, so they stay
   * filled when the button is missing.
   */
  function ExecuteStep3(t: Tab, doc: Document, fetched: Option<UserData>, now: int): (r: StepOutcome)
    ensures r.clicked.Some? ==> Advanced(t, r, 3, now) && !r.armsNext
    ensures r.clicked.None? ==> Rearmed(t, r, 3)
    ensures r.clicked.Some? <==>
      && fetched.Some?
      && LookupIn(doc, FirstNameSelector).Hit? && LookupIn(doc, LastNameSelector).Hit? && LookupIn(doc, EmailSelector).Hit?
      && Located(doc, ContinueSelectors, "button", ContinueKeywords)
    ensures r.filled != [] <==>
      fetched.Some? && LookupIn(doc, FirstNameSelector).Hit? && LookupIn(doc, LastNameSelector).Hit? && LookupIn(doc, EmailSelector).Hit?
    ensures r.filled != [] ==>
      && fetched.Some? && LookupIn(doc, FirstNameSelector).Hit? && LookupIn(doc, LastNameSelector).Hit? && LookupIn(doc, EmailSelector).Hit?
      && r.filled == [(LookupIn(doc, FirstNameSelector).element, fetched.value.firstName),
                      (LookupIn(doc, LastNameSelector).element, fetched.value.lastName),
                      (LookupIn(doc, EmailSelector).element, fetched.value.email)]
  {
    var failed := StepOutcome(t.(ui := SetLook(t.ui, 3, Ready)), None, [], false);
    match fetched
    case None => failed
    case Some(u) =>
      var first := LookupIn(doc, FirstNameSelector);
      var last := LookupIn(doc, LastNameSelector);
      var email := LookupIn(doc, EmailSelector);
      if !(first.Hit? && last.Hit? && email.Hit?) then failed
      else
        var filled := [(first.element, u.firstName), (last.element, u.lastName), (email.element, u.email)];
        match Locate(doc, ContinueSelectors, "button", ContinueKeywords)
        case Ok(Some(b)) =>
          var mem := t.mem.(currentStepNumber := 3);
          StepOutcome(Tab(mem, SetLook(t.ui, 3, Done), Some(SaveState(mem, now))), Some(b), filled, false)
        case _ => failed.(filled := filled)
  }

  /**
   * No step consults the step number: from any step number the same target
   * is clicked and, on success, the step number becomes the step's own.
   */
  lemma StepsIgnoreCurrentStep(t: Tab, doc: Document, fetched: Option<UserData>, now: int, x: int)
    ensures var t' := t.(mem := t.mem.(currentStepNumber := x));
      && ExecuteStep1(t', doc, now).clicked == ExecuteStep1(t, doc, now).clicked
      && ExecuteStep2(t', doc, now).clicked == ExecuteStep2(t, doc, now).clicked
      && ExecuteStep3(t', doc, fetched, now).clicked == ExecuteStep3(t, doc, fetched, now).clicked
  {
  }

  /**
   * A successful step followed by a reload within the hour and a widget
   * refresh resumes where it left off: the next step's button is the armed
   * one (none after step 3).
   */
  lemma StepThenReloadArmsNext(t: Tab, doc: Document, fetched: Option<UserData>, now: int, later: int, m0: Memory)
    requires t.mem.emailGenerated && 0 <= later - now < MaxAge
    ensures var r := ExecuteStep1(t, doc, now);
      r.clicked.Some? ==>
        var mem := LoadState(m0, r.tab.storage, later).0;
        var ui := UpdateUIFromState(Tab(mem, r.tab.ui, r.tab.storage), fetched, later).ui;
        forall j :: 1 <= j <= 3 ==> (LookOf(ui, j) == Ready <==> j == 2)
  {
    var r := ExecuteStep1(t, doc, now);
    if r.clicked.Some? {
      var mem := LoadState(m0, r.tab.storage, later).0;
      assert mem == r.tab.mem;
      UpdateUIMapping(Tab(mem, r.tab.ui, r.tab.storage), fetched, later);
    }
  }
}
