/**
 * The page agent's command executor and control loop
 * (cursor-extension/content.js): commands handed out by the controller are
 * resolved against the page, executed, and reported back; the poll tick and
 * the stop paths act on the agent's flags and timer handles.
 */
module Executor {
  import opened Wrappers
  import opened Text
  import opened Dom

  /** The six command tags the agent knows, and anything else. */
  datatype CommandKind = Click | Type | Wait | Navigate | Check | Complete | Unknown(tag: string)

  const KnownTypes: set<string> := {"click", "type", "wait", "navigate", "check", "complete"}

  function KindOf(t: string): (k: CommandKind)
    ensures k.Unknown? <==> t !in KnownTypes
  {
    if t == "click" then Click
    else if t == "type" then Type
    else if t == "wait" then Wait
    else if t == "navigate" then Navigate
    else if t == "check" then Check
    else if t == "complete" then Complete
    else Unknown(t)
  }

  function TypeName(k: CommandKind): string {
    match k
    case Click => "click"
    case Type => "type"
    case Wait => "wait"
    case Navigate => "navigate"
    case Check => "check"
    case Complete => "complete"
    case Unknown(t) => t
  }

  /** Classifying a `type` string loses nothing: the tag is recovered from the kind. */
  lemma KindRoundTrip(t: string)
    ensures TypeName(KindOf(t)) == t
    ensures KindOf(TypeName(KindOf(t))) == KindOf(t)
  {
  }

  /**
   * A command as the agent receives it. Fields the controller left out are
   * `undefined` in JavaScript: `None` here, or 0 for the numeric ones.
   */
  datatype Command = Command(
    id: string, kind: CommandKind, description: string,
    selector: Option<string>, index: Option<int>, text: Option<string>, value: Option<string>,
    name: Option<string>, elementType: Option<string>, delay: int, duration: int,
    url: Option<string>, condition: Option<string>, message: Option<string>)

  /** JavaScript truthiness of an optional string. */
  predicate Truthy(s: Option<string>) {
    s.Some? && s.value != ""
  }

  /** JavaScript's string conversion of an optional string, as `querySelector` and `includes` apply it. */
  function JsString(s: Option<string>): string {
    if s.None? then "undefined" else s.value
  }

  /** `command.id || command.type`. */
  function CommandId(c: Command): (r: string)
    ensures c.id != "" ==> r == c.id
    ensures c.id == "" ==> r == TypeName(c.kind)
  {
    if c.id != "" then c.id else TypeName(c.kind)
  }

  /** The page the agent runs on. */
  datatype Page = Page(url: string, bodyText: string, doc: Document)

  const ButtonSelector: string := "button, input[type=\"submit\"], input[type=\"button\"]"
  const LinkSelector: string := "a[href]"
  const ClickableSelector: string := "button, a, input[type=\"submit\"], input[type=\"button\"]"
  const InputSelector: string := "input, textarea, select"

  function NameSelector(name: string): string {
    "input[name=\"" + name + "\"], textarea[name=\"" + name + "\"], select[name=\"" + name + "\"]"
  }

  /** Why a command failed; each is the exception the handler throws. */
  datatype CommandError =
    | SelectorError
    | ElementNotFound
    | ElementNotVisible
    /** `element.select` is not a function on this element; the focus and click already happened. */
    | NotSelectable(tag: string, dispatched: seq<FieldEvent>)
    /** `value.length` on undefined, after the focus and click and after the field was emptied. */
    | ValueUndefined(cleared: Element, dispatched: seq<FieldEvent>)
    | UnknownCommandType(tag: string)
    | UnknownCondition(condition: string)

  /** `list[index]`: out of range (negative included) is `undefined`. */
  function ElementAt(q: Query, index: int): (r: Result<Option<Element>, CommandError>)
    ensures r.Err? <==> q.Throws?
    ensures r.Ok? && r.value.Some? ==> 0 <= index < |q.elements| && r.value.value == q.elements[index]
  {
    match q
    case Throws => Err(SelectorError)
    case Found(es) => if 0 <= index < |es| then Ok(Some(es[index])) else Ok(None)
  }

  function FromLookup(l: Lookup): Result<Option<Element>, CommandError> {
    match l
    case Invalid => Err(SelectorError)
    case Missing => Ok(None)
    case Hit(e) => Ok(Some(e))
  }

  /** The text test of a click: trimmed text content or value contains `t`. */
  predicate TextMatches(e: Element, t: string) {
    Contains(JsTrim(e.text), t) || (e.value.Some? && Contains(e.value.value, t))
  }

  /** `Array.prototype.find` with `TextMatches`. */
  function FirstWithText(es: seq<Element>, t: string): (r: Option<Element>)
    ensures r.None? <==> forall k :: 0 <= k < |es| ==> !TextMatches(es[k], t)
    ensures r.Some? ==>
      exists k :: 0 <= k < |es| && es[k] == r.value && TextMatches(es[k], t)
        && forall j :: 0 <= j < k ==> !TextMatches(es[j], t)
  {
    FirstWhere(es, (e: Element) => TextMatches(e, t))
  }

  /**
   * The element a click command targets: by selector if one is given, else
   * by index among buttons or links (other element types find nothing),
   * else by text among the clickable elements.
   */
  function ResolveClickTarget(page: Page, c: Command): (r: Result<Option<Element>, CommandError>)
    ensures Truthy(c.selector) ==> r == FromLookup(LookupIn(page.doc, c.selector.value))
    ensures !Truthy(c.selector) && c.index.Some? ==>
      (c.elementType == Some("button") ==> r == ElementAt(page.doc(ButtonSelector), c.index.value))
      && (c.elementType == Some("link") ==> r == ElementAt(page.doc(LinkSelector), c.index.value))
      && (c.elementType !in {Some("button"), Some("link")} ==> r == Ok(None))
    ensures !Truthy(c.selector) && c.index.None? && Truthy(c.text) && page.doc(ClickableSelector).Found? ==>
      r == Ok(FirstWithText(page.doc(ClickableSelector).elements, c.text.value))
    ensures !Truthy(c.selector) && c.index.None? && !Truthy(c.text) ==> r == Ok(None)
  {
    if Truthy(c.selector) then FromLookup(LookupIn(page.doc, c.selector.value))
    else if c.index.Some? then
      if c.elementType == Some("button") then ElementAt(page.doc(ButtonSelector), c.index.value)
      else if c.elementType == Some("link") then ElementAt(page.doc(LinkSelector), c.index.value)
      else Ok(None)
    else if Truthy(c.text) then
      match page.doc(ClickableSelector)
      case Throws => Err(SelectorError)
      case Found(es) => Ok(FirstWithText(es, c.text.value))
    else Ok(None)
  }

  /** What a handler that returned did. */
  datatype Effect =
    | Clicked(element: Element)
    | Typed(element: Element, events: seq<FieldEvent>)
    | Waited(duration: int)
    | Navigated(url: string)
    | Checked(observation: bool)
    | Completed

  /** `executeClickCommand`: no element and a hidden element are both errors, raised before any click. */
  function ExecuteClick(page: Page, c: Command): (r: Result<Effect, CommandError>)
    ensures r.Ok? <==> ResolveClickTarget(page, c).Ok? && ResolveClickTarget(page, c).value.Some? && ResolveClickTarget(page, c).value.value.visible
    ensures r.Ok? ==> r.value == Clicked(ResolveClickTarget(page, c).value.value)
    ensures ResolveClickTarget(page, c) == Ok(None) ==> r == Err(ElementNotFound)
  {
    match ResolveClickTarget(page, c)
    case Err(e) => Err(e)
    case Ok(None) => Err(ElementNotFound)
    case Ok(Some(el)) => if !el.visible then Err(ElementNotVisible) else Ok(Clicked(el))
  }

  /** The element a type command targets: by selector, else by index among the form fields, else by name. */
  function ResolveTypeTarget(page: Page, c: Command): (r: Result<Option<Element>, CommandError>)
    ensures Truthy(c.selector) ==> r == FromLookup(LookupIn(page.doc, c.selector.value))
    ensures !Truthy(c.selector) && c.index.Some? ==> r == ElementAt(page.doc(InputSelector), c.index.value)
    ensures !Truthy(c.selector) && c.index.None? && Truthy(c.name) ==> r == FromLookup(LookupIn(page.doc, NameSelector(c.name.value)))
    ensures !Truthy(c.selector) && c.index.None? && !Truthy(c.name) ==> r == Ok(None)
  {
    if Truthy(c.selector) then FromLookup(LookupIn(page.doc, c.selector.value))
    else if c.index.Some? then ElementAt(page.doc(InputSelector), c.index.value)
    else if Truthy(c.name) then FromLookup(LookupIn(page.doc, NameSelector(c.name.value)))
    else Ok(None)
  }

  /**
   * The element has a `select()` method: only text-entry elements do (tags
   * are lower-case local names).
   */
  predicate Selectable(e: Element) {
    e.tag == "input" || e.tag == "textarea"
  }

  /**
   * The typing loop of `executeTypeCommand`: the field is emptied, each
   * character is appended and followed by an input event, and one change
   * event follows the last character.
   */
  method TypeValue(value: string) returns (fieldValue: string, events: seq<FieldEvent>)
    ensures fieldValue == value
    ensures |events| == |value| + 1 && events[|value|] == ChangeEvent(value)
    ensures forall k :: 0 <= k < |value| ==> events[k] == InputEvent(value[..k + 1])
  {
    fieldValue := "";
    events := [];
    var i := 0;
    while i < |value|
      invariant 0 <= i <= |value|
      invariant fieldValue == value[..i]
      invariant |events| == i
      invariant forall k :: 0 <= k < i ==> events[k] == InputEvent(value[..k + 1])
    {
      fieldValue := fieldValue + [value[i]];
      assert fieldValue == value[..i + 1];
      events := events + [InputEvent(fieldValue)];
      i := i + 1;
    }
    assert value[..|value|] == value;
    events := events + [ChangeEvent(fieldValue)];
  }

  /**
   * `executeTypeCommand`. Once the target is found and visible it is focused
   * and clicked before `select()` can throw, so the later errors carry those
   * two events.
   */
  method ExecuteType(page: Page, c: Command) returns (r: Result<Effect, CommandError>)
    ensures r.Ok? <==> && ResolveTypeTarget(page, c).Ok? && ResolveTypeTarget(page, c).value.Some?
                       && ResolveTypeTarget(page, c).value.value.visible
                       && Selectable(ResolveTypeTarget(page, c).value.value) && c.value.Some?
    ensures ResolveTypeTarget(page, c) == Ok(None) ==> r == Err(ElementNotFound)
    ensures ResolveTypeTarget(page, c).Ok? && ResolveTypeTarget(page, c).value.Some? ==>
      var el := ResolveTypeTarget(page, c).value.value;
      && (!el.visible ==> r == Err(ElementNotVisible))
      && (el.visible && !Selectable(el) ==> r == Err(NotSelectable(el.tag, Engage)))
      && (el.visible && Selectable(el) && c.value.None? ==> r == Err(ValueUndefined(el.(value := Some("")), Engage)))
    ensures r.Ok? ==>
      var v := c.value.value;
      && r.value.Typed?
      && r.value.element == ResolveTypeTarget(page, c).value.value.(value := Some(v))
      && |r.value.events| == |v| + 3 && r.value.events[..2] == Engage && r.value.events[|v| + 2] == ChangeEvent(v)
      && (forall k :: 2 <= k < |v| + 2 ==> r.value.events[k] == InputEvent(v[..k - 1]))
  {
    var target := ResolveTypeTarget(page, c);
    if target.Err? {
      return Err(target.error);
    }
    if target.value.None? {
      return Err(ElementNotFound);
    }
    var el := target.value.value;
    if !el.visible {
      return Err(ElementNotVisible);
    }
    if !Selectable(el) {
      return Err(NotSelectable(el.tag, Engage));
    }
    if c.value.None? {
      return Err(ValueUndefined(el.(value := Some("")), Engage));
    }
    var fieldValue, events := TypeValue(c.value.value);
    return Ok(Typed(el.(value := Some(fieldValue)), Engage + events));
  }

  /** `executeCheckCommand`. */
  function ExecuteCheck(page: Page, c: Command): (r: Result<Effect, CommandError>)
    ensures c.condition !in {Some("element_exists"), Some("text_contains"), Some("url_contains")} ==>
      r == Err(UnknownCondition(JsString(c.condition)))
  {
    if c.condition == Some("element_exists") then
      match LookupIn(page.doc, JsString(c.selector))
      case Invalid => Err(SelectorError)
      case Missing => Ok(Checked(false))
      case Hit(_) => Ok(Checked(true))
    else if c.condition == Some("text_contains") then Ok(Checked(Contains(page.bodyText, JsString(c.text))))
    else if c.condition == Some("url_contains") then Ok(Checked(Contains(page.url, JsString(c.text))))
    else Err(UnknownCondition(JsString(c.condition)))
  }

  /**
   * A known condition reports what it observed and never fails because the
   * observation is false; `element_exists` fails only on a selector that
   * throws.
   */
  lemma CheckReportsObservation(page: Page, c: Command)
    ensures c.condition == Some("url_contains") ==>
      ExecuteCheck(page, c) == Ok(Checked(exists i :: OccursAt(page.url, JsString(c.text), i)))
    ensures c.condition == Some("text_contains") ==>
      ExecuteCheck(page, c) == Ok(Checked(exists i :: OccursAt(page.bodyText, JsString(c.text), i)))
    ensures c.condition == Some("element_exists") ==>
      (ExecuteCheck(page, c).Err? <==> page.doc(JsString(c.selector)).Throws?)
      && (ExecuteCheck(page, c).Ok? ==>
            ExecuteCheck(page, c) == Ok(Checked(page.doc(JsString(c.selector)).elements != [])))
  {
  }

  /** Timer handles are positive, so a set handle is truthy. */
  type TimerId = x: nat | x > 0 witness 1

  /** The agent's control flags and timer handles. */
  datatype Agent = Agent(
    isProcessing: bool, isStopped: bool, isStarted: bool, serverConnected: bool,
    currentStep: Option<string>,
    currentTimeout: Option<TimerId>, currentInterval: Option<TimerId>,
    stepExecutionInterval: Option<TimerId>)

  /** `clearAllTimers`: both step timers are cleared; the loop interval is not touched. */
  function ClearAllTimers(a: Agent): (r: Agent)
    ensures r.currentTimeout.None? && r.currentInterval.None?
    ensures r.(currentTimeout := a.currentTimeout, currentInterval := a.currentInterval) == a
  {
    a.(currentTimeout := None, currentInterval := None)
  }

  function StopCentralControlLoop(a: Agent): (r: Agent)
    ensures r.stepExecutionInterval.None? && r.(stepExecutionInterval := a.stepExecutionInterval) == a
  {
    a.(stepExecutionInterval := None)
  }

  /** Stopped, not started, not processing, and both step timers cleared. */
  predicate Halted(a: Agent) {
    a.isStopped && !a.isStarted && !a.isProcessing && a.currentTimeout.None? && a.currentInterval.None?
  }

  /** `stopAutomation`: halts the agent and also stops the poll loop. */
  function StopAutomation(a: Agent): (r: Agent)
    ensures Halted(r) && r.stepExecutionInterval.None?
    ensures r.serverConnected == a.serverConnected && r.currentStep == a.currentStep
  {
    StopCentralControlLoop(ClearAllTimers(a.(isProcessing := false, isStopped := true, isStarted := false)))
  }

  /** `forceStop`: halts the agent but leaves the poll loop's interval set. */
  function ForceStop(a: Agent): (r: Agent)
    ensures Halted(r) && r.stepExecutionInterval == a.stepExecutionInterval
    ensures r.serverConnected == a.serverConnected && r.currentStep == a.currentStep
  {
    ClearAllTimers(a.(isProcessing := false, isStopped := true, isStarted := false))
  }

  /** Stopping twice is stopping once, and a forced stop followed by a regular one equals a regular one. */
  lemma StopIdempotent(a: Agent)
    ensures StopAutomation(StopAutomation(a)) == StopAutomation(a)
    ensures ForceStop(ForceStop(a)) == ForceStop(a)
    ensures StopAutomation(ForceStop(a)) == StopAutomation(a)
  {
  }

  /** The report `reportCommandResult` posts. */
  datatype Report = Report(commandId: string, success: bool, error: Option<CommandError>)

  /**
   * `executeCommand`: `None` is a null command, which returns false without
   * a report. Otherwise exactly one report goes out when the server is
   * connected (none when it is not), its success flag is the returned value,
   * and it is true exactly when the tag is known and its handler returned.
   */
  method ExecuteCommand(a: Agent, page: Page, cmd: Option<Command>)
    returns (a': Agent, ok: bool, reports: seq<Report>, effect: Option<Effect>)
    ensures cmd.None? ==> a' == a && !ok && reports == [] && effect.None?
    ensures cmd.Some? ==> |reports| == (if a.serverConnected then 1 else 0)
    ensures cmd.Some? ==> a'.currentStep == Some(TypeName(cmd.value.kind))
    ensures reports != [] ==> reports[0].commandId == CommandId(cmd.value) && reports[0].success == ok
    ensures reports != [] ==> (reports[0].error.None? <==> ok)
    ensures ok <==> effect.Some?
    ensures cmd.Some? && cmd.value.kind.Unknown? ==> !ok && (reports != [] ==> reports[0].error == Some(UnknownCommandType(cmd.value.kind.tag)))
    ensures cmd.Some? && cmd.value.kind == Click ==> (ok <==> ExecuteClick(page, cmd.value).Ok?)
    ensures cmd.Some? && cmd.value.kind == Type ==>
      var t := ResolveTypeTarget(page, cmd.value);
      (ok <==> t.Ok? && t.value.Some? && t.value.value.visible && Selectable(t.value.value) && cmd.value.value.Some?)
    ensures cmd.Some? && cmd.value.kind == Check ==> (ok <==> ExecuteCheck(page, cmd.value).Ok?)
    ensures cmd.Some? && cmd.value.kind in {Wait, Navigate, Complete} ==> ok
    ensures cmd.Some? && cmd.value.kind == Complete ==> Halted(a') && a'.stepExecutionInterval.None?
    ensures cmd.Some? && cmd.value.kind != Complete ==> a' == a.(currentStep := Some(TypeName(cmd.value.kind)))
  {
    if cmd.None? {
      return a, false, [], None;
    }
    var c := cmd.value;
    a' := a.(currentStep := Some(TypeName(c.kind)));
    var r: Result<Effect, CommandError>;
    match c.kind {
      case Click => r := ExecuteClick(page, c);
      case Type => r := ExecuteType(page, c);
      case Wait => r := Ok(Waited(if c.duration == 0 then 1000 else c.duration));
      case Navigate => r := Ok(Navigated(JsString(c.url)));
      case Check => r := ExecuteCheck(page, c);
      case Complete =>
        a' := StopAutomation(a');
        r := Ok(Completed);
      case Unknown(t) => r := Err(UnknownCommandType(t));
    }
    ok := r.Ok?;
    effect := if r.Ok? then Some(r.value) else None;
    var error := if r.Err? then Some(r.error) else None;
    reports := if a.serverConnected then [Report(CommandId(c), ok, error)] else [];
  }

  /**
   * One run of the poll interval. `fetched` is what `/get-next-command`
   * answered (`None` when the request failed); the agent only asks when the
   * server is connected.
   */
  method Tick(a: Agent, page: Page, fetched: Option<Command>)
    returns (a': Agent, executed: bool, reports: seq<Report>)
    ensures a.isStopped || !a.isStarted ==> a' == StopCentralControlLoop(a) && !executed && reports == []
    ensures !(a.isStopped || !a.isStarted) && (!a.serverConnected || fetched.None?) ==> a' == a && !executed && reports == []
    ensures fetched.Some? && fetched.value.kind == Unknown("wait_for_next") ==> !executed && reports == []
    ensures executed <==>
      && !a.isStopped && a.isStarted && a.serverConnected
      && fetched.Some? && fetched.value.kind != Unknown("wait_for_next")
    ensures executed ==> |reports| == 1 && reports[0].commandId == CommandId(fetched.value)
  {
    if a.isStopped || !a.isStarted {
      return StopCentralControlLoop(a), false, [];
    }
    var command := if a.serverConnected then fetched else None;
    if command.Some? && command.value.kind != Unknown("wait_for_next") {
      var ok, effect;
      a', ok, reports, effect := ExecuteCommand(a, page, command);
      executed := true;
    } else {
      a', executed, reports := a, false, [];
    }
  }

  /** After either stop, a tick executes nothing and ends the poll loop. */
  method StoppedTickIsInert(a: Agent, page: Page, fetched: Option<Command>, forced: bool)
    returns (a': Agent, executed: bool)
    ensures !executed && a'.stepExecutionInterval.None? && Halted(a')
  {
    var stopped := if forced then ForceStop(a) else StopAutomation(a);
    var reports;
    a', executed, reports := Tick(stopped, page, fetched);
  }

  /** `detectPageType` from the tab's host and path, fixed when the agent is created. */
  function DetectPageType(hostname: string, pathname: string): (r: string)
    ensures r in {"main", "dashboard", "authenticator", "unknown"}
    ensures r == "main" <==> hostname == "cursor.com" && pathname == "/"
    ensures r == "dashboard" <==> hostname == "cursor.com" && pathname == "/dashboard"
    ensures r == "authenticator" <==> hostname == "authenticator.cursor.sh"
  {
    if hostname == "cursor.com" && pathname == "/" then "main"
    else if hostname == "cursor.com" && pathname == "/dashboard" then "dashboard"
    else if hostname == "authenticator.cursor.sh" then "authenticator"
    else "unknown"
  }
}
