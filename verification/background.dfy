/**
 * The background service worker (cursor-extension/background.js) as a latch
 * machine: four globals, driven by tab and message events, emitting the
 * messages it sends to tabs. The 5-second timer armed by a sign-in click and
 * the 1-second delay before the auto-start message are events and outputs.
 */
module Background {
  import opened Wrappers
  import opened Text

  /** The worker's globals; `None` is JavaScript's `null`. */
  datatype Latches = Latches(
    currentTabId: Option<int>,
    newAuthTabId: Option<int>,
    isWaitingForNewTab: bool,
    hasStartedAutomation: bool)

  const InitialLatches := Latches(None, None, false, false)

  datatype Event =
    | TabCreated(tabId: int)
    /** `tabs.onUpdated`: `complete` is `changeInfo.status === 'complete'`, `url` is `tab.url`. */
    | TabUpdated(tabId: int, complete: bool, url: Option<string>)
    /** The SIGNIN_CLICKED message; `senderTab` is `sender.tab.id`, absent when the sender has no tab. */
    | SigninClicked(senderTab: Option<int>)
    /** The 5-second timer armed by a sign-in click fires. */
    | WaitTimeout

  /** Messages sent to tabs, in the order they go out; the auto-start message goes out one second after it is scheduled. */
  datatype Message =
    | NewAuthTabReady(to: int, url: string, tabId: int)
    | AutoStartRequested(to: int, url: string)
    | PageLoaded(to: int, url: string)

  /** JavaScript truthiness of a tab id held in a global. */
  predicate Truthy(id: Option<int>) {
    id.Some? && id.value != 0
  }

  /** The load is finished and on a Cursor domain (JavaScript: `tab.url` truthy and contains either host). */
  predicate CursorLoad(complete: bool, url: Option<string>) {
    complete && url.Some? && url.value != "" && (Contains(url.value, "cursor.com") || Contains(url.value, "authenticator.cursor.sh"))
  }

  /** The URL is one of the sign-in pages the tracked tab is expected to reach. */
  predicate AuthUrl(url: string) {
    || Contains(url, "cursor.com/dashboard")
    || Contains(url, "/login")
    || Contains(url, "/auth")
    || Contains(url, "/sign-up")
    || Contains(url, "authenticator.cursor.sh")
  }

  /**
   * The `onUpdated` listener once the load is known to be a Cursor load.
   * NEW_AUTH_TAB_READY and PAGE_LOADED are sent synchronously; the
   * auto-start is sent from a one-second timer, so it is listed after them.
   */
  function OnCursorLoad(l: Latches, tabId: int, url: string): (r: (Latches, seq<Message>))
    ensures r.0.currentTabId == l.currentTabId && r.0.newAuthTabId == l.newAuthTabId
    ensures |r.1| >= 1
    ensures var last := r.1[|r.1| - 1];
      || last == PageLoaded(tabId, url)
      || (last == AutoStartRequested(tabId, url) && |r.1| >= 2 && r.1[|r.1| - 2] == PageLoaded(tabId, url))
    ensures forall k :: 0 <= k < |r.1| - 1 ==> !r.1[k].AutoStartRequested?
  {
    if l.newAuthTabId == Some(tabId) && AuthUrl(url) then
      var ready := if Truthy(l.currentTabId) then [NewAuthTabReady(l.currentTabId.value, url, tabId)] else [];
      var start := Contains(url, "authenticator.cursor.sh") && !l.hasStartedAutomation;
      var l' := l.(hasStartedAutomation := l.hasStartedAutomation || start, isWaitingForNewTab := false);
      var started := if start then [AutoStartRequested(tabId, url)] else [];
      (l', ready + [PageLoaded(tabId, url)] + started)
    else (l, [PageLoaded(tabId, url)])
  }

  function Step(l: Latches, e: Event): (Latches, seq<Message>) {
    match e
    case TabCreated(id) =>
      if l.isWaitingForNewTab then (l.(newAuthTabId := Some(id)), []) else (l, [])
    case TabUpdated(tabId, complete, url) =>
      if CursorLoad(complete, url) then OnCursorLoad(l, tabId, url.value) else (l, [])
    case SigninClicked(sender) =>
      // Reading `sender.tab.id` without a tab throws before any assignment.
      if sender.None? then (l, []) else (Latches(Some(sender.value), None, true, false), [])
    case WaitTimeout =>
      if l.isWaitingForNewTab then (l.(isWaitingForNewTab := false), []) else (l, [])
  }

  /** SigninClicked from a tab records that tab, starts waiting, forgets the auth tab and re-arms the auto-start latch. */
  lemma SigninClickedResets(l: Latches, id: int)
    ensures Step(l, SigninClicked(Some(id))) == (Latches(Some(id), None, true, false), [])
  {
  }

  /** TabCreated records the new tab only while waiting, and otherwise changes nothing; it never sends. */
  lemma TabCreatedOnlyWhileWaiting(l: Latches, id: int)
    ensures var (l', out) := Step(l, TabCreated(id));
      out == [] && (l.isWaitingForNewTab ==> l' == l.(newAuthTabId := Some(id))) && (!l.isWaitingForNewTab ==> l' == l)
  {
  }

  /** The timeout clears the waiting flag if it is still set and touches nothing else. */
  lemma WaitTimeoutOnlyClears(l: Latches)
    ensures Step(l, WaitTimeout) == (l.(isWaitingForNewTab := false), [])
  {
  }

  /** An update that is not a completed Cursor load changes no state and sends nothing. */
  lemma IrrelevantUpdateIgnored(l: Latches, tabId: int, complete: bool, url: Option<string>)
    requires !CursorLoad(complete, url)
    ensures Step(l, TabUpdated(tabId, complete, url)) == (l, [])
  {
  }

  /**
   * A completed Cursor load always sends PAGE_LOADED to that tab, whatever
   * the latches, with only the delayed auto-start after it;
   * NEW_AUTH_TAB_READY goes out only for the tracked tab at an auth URL and
   * only to a set current tab; and the tracked tab reaching an auth URL stops
   * the wait.
   */
  lemma CursorLoadMessages(l: Latches, tabId: int, url: string)
    requires CursorLoad(true, Some(url))
    ensures var (l', out) := Step(l, TabUpdated(tabId, true, Some(url)));
      && (exists k :: 0 <= k < |out| && out[k] == PageLoaded(tabId, url)
            && forall j :: k < j < |out| ==> out[j] == AutoStartRequested(tabId, url))
      && (forall k :: 0 <= k < |out| && out[k].NewAuthTabReady? ==>
            Truthy(l.currentTabId) && out[k].to == l.currentTabId.value && l.newAuthTabId == Some(tabId) && AuthUrl(url))
      && (l.newAuthTabId == Some(tabId) && AuthUrl(url) ==> !l'.isWaitingForNewTab)
      && (l.newAuthTabId == Some(tabId) && AuthUrl(url) && Truthy(l.currentTabId) ==>
            out[0] == NewAuthTabReady(l.currentTabId.value, url, tabId))
  {
    var out := Step(l, TabUpdated(tabId, true, Some(url))).1;
    if l.newAuthTabId == Some(tabId) && AuthUrl(url) {
      var n := if Truthy(l.currentTabId) then 1 else 0;
      assert out[n] == PageLoaded(tabId, url);
    } else {
      assert out[0] == PageLoaded(tabId, url);
    }
  }

  /** Any auto-start sent by one step needs the tracked tab at an authenticator URL with the latch clear, and sets it. */
  lemma AutoStartConditions(l: Latches, e: Event)
    ensures var (l', out) := Step(l, e);
      (exists k :: 0 <= k < |out| && out[k].AutoStartRequested?) ==>
        && e.TabUpdated? && e.complete && l.newAuthTabId == Some(e.tabId)
        && Contains(e.url.value, "authenticator.cursor.sh")
        && !l.hasStartedAutomation && l'.hasStartedAutomation
  {
  }

  /** The latch is only cleared by a sign-in click from a tab. */
  lemma LatchOnlyClearedBySignin(l: Latches, e: Event)
    requires l.hasStartedAutomation && !(e.SigninClicked? && e.senderTab.Some?)
    ensures Step(l, e).0.hasStartedAutomation
  {
  }

  function AutoStarts(out: seq<Message>): nat {
    if out == [] then 0
    else (if out[0].AutoStartRequested? then 1 else 0) + AutoStarts(out[1..])
  }

  lemma {:induction false} AutoStartsAppend(a: seq<Message>, b: seq<Message>)
    ensures AutoStarts(a + b) == AutoStarts(a) + AutoStarts(b)
    decreases |a|
  {
    if a == [] {
      assert a + b == b;
    } else {
      assert (a + b)[1..] == a[1..] + b;
      AutoStartsAppend(a[1..], b);
    }
  }

  /** One step sends at most one auto-start, and none once the latch is set, unless a sign-in click reset it. */
  lemma StepAutoStarts(l: Latches, e: Event)
    ensures AutoStarts(Step(l, e).1) <= 1
    ensures AutoStarts(Step(l, e).1) == 1 ==> !l.hasStartedAutomation && Step(l, e).0.hasStartedAutomation
  {
    match e
    case TabUpdated(tabId, complete, url) =>
      if CursorLoad(complete, url) && l.newAuthTabId == Some(tabId) && AuthUrl(url.value) {
        var u := url.value;
        var ready := if Truthy(l.currentTabId) then [NewAuthTabReady(l.currentTabId.value, u, tabId)] else [];
        var start := Contains(u, "authenticator.cursor.sh") && !l.hasStartedAutomation;
        var started := if start then [AutoStartRequested(tabId, u)] else [];
        AutoStartsAppend(ready, [PageLoaded(tabId, u)]);
        AutoStartsAppend(ready + [PageLoaded(tabId, u)], started);
      } else if CursorLoad(complete, url) {
        assert Step(l, e).1 == [PageLoaded(tabId, url.value)];
      }
    case _ =>
  }

  /** The worker run over a sequence of events: the final latches and every message sent, in order. */
  function Run(l: Latches, events: seq<Event>): (Latches, seq<Message>)
    decreases |events|
  {
    if events == [] then (l, [])
    else
      var (l1, out1) := Step(l, events[0]);
      var (l2, out2) := Run(l1, events[1..]);
      (l2, out1 + out2)
  }

  /**
   * Between two sign-in clicks at most one AUTO_START_REQUESTED is sent, and
   * none at all when the latch was already set at the start.
   */
  lemma {:induction false} AtMostOneAutoStart(l: Latches, events: seq<Event>)
    requires forall k :: 0 <= k < |events| ==> !(events[k].SigninClicked? && events[k].senderTab.Some?)
    ensures AutoStarts(Run(l, events).1) <= (if l.hasStartedAutomation then 0 else 1)
    ensures AutoStarts(Run(l, events).1) == 1 ==> Run(l, events).0.hasStartedAutomation
    ensures l.hasStartedAutomation ==> Run(l, events).0.hasStartedAutomation
    decreases |events|
  {
    if events != [] {
      var (l1, out1) := Step(l, events[0]);
      StepAutoStarts(l, events[0]);
      if l.hasStartedAutomation {
        LatchOnlyClearedBySignin(l, events[0]);
      }
      AtMostOneAutoStart(l1, events[1..]);
      var (l2, out2) := Run(l1, events[1..]);
      AutoStartsAppend(out1, out2);
    }
  }
}
