/**
 * The page agent's cross-tab progress (cursor-extension/content.js): the
 * record it persists in extension storage, the three step buttons it derives
 * from that record, and the e-mail generation that starts a run. Storage is
 * an optional record, the clock reading is `now`, and each fetch result is an
 * input (`None` for a request that failed or was not ok).
 */
module StepState {
  import opened Wrappers
  import opened Server

  /** `currentStepNumber` (0 initial, N after step N), `emailGenerated`, `userData`. */
  datatype Memory = Memory(currentStepNumber: int, emailGenerated: bool, userData: Option<UserData>)

  const InitialMemory := Memory(0, false, None)

  /** The stored record; a field read back as `undefined` or `null` is `None`. */
  datatype Stored = Stored(currentStepNumber: Option<int>, emailGenerated: Option<bool>, userData: Option<UserData>, timestamp: Option<int>)

  /** Records older than an hour are discarded. */
  const MaxAge: int := 3600000

  /** `saveState`. */
  function SaveState(m: Memory, now: int): (r: Stored)
    ensures r.timestamp == Some(now)
  {
    Stored(Some(m.currentStepNumber), Some(m.emailGenerated), m.userData, Some(now))
  }

  /** `Date.now() - state.timestamp < 3600000`; a missing timestamp gives NaN, which is never smaller. */
  predicate Fresh(s: Stored, now: int) {
    s.timestamp.Some? && now - s.timestamp.value < MaxAge
  }

  /** The restored fields, each falling back to its default when falsy. */
  function Restore(s: Stored): Memory {
    Memory(s.currentStepNumber.GetOr(0), s.emailGenerated.GetOr(false), s.userData)
  }

  /**
   * `loadState`: the new memory, the new storage and the returned flag. A
   * fresh record is restored; a stale one is removed and memory is kept.
   */
  function LoadState(m: Memory, storage: Option<Stored>, now: int): (r: (Memory, Option<Stored>, bool))
    ensures r.2 <==> storage.Some? && Fresh(storage.value, now)
    ensures !r.2 ==> r.0 == m
    ensures r.1.Some? ==> r.1 == storage
    ensures storage.Some? && !Fresh(storage.value, now) ==> r.1.None?
  {
    match storage
    case None => (m, None, false)
    case Some(s) => if Fresh(s, now) then (Restore(s), storage, true) else (m, None, false)
  }

  /** `clearState`. */
  function ClearState(storage: Option<Stored>): (r: Option<Stored>)
    ensures r.None?
  {
    None
  }

  /**
   * Saving and loading within the hour restores the memory exactly;
   * loading at an hour or later removes the record and keeps the current
   * memory.
   */
  lemma SaveLoadRoundTrip(m: Memory, current: Memory, saved: int, now: int)
    ensures now - saved < MaxAge ==> LoadState(current, Some(SaveState(m, saved)), now) == (m, Some(SaveState(m, saved)), true)
    ensures now - saved >= MaxAge ==> LoadState(current, Some(SaveState(m, saved)), now) == (current, None, false)
  {
  }

  /** A restored record with missing fields falls back to step 0, no e-mail, and no user data. */
  lemma RestoreDefaults(m: Memory, s: Stored, now: int)
    requires Fresh(s, now) && s.currentStepNumber.None? && s.emailGenerated.None? && s.userData.None?
    ensures LoadState(m, Some(s), now).0 == InitialMemory
  {
  }

  /** How a step button looks: armed, waiting for an earlier step, running, or done. */
  datatype Look = Ready | Idle | Running | Done

  /** The widget state the steps touch. */
  datatype Ui = Ui(
    emailButtonShown: bool, emailButtonEnabled: bool, emailInfoShown: bool, stepsShown: bool,
    step1: Look, step2: Look, step3: Look)

  /** The look of step button `n`. */
  function LookOf(ui: Ui, n: nat): Look
    requires 1 <= n <= 3
  {
    if n == 1 then ui.step1 else if n == 2 then ui.step2 else ui.step3
  }

  function SetLook(ui: Ui, n: nat, look: Look): (r: Ui)
    requires 1 <= n <= 3
    ensures LookOf(r, n) == look
    ensures forall j :: 1 <= j <= 3 && j != n ==> LookOf(r, j) == LookOf(ui, j)
    ensures r.emailButtonShown == ui.emailButtonShown && r.emailButtonEnabled == ui.emailButtonEnabled
    ensures r.emailInfoShown == ui.emailInfoShown && r.stepsShown == ui.stepsShown
  {
    if n == 1 then ui.(step1 := look) else if n == 2 then ui.(step2 := look) else ui.(step3 := look)
  }

  /** A page agent's persisted progress, its widget, and the extension storage. */
  datatype Tab = Tab(mem: Memory, ui: Ui, storage: Option<Stored>)

  /**
   * `updateUIFromState`. With no e-mail or at step 0 nothing changes.
   * Otherwise missing user data is fetched (and saved when the fetch
   * succeeds), the step buttons are shown, and their looks follow the step
   * number; a step number outside 1..3 leaves the looks as they were.
   */
  function UpdateUIFromState(t: Tab, fetched: Option<UserData>, now: int): (r: Tab)
    ensures !t.mem.emailGenerated || t.mem.currentStepNumber == 0 ==> r == t
  {
    if !t.mem.emailGenerated || t.mem.currentStepNumber == 0 then t
    else
      var fetch := t.mem.userData.None? && fetched.Some?;
      var mem := if fetch then t.mem.(userData := fetched) else t.mem;
      var storage := if fetch then Some(SaveState(mem, now)) else t.storage;
      var ui := t.ui.(emailInfoShown := t.ui.emailInfoShown || mem.userData.Some?, stepsShown := true, emailButtonShown := false);
      var ui' :=
        if mem.currentStepNumber == 1 then ui.(step1 := Done, step2 := Ready, step3 := Idle)
        else if mem.currentStepNumber == 2 then ui.(step1 := Done, step2 := Done, step3 := Ready)
        else if mem.currentStepNumber == 3 then ui.(step1 := Done, step2 := Done, step3 := Done)
        else ui;
      Tab(mem, ui', storage)
  }

  /**
   * After step k in {1, 2} exactly button k+1 is armed and the buttons up to
   * k are done; after step 3 every button is done and none is armed. The step
   * number itself is never changed.
   */
  lemma UpdateUIMapping(t: Tab, fetched: Option<UserData>, now: int)
    requires t.mem.emailGenerated && 1 <= t.mem.currentStepNumber <= 3
    ensures var r := UpdateUIFromState(t, fetched, now);
      var k := t.mem.currentStepNumber;
      && r.mem.currentStepNumber == k && r.ui.stepsShown && !r.ui.emailButtonShown
      && (forall j :: 1 <= j <= 3 ==> (LookOf(r.ui, j) == Ready <==> j == k + 1))
      && (forall j :: 1 <= j <= k ==> LookOf(r.ui, j) == Done)
      && (forall j :: k + 1 < j <= 3 ==> LookOf(r.ui, j) == Idle)
  {
  }

  /** Fetched user data is kept and persisted only when none was held. */
  lemma UpdateUIFetchesOnlyMissing(t: Tab, fetched: Option<UserData>, now: int)
    requires t.mem.emailGenerated && t.mem.currentStepNumber != 0
    ensures var r := UpdateUIFromState(t, fetched, now);
      && (t.mem.userData.Some? ==> r.mem == t.mem && r.storage == t.storage)
      && (t.mem.userData.None? && fetched.Some? ==> r.mem.userData == fetched && r.storage == Some(SaveState(r.mem, now)))
  {
  }

  /**
   * `generateEmail`. Without a server connection nothing changes. On success
   * the e-mail is marked generated, the data kept, the step reset to 0 and
   * the record saved; on failure the e-mail button is re-enabled.
   */
  function GenerateEmail(t: Tab, serverConnected: bool, response: Option<UserData>, now: int): (r: Tab)
    ensures !serverConnected ==> r == t
    ensures serverConnected && response.Some? ==>
      && r.mem == Memory(0, true, response) && r.storage == Some(SaveState(r.mem, now))
      && r.ui.stepsShown && !r.ui.emailButtonShown && r.ui.emailInfoShown
    ensures serverConnected && response.None? ==> r.mem == t.mem && r.storage == t.storage && r.ui.emailButtonEnabled
  {
    if !serverConnected then t
    else match response
      case Some(data) =>
        var mem := Memory(0, true, Some(data));
        Tab(mem, t.ui.(emailButtonEnabled := false, emailInfoShown := true, stepsShown := true, emailButtonShown := false), Some(SaveState(mem, now)))
      case None => t.(ui := t.ui.(emailButtonEnabled := true))
  }

  /**
   * A fresh e-mail resets the run: whatever step the tab was at, the
   * refreshed widget is left alone afterwards and a reload within the hour
   * restores step 0 with the new data.
   */
  lemma GenerateEmailResets(t: Tab, data: UserData, now: int, later: int, fetched: Option<UserData>)
    requires 0 <= later - now < MaxAge
    ensures var r := GenerateEmail(t, true, Some(data), now);
      && UpdateUIFromState(r, fetched, later) == r
      && LoadState(InitialMemory, r.storage, later).0 == Memory(0, true, Some(data))
  {
  }
}
