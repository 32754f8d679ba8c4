/**
 * The console menu of main.go as a reader of input lines. Only the
 * extension modes touch the controller's user-data slot; the other menu
 * entries are left to their own I/O and are summarised by how many lines
 * they consume. `None` from `ReadLine` is a failed `scanner.Scan()`.
 * The loop and the handlers share one list of lines, one line per read:
 * the separate scanners main.go opens on standard input see the same lines
 * only when each read returns a single line, as at a terminal.
 */
module Menu {
  import opened Wrappers
  import opened Text
  import opened Server

  /** The main menu's choices after trimming the line. */
  datatype MenuChoice =
    | GenerateEmail
    | ExtensionMode
    | AccountStats
    | AccountList
    | MailTest
    | Quit
    | EmptyChoice
    | InvalidChoice(choice: string)

  const QuitWords: set<string> := {"6", "q", "quit", "exit"}
  const ChoiceWords: set<string> := {"", "1", "2", "3", "4", "5", "6", "q", "quit", "exit"}

  /** The `switch` on an already trimmed choice. */
  function ClassifyChoice(c: string): (r: MenuChoice)
    ensures r == Quit <==> c in QuitWords
    ensures r == EmptyChoice <==> c == ""
    ensures r == GenerateEmail <==> c == "1"
    ensures r == ExtensionMode <==> c == "2"
    ensures r == AccountStats <==> c == "3"
    ensures r == AccountList <==> c == "4"
    ensures r == MailTest <==> c == "5"
    ensures r.InvalidChoice? <==> c !in ChoiceWords
    ensures r.InvalidChoice? ==> r.choice == c
  {
    if c == "1" then GenerateEmail
    else if c == "2" then ExtensionMode
    else if c == "3" then AccountStats
    else if c == "4" then AccountList
    else if c == "5" then MailTest
    else if c in QuitWords then Quit
    else if c == "" then EmptyChoice
    else InvalidChoice(c)
  }

  /** The menu reads a line and switches on it trimmed. */
  function ClassifyMenu(line: string): MenuChoice {
    ClassifyChoice(GoTrim(line))
  }

  /** Surrounding white space never changes the choice. */
  lemma ClassifyIgnoresSpace(line: string)
    ensures ClassifyMenu(GoTrim(line)) == ClassifyMenu(line)
  {
    GoTrimIdempotent(line);
  }

  /** The extension mode's sub-menu. */
  datatype ModeChoice = FullAuto | ExtensionOnly | Back | InvalidMode

  function ClassifyMode(line: string): (r: ModeChoice)
    ensures r == FullAuto <==> GoTrim(line) == "1"
    ensures r == ExtensionOnly <==> GoTrim(line) == "2"
    ensures r == InvalidMode <==> GoTrim(line) !in {"1", "2", "3"}
  {
    var c := GoTrim(line);
    if c == "1" then FullAuto
    else if c == "2" then ExtensionOnly
    else if c == "3" then Back
    else InvalidMode
  }

  /** A call on the controller's user-data slot. */
  datatype SlotOp = SetOp(data: UserData) | ClearOp

  function Apply(s: Slot, ops: seq<SlotOp>): Slot
    decreases |ops|
  {
    if ops == [] then s
    else
      var s' := match ops[0]
        case SetOp(u) => SetUserData(s, u.firstName, u.lastName, u.email, u.password)
        case ClearOp => ClearUserData(s);
      Apply(s', ops[1..])
  }

  /** Every store is immediately followed by a clear. */
  ghost predicate Paired(ops: seq<SlotOp>) {
    |ops| % 2 == 0 && forall k :: 0 <= k < |ops| ==> (ops[k].SetOp? <==> k % 2 == 0)
  }

  function ReadLine(lines: seq<string>, pos: nat): Option<string> {
    if pos < |lines| then Some(lines[pos]) else None
  }

  function Min(a: nat, b: nat): nat {
    if a <= b then a else b
  }

  /** What a handler did to the slot and where it left the input. */
  datatype Outcome = Outcome(ops: seq<SlotOp>, next: nat)

  /**
   * `handleFullAutoMode`, with `created` the outcome of creating the mailbox
   * together with the generated names and password. On success it stores
   * the data, waits for one line (whether or not it can be read) and clears.
   */
  function FullAutoMode(lines: seq<string>, pos: nat, created: Result<UserData, string>): (r: Outcome)
    requires pos <= |lines|
    ensures pos <= r.next <= |lines| && Paired(r.ops)
    ensures r.ops != [] <==> created.Ok?
    ensures created.Ok? ==> r.ops[0] == SetOp(created.value)
  {
    match created
    case Err(_) => Outcome([], pos)
    case Ok(u) => Outcome([SetOp(u), ClearOp], Min(pos + 1, |lines|))
  }

  /**
   * `handleExtensionOnlyMode`: four lines, email, first name, last name,
   * password, each trimmed; a failed read or an empty field returns
   * without touching the slot.
   */
  function ExtensionOnlyMode(lines: seq<string>, pos: nat): (r: Outcome)
    requires pos <= |lines|
    ensures pos <= r.next <= |lines| && Paired(r.ops)
    ensures r.ops != [] <==> (
      && pos + 4 <= |lines| && GoTrim(lines[pos]) != "" && GoTrim(lines[pos + 1]) != ""
      && GoTrim(lines[pos + 2]) != "" && GoTrim(lines[pos + 3]) != "")
    ensures r.ops != [] ==>
      r.ops[0] == SetOp(UserData(GoTrim(lines[pos + 1]), GoTrim(lines[pos + 2]), GoTrim(lines[pos]), GoTrim(lines[pos + 3])))
  {
    if pos + 4 > |lines| then Outcome([], |lines|)
    else
      var email := GoTrim(lines[pos]);
      var firstName := GoTrim(lines[pos + 1]);
      var lastName := GoTrim(lines[pos + 2]);
      var password := GoTrim(lines[pos + 3]);
      if email == "" || firstName == "" || lastName == "" || password == "" then Outcome([], pos + 4)
      else
        SetThenClear(UserData(firstName, lastName, email, password));
        Outcome([SetOp(UserData(firstName, lastName, email, password)), ClearOp], Min(pos + 5, |lines|))
  }

  /** One store followed by one clear is paired. */
  lemma SetThenClear(d: UserData)
    ensures Paired([SetOp(d), ClearOp])
  {
    var ops := [SetOp(d), ClearOp];
    assert ops[0].SetOp? && !ops[1].SetOp?;
  }

  /** A stored manual entry never has an empty or untrimmed field. */
  lemma ManualEntryIsTrimmed(lines: seq<string>, pos: nat)
    requires pos <= |lines|
    ensures var r := ExtensionOnlyMode(lines, pos);
      r.ops != [] ==>
        var u := r.ops[0].data;
        && u.email != "" && u.firstName != "" && u.lastName != "" && u.password != ""
        && GoTrim(u.email) == u.email && GoTrim(u.firstName) == u.firstName
        && GoTrim(u.lastName) == u.lastName && GoTrim(u.password) == u.password
  {
    if pos + 4 <= |lines| {
      GoTrimIdempotent(lines[pos]);
      GoTrimIdempotent(lines[pos + 1]);
      GoTrimIdempotent(lines[pos + 2]);
      GoTrimIdempotent(lines[pos + 3]);
    }
  }

  /** `handleExtensionMode`: read the sub-menu choice and run the chosen mode. */
  function ExtensionModeHandler(lines: seq<string>, pos: nat, created: Result<UserData, string>): (r: Outcome)
    requires pos <= |lines|
    ensures pos <= r.next <= |lines| && Paired(r.ops)
    ensures pos < |lines| && ClassifyMode(lines[pos]) in {Back, InvalidMode} ==> r == Outcome([], pos + 1)
  {
    match ReadLine(lines, pos)
    case None => Outcome([], pos)
    case Some(line) =>
      match ClassifyMode(line)
      case FullAuto => FullAutoMode(lines, pos + 1, created)
      case ExtensionOnly => ExtensionOnlyMode(lines, pos + 1)
      case _ => Outcome([], pos + 1)
  }

  /** Why the menu loop ended: a quit word, or a failed read. */
  datatype Exit = Quitted | InputFailed

  /**
   * The main loop from line `pos`. `created(p)` is the full-auto outcome when
   * the menu line at `p` chose the extension mode; `consumed(p)` is how many
   * lines the handler chosen at `p` consumes when it is one of the entries
   * outside this model.
   */
  function MainLoop(lines: seq<string>, pos: nat, created: nat -> Result<UserData, string>, consumed: nat -> nat): (r: (seq<SlotOp>, Exit))
    requires pos <= |lines|
    ensures Paired(r.0)
    decreases |lines| - pos
  {
    if pos == |lines| then ([], InputFailed)
    else
      match ClassifyMenu(lines[pos])
      case Quit => ([], Quitted)
      case ExtensionMode =>
        var o := ExtensionModeHandler(lines, pos + 1, created(pos));
        var rest := MainLoop(lines, o.next, created, consumed);
        PairedAppend(o.ops, rest.0);
        (o.ops + rest.0, rest.1)
      case EmptyChoice => MainLoop(lines, pos + 1, created, consumed)
      case InvalidChoice(_) => MainLoop(lines, pos + 1, created, consumed)
      case _ => MainLoop(lines, Min(pos + 1 + consumed(pos), |lines|), created, consumed)
  }

  lemma PairedAppend(a: seq<SlotOp>, b: seq<SlotOp>)
    requires Paired(a) && Paired(b)
    ensures Paired(a + b)
  {
    var h := |a| / 2;
    assert |a| == 2 * h;
    forall k | 0 <= k < |a + b| ensures ((a + b)[k].SetOp? <==> k % 2 == 0) {
      if k < |a| {
        assert (a + b)[k] == a[k];
      } else {
        var i := k - |a|;
        assert (a + b)[k] == b[i];
        assert k == i + 2 * h;
        assert k % 2 == i % 2;
      }
    }
  }

  /** Applying a paired sequence of slot calls leaves the slot as it was when there were none, and empty otherwise. */
  lemma {:induction false} PairedLeavesSlotEmpty(s: Slot, ops: seq<SlotOp>)
    requires Paired(ops)
    ensures Apply(s, ops) == if ops == [] then s else EmptySlot
    decreases |ops|
  {
    if ops != [] {
      var tail := ops[2..];
      assert Paired(tail) by {
        forall k | 0 <= k < |tail| ensures (tail[k].SetOp? <==> k % 2 == 0) {
          assert tail[k] == ops[k + 2];
        }
      }
      assert ops[1] == ClearOp;
      assert ops[1..][1..] == tail;
      PairedLeavesSlotEmpty(EmptySlot, tail);
    }
  }

  /**
   * Whatever the input, every store into the slot made from the menu is
   * undone before control returns to the menu, so when the program leaves
   * the loop the slot is empty if the extension modes ever stored anything.
   */
  lemma MenuLeavesSlotEmpty(lines: seq<string>, created: nat -> Result<UserData, string>, consumed: nat -> nat, s: Slot)
    ensures var (ops, _) := MainLoop(lines, 0, created, consumed);
      Apply(s, ops) == if ops == [] then s else EmptySlot
  {
    var (ops, _) := MainLoop(lines, 0, created, consumed);
    PairedLeavesSlotEmpty(s, ops);
  }
}
