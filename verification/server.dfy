/**
 * The controller's state (extension_server.go): the user-data slot the
 * extension reads, and the session store that hands each page agent a fixed
 * command sequence and collects its results. Every HTTP handler is a function
 * from the state and the decoded request to the new state and the response;
 * JSON decoding is an input (`None` for a body that does not decode), and the
 * clock reading is the `now` parameter.
 */
module Server {
  import opened Wrappers

  /** The four fields handed to the extension. */
  datatype UserData = UserData(firstName: string, lastName: string, email: string, password: string)

  /** `userData` and `dataReady` of the server. */
  datatype Slot = Slot(userData: Option<UserData>, ready: bool) {
    /** The two fields are always set and cleared together. */
    predicate Consistent() { ready <==> userData.Some? }
  }

  const EmptySlot := Slot(None, false)

  /** `SetUserData`. */
  function SetUserData(s: Slot, firstName: string, lastName: string, email: string, password: string): (r: Slot)
    ensures r.Consistent()
    ensures r.ready && r.userData.value.email == email && r.userData.value.password == password
    ensures r.userData.value.firstName == firstName && r.userData.value.lastName == lastName
  {
    Slot(Some(UserData(firstName, lastName, email, password)), true)
  }

  /** `GetUserData`: the stored data and the ready flag. */
  function GetUserData(s: Slot): (Option<UserData>, bool) {
    (s.userData, s.ready)
  }

  /** `ClearUserData`. */
  function ClearUserData(s: Slot): (r: Slot)
    ensures r.Consistent() && !r.ready && r.userData.None?
  {
    EmptySlot
  }

  /** After `SetUserData` the getter returns the same four fields and ready; after `ClearUserData` it returns nothing and not ready. */
  lemma SlotRoundTrip(s: Slot, firstName: string, lastName: string, email: string, password: string)
    ensures GetUserData(SetUserData(s, firstName, lastName, email, password))
      == (Some(UserData(firstName, lastName, email, password)), true)
    ensures GetUserData(ClearUserData(s)) == (None, false)
    ensures ClearUserData(SetUserData(s, firstName, lastName, email, password)) == EmptySlot
  {
  }

  /** The Go `Command` struct; absent optional fields hold Go's zero values. */
  datatype Command = Command(
    id: string, kind: string, description: string, selector: string, index: Option<int>,
    text: string, value: string, name: string, elementType: string,
    delay: int, duration: int, url: string, condition: string, message: string)

  function ClickCommand(id: string, description: string, text: string, elementType: string, delay: int): Command {
    Command(id, "click", description, "", None, text, "", "", elementType, delay, 0, "", "", "")
  }

  function WaitCommand(id: string, description: string, duration: int): Command {
    Command(id, "wait", description, "", None, "", "", "", "", 0, duration, "", "", "")
  }

  function TypeCommand(id: string, description: string, name: string, value: string): Command {
    Command(id, "type", description, "", None, "", value, name, "", 0, 0, "", "", "")
  }

  function CompleteCommand(id: string, description: string, message: string): Command {
    Command(id, "complete", description, "", None, "", "", "", "", 0, 0, "", "", message)
  }

  /**
   * `generateCommandSequence`. The authenticator sequence reads the stored
   * user data through a pointer that may be nil; that dereference panics,
   * which is `None` here.
   */
  function CommandSequence(pageType: string, userData: Option<UserData>): Option<seq<Command>> {
    if pageType == "main" then Some([
      ClickCommand("main_01", "Sign in 버튼 클릭", "Sign in", "link", 2000),
      WaitCommand("main_02", "페이지 전환 대기", 3000)])
    else if pageType == "dashboard" then Some([
      WaitCommand("dashboard_01", "리다이렉트 대기", 5000)])
    else if pageType == "authenticator" then
      match userData
      case None => None
      case Some(u) => Some([
        ClickCommand("auth_01", "Sign up 링크 클릭", "Sign up", "link", 2000),
        WaitCommand("auth_02", "회원가입 페이지 로딩 대기", 3000),
        TypeCommand("auth_03", "이름 입력", "first_name", u.firstName),
        TypeCommand("auth_04", "성 입력", "last_name", u.lastName),
        TypeCommand("auth_05", "이메일 입력", "email", u.email),
        ClickCommand("auth_06", "첫 번째 Continue 버튼 클릭", "Continue", "button", 1500),
        WaitCommand("auth_07", "비밀번호 필드 대기", 2000),
        TypeCommand("auth_08", "비밀번호 입력", "password", u.password),
        ClickCommand("auth_09", "두 번째 Continue 버튼 클릭", "Continue", "button", 1500),
        CompleteCommand("auth_10", "회원가입 완료", "성공적으로 회원가입이 완료되었습니다!")])
    else Some([
      WaitCommand("unknown_01", "알 수 없는 페이지 대기", 2000)])
  }

  /**
   * The shape of every sequence: "main" has two commands, "dashboard" one,
   * an unrecognised page type a single wait; "authenticator" needs user data
   * and then has ten commands ending in "complete", whose four type commands
   * carry the stored first name, last name, email and password.
   */
  lemma CommandSequenceShape(pageType: string, userData: Option<UserData>)
    ensures CommandSequence(pageType, userData).None? <==> pageType == "authenticator" && userData.None?
    ensures pageType == "main" ==> |CommandSequence(pageType, userData).value| == 2
    ensures pageType == "dashboard" ==> |CommandSequence(pageType, userData).value| == 1
    ensures pageType !in {"main", "dashboard", "authenticator"} ==>
      var cs := CommandSequence(pageType, userData).value;
      |cs| == 1 && cs[0].kind == "wait"
    ensures pageType == "authenticator" && userData.Some? ==>
      var cs := CommandSequence(pageType, userData).value;
      var u := userData.value;
      && |cs| == 10 && cs[9].kind == "complete"
      && (forall k :: 0 <= k < 9 ==> cs[k].kind != "complete")
      && [cs[2].value, cs[3].value, cs[4].value, cs[7].value] == [u.firstName, u.lastName, u.email, u.password]
      && (forall k :: 0 <= k < 10 && cs[k].kind == "type" ==> k in {2, 3, 4, 7})
  {
  }

  /** The decoded `PageState` body of `/report-state` (the element inventory is not modelled). */
  datatype PageState = PageState(
    sessionId: string, url: string, hostname: string, pathname: string, pageType: string,
    timestamp: int, isProcessing: bool, currentStep: string)

  /** The decoded body of `/report-result` (the echoed command and result map are not modelled). */
  datatype CommandResult = CommandResult(sessionId: string, commandId: string, success: bool, error: string, timestamp: int, url: string)

  /** `Status`: "active" or "error"; nothing else is ever assigned. */
  datatype SessionStatus = Active | Errored

  datatype Session = Session(
    sessionId: string, currentStep: nat, currentPage: string, pageState: Option<PageState>,
    commands: seq<Command>, results: seq<CommandResult>, lastActivity: int, status: SessionStatus)

  datatype State = State(slot: Slot, sessions: map<string, Session>)

  /** The cursor never passes the end of its session's command list. */
  ghost predicate Valid(st: State) {
    st.slot.Consistent() && forall id :: id in st.sessions ==> st.sessions[id].currentStep <= |st.sessions[id].commands|
  }

  const InitialState := State(EmptySlot, map[])

  /** What the client receives; `Aborted` is a handler that panicked (net/http drops the connection). */
  datatype Response =
    | Reply(status: int, body: Body)
    | Aborted

  datatype Body =
    | NoBody
    | ErrorText(message: string)
    | StatusOk
    | UserDataBody(data: UserData)
    | Cleared
    | GeneratedEmail(data: UserData)
    | Received(sessionId: string)
    | NextCommand(command: Command)
    | WaitForNext(message: string)

  /** A request as the mux sees it: the method and the route with its decoded body. */
  datatype Request = Request(verb: string, route: Route)

  datatype Route =
    | StatusRoute
    | GetUserDataRoute
    | ClearUserDataRoute
    | GenerateEmailRoute(outcome: Result<UserData, string>)  // CreateTMTemporaryEmail plus the generated names and password
    | ReportStateRoute(pageState: Option<PageState>)
    | GetNextCommandRoute(sessionId: Option<string>)         // the session id of the decoded request
    | ReportResultRoute(result: Option<CommandResult>)
    | UnknownRoute

  /** The method each route accepts. */
  function AllowedMethod(r: Route): string {
    match r
    case StatusRoute => "GET"
    case GetUserDataRoute => "GET"
    case _ => "POST"
  }

  /** The 405 text: the user-data handlers and the session handlers word it differently. */
  function MethodErrorText(r: Route): string {
    match r
    case ReportStateRoute(_) => "POST method required"
    case GetNextCommandRoute(_) => "POST method required"
    case ReportResultRoute(_) => "POST method required"
    case _ => "Method not allowed"
  }

  function HandleGetUserData(st: State): (r: Response)
    ensures r.Reply? && (r.status == 404 <==> !st.slot.ready || st.slot.userData.None?)
    ensures r.status == 200 ==> r.body == UserDataBody(st.slot.userData.value)
  {
    var (data, ready) := GetUserData(st.slot);
    if !ready || data.None? then Reply(404, ErrorText("사용자 데이터가 준비되지 않았습니다"))
    else Reply(200, UserDataBody(data.value))
  }

  function HandleGenerateEmail(st: State, outcome: Result<UserData, string>): (r: (State, Response))
    ensures outcome.Err? ==> r == (st, Reply(500, ErrorText("이메일 생성 실패")))
    ensures outcome.Ok? ==>
      r.1 == Reply(200, GeneratedEmail(outcome.value))
      && GetUserData(r.0.slot) == (Some(outcome.value), true) && r.0.sessions == st.sessions
  {
    match outcome
    case Err(_) => (st, Reply(500, ErrorText("이메일 생성 실패")))
    case Ok(u) => (st.(slot := SetUserData(st.slot, u.firstName, u.lastName, u.email, u.password)), Reply(200, GeneratedEmail(u)))
  }

  /** `handleReportState` after decoding. */
  function HandleReportState(st: State, ps: PageState, now: int): (r: (State, Response))
    ensures r.0.slot == st.slot
    ensures forall id :: id != ps.sessionId ==>
      (id in r.0.sessions <==> id in st.sessions) && (id in st.sessions ==> r.0.sessions[id] == st.sessions[id])
    ensures ps.sessionId in r.0.sessions
  {
    var id := ps.sessionId;
    if id in st.sessions then
      var s := st.sessions[id];
      var s' := s.(pageState := Some(ps), lastActivity := now, currentPage := ps.pageType);
      (st.(sessions := st.sessions[id := s']), Reply(200, Received(id)))
    else
      var created := Session(id, 0, ps.pageType, None, [], [], now, Active);
      match CommandSequence(ps.pageType, st.slot.userData)
      case None => (st.(sessions := st.sessions[id := created]), Aborted)
      case Some(cs) =>
        var s' := created.(commands := cs, pageState := Some(ps), lastActivity := now, currentPage := ps.pageType);
        (st.(sessions := st.sessions[id := s']), Reply(200, Received(id)))
  }

  /**
   * The first report for a session creates it at step 0, active, with the
   * commands for its page type; a later report changes only the page state,
   * the current page and the activity time. An authenticator report without
   * user data leaves a session with no commands and drops the connection.
   */
  lemma ReportStateEffect(st: State, ps: PageState, now: int)
    ensures var (st', resp) := HandleReportState(st, ps, now);
      var id := ps.sessionId;
      var s' := st'.sessions[id];
      && (id !in st.sessions && CommandSequence(ps.pageType, st.slot.userData).Some? ==>
            s'.currentStep == 0 && s'.status == Active && s'.results == []
            && s'.commands == CommandSequence(ps.pageType, st.slot.userData).value
            && s'.pageState == Some(ps) && resp == Reply(200, Received(id)))
      && (id !in st.sessions && CommandSequence(ps.pageType, st.slot.userData).None? ==>
            s'.commands == [] && s'.currentStep == 0 && s'.pageState.None? && resp.Aborted?)
      && (id in st.sessions ==>
            var s := st.sessions[id];
            s' == s.(pageState := Some(ps), currentPage := ps.pageType, lastActivity := now)
            && s'.commands == s.commands && s'.currentStep == s.currentStep
            && s'.results == s.results && s'.status == s.status)
  {
  }

  /** `handleGetNextCommand` after decoding. */
  function HandleGetNextCommand(st: State, id: string): (r: (State, Response))
    ensures r.0.slot == st.slot && r.0.sessions.Keys == st.sessions.Keys
    ensures id !in st.sessions ==> r == (st, Reply(200, WaitForNext("세션을 찾을 수 없습니다")))
    ensures id in st.sessions ==>
      var s := st.sessions[id];
      if s.currentStep < |s.commands| then
        r.1 == Reply(200, NextCommand(s.commands[s.currentStep]))
        && r.0.sessions == st.sessions[id := s.(currentStep := s.currentStep + 1)]
      else r == (st, Reply(200, WaitForNext("모든 명령이 완료되었습니다")))
  {
    if id !in st.sessions then (st, Reply(200, WaitForNext("세션을 찾을 수 없습니다")))
    else
      var s := st.sessions[id];
      if s.currentStep < |s.commands| then
        (st.(sessions := st.sessions[id := s.(currentStep := s.currentStep + 1)]), Reply(200, NextCommand(s.commands[s.currentStep])))
      else (st, Reply(200, WaitForNext("모든 명령이 완료되었습니다")))
  }

  /** `n` successive `/get-next-command` calls for one session. */
  function Poll(st: State, id: string, n: nat): (r: (State, seq<Response>))
    ensures |r.1| == n
    decreases n
  {
    if n == 0 then (st, [])
    else
      var (st1, resp) := HandleGetNextCommand(st, id);
      var (st2, rest) := Poll(st1, id, n - 1);
      (st2, [resp] + rest)
  }

  /**
   * Polling hands out the session's commands in order, each exactly once,
   * starting at its cursor; once they are exhausted every answer is
   * "wait_for_next", and the cursor stops at the end of the list.
   */
  lemma {:induction false} PollHandsOutInOrder(st: State, id: string, n: nat)
    requires id in st.sessions && st.sessions[id].currentStep <= |st.sessions[id].commands|
    ensures var s := st.sessions[id];
      var (st', resps) := Poll(st, id, n);
      var handed := if s.currentStep + n <= |s.commands| then n else |s.commands| - s.currentStep;
      && id in st'.sessions
      && st'.sessions[id] == s.(currentStep := s.currentStep + handed)
      && (forall k :: 0 <= k < handed ==> resps[k] == Reply(200, NextCommand(s.commands[s.currentStep + k])))
      && (forall k :: handed <= k < n ==> resps[k] == Reply(200, WaitForNext("모든 명령이 완료되었습니다")))
    decreases n
  {
    if n > 0 {
      var s := st.sessions[id];
      var (st1, resp) := HandleGetNextCommand(st, id);
      PollHandsOutInOrder(st1, id, n - 1);
      var (st2, rest) := Poll(st1, id, n - 1);
      assert Poll(st, id, n) == (st2, [resp] + rest);
    }
  }

  /** `handleReportResult` after decoding. */
  function HandleReportResult(st: State, res: CommandResult, now: int): (r: (State, Response))
    ensures res.sessionId !in st.sessions ==> r == (st, Reply(404, ErrorText("Session not found")))
    ensures res.sessionId in st.sessions ==> res.sessionId in r.0.sessions
    ensures res.sessionId in st.sessions ==>
      var s := st.sessions[res.sessionId];
      var s' := r.0.sessions[res.sessionId];
      && r.0.sessions == st.sessions[res.sessionId := s'] && r.0.slot == st.slot
      && s'.results == s.results + [res]
      && s'.status == (if res.success then s.status else Errored)
      && s'.commands == s.commands && s'.currentStep == s.currentStep
      && s'.sessionId == s.sessionId && s'.currentPage == s.currentPage && s'.pageState == s.pageState
      && s'.lastActivity == now
      && r.1 == Reply(200, Received(res.sessionId))
  {
    var id := res.sessionId;
    if id !in st.sessions then (st, Reply(404, ErrorText("Session not found")))
    else
      var s := st.sessions[id];
      var s' := s.(results := s.results + [res], lastActivity := now, status := if res.success then s.status else Errored);
      (st.(sessions := st.sessions[id := s']), Reply(200, Received(id)))
  }

  /** The CORS wrapper, the mux and the handlers' method guards. */
  function Serve(st: State, req: Request, now: int): (r: (State, Response))
    ensures req.verb == "OPTIONS" ==> r == (st, Reply(200, NoBody))
  {
    if req.verb == "OPTIONS" then (st, Reply(200, NoBody))
    else if req.route.UnknownRoute? then (st, Reply(404, ErrorText("404 page not found")))
    else if req.verb != AllowedMethod(req.route) then (st, Reply(405, ErrorText(MethodErrorText(req.route))))
    else match req.route
      case StatusRoute => (st, Reply(200, StatusOk))
      case GetUserDataRoute => (st, HandleGetUserData(st))
      case ClearUserDataRoute => (st.(slot := ClearUserData(st.slot)), Reply(200, Cleared))
      case GenerateEmailRoute(outcome) => HandleGenerateEmail(st, outcome)
      case ReportStateRoute(body) =>
        if body.None? then (st, Reply(400, ErrorText("Invalid JSON"))) else HandleReportState(st, body.value, now)
      case GetNextCommandRoute(body) =>
        if body.None? then (st, Reply(400, ErrorText("Invalid JSON"))) else HandleGetNextCommand(st, body.value)
      case ReportResultRoute(body) =>
        if body.None? then (st, Reply(400, ErrorText("Invalid JSON"))) else HandleReportResult(st, body.value, now)
  }

  /** Every handler rejects a wrong method with 405 before touching the state; OPTIONS is answered first. */
  lemma WrongMethodRejected(st: State, req: Request, now: int)
    requires !req.route.UnknownRoute? && req.verb != "OPTIONS" && req.verb != AllowedMethod(req.route)
    ensures Serve(st, req, now) == (st, Reply(405, ErrorText(MethodErrorText(req.route))))
  {
  }

  /** A body that does not decode is answered 400 and changes nothing. */
  lemma InvalidJsonRejected(st: State, req: Request, now: int)
    requires req.verb == "POST"
    requires (req.route.ReportStateRoute? && req.route.pageState.None?)
      || (req.route.GetNextCommandRoute? && req.route.sessionId.None?)
      || (req.route.ReportResultRoute? && req.route.result.None?)
    ensures Serve(st, req, now) == (st, Reply(400, ErrorText("Invalid JSON")))
  {
  }

  /** Every request keeps the slot consistent and every cursor within its command list. */
  lemma ServePreservesValid(st: State, req: Request, now: int)
    requires Valid(st)
    ensures Valid(Serve(st, req, now).0)
  {
    var st' := Serve(st, req, now).0;
    forall id | id in st'.sessions ensures st'.sessions[id].currentStep <= |st'.sessions[id].commands| {
      if id in st.sessions {
        assert st.sessions[id].currentStep <= |st.sessions[id].commands|;
      }
    }
  }
}
