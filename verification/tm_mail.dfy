/**
 * The decision logic of the Mail.tm client (tm_mail.go): output truncation,
 * tag stripping, the verification-code pattern chain, domain selection, the
 * account-creation retry schedule, and the login-token guards. HTTP requests
 * and their JSON bodies are replaced by their outcomes, passed in.
 */
module TmMail {
  import opened Wrappers
  import opened Text
  import opened Runs

  newtype byte = b: int | 0 <= b < 256

  /** `"..."` as bytes. */
  const Ellipsis: seq<byte> := [46, 46, 46]

  /**
   * `truncateString`: Go measures and slices the string in bytes. A negative
   * `maxLen` on a string longer than it would make the slice panic: `None`.
   */
  function TruncateString(s: seq<byte>, maxLen: int): (r: Option<seq<byte>>)
    ensures |s| <= maxLen ==> r == Some(s)
    ensures maxLen < 0 <= |s| && |s| > maxLen ==> r.None?
    ensures 0 <= maxLen < |s| ==>
      r.Some? && |r.value| == maxLen + 3 && r.value[..maxLen] == s[..maxLen] && r.value[maxLen..] == Ellipsis
  {
    if |s| <= maxLen then Some(s)
    else if maxLen < 0 then None
    else Some(s[..maxLen] + Ellipsis)
  }

  /** Truncating twice with the same bound is truncating once: the ellipsis lands in the same place. */
  lemma TruncateIdempotent(s: seq<byte>, maxLen: nat)
    ensures TruncateString(TruncateString(s, maxLen).value, maxLen) == TruncateString(s, maxLen)
  {
    if |s| > maxLen {
      var r := TruncateString(s, maxLen).value;
      assert r[..maxLen] == s[..maxLen];
    }
  }

  /** Some '>' occurs in `s` at index `from` or later. */
  predicate HasCloseFrom(s: string, from: nat) {
    exists j :: from <= j < |s| && s[j] == '>'
  }

  /** Index of the first '>' at or after `from`. */
  function FirstClose(s: string, from: nat): (j: nat)
    requires HasCloseFrom(s, from)
    ensures from <= j < |s| && s[j] == '>'
    ensures forall k :: from <= k < j ==> s[k] != '>'
    decreases |s| - from
  {
    if s[from] == '>' then from else FirstClose(s, from + 1)
  }

  /**
   * `stripHTMLTags`: `ReplaceAllString` of `<[^>]*>` with "". Scanning left
   * to right, a '<' that has a '>' somewhere after it starts a match that
   * ends at the first such '>'; every other character is kept.
   */
  function StripHtmlTags(s: string): (r: string)
    ensures |r| <= |s|
    ensures multiset(r) <= multiset(s)
    decreases |s|
  {
    if s == [] then []
    else if s[0] == '<' && HasCloseFrom(s, 1) then
      var j := FirstClose(s, 1);
      var rest := StripHtmlTags(s[j + 1..]);
      assert s == s[..j + 1] + s[j + 1..];
      rest
    else
      var rest := StripHtmlTags(s[1..]);
      assert s == [s[0]] + s[1..];
      [s[0]] + rest
  }

  /** Text with no '<' in it is kept as it is, whatever follows. */
  lemma {:induction false} StripPlainPrefix(a: string, x: string)
    requires '<' !in a
    ensures StripHtmlTags(a + x) == a + StripHtmlTags(x)
    decreases |a|
  {
    if a == [] {
      assert a + x == x;
    } else {
      assert (a + x)[0] == a[0];
      assert (a + x)[1..] == a[1..] + x;
      StripPlainPrefix(a[1..], x);
      assert a == [a[0]] + a[1..];
    }
  }

  /** A tag at the very front is removed up to its first '>'. */
  lemma StripTagAtFront(t: string, b: string)
    requires '>' !in t
    ensures StripHtmlTags(['<'] + t + ['>'] + b) == StripHtmlTags(b)
  {
    var tag := ['<'] + t + ['>'] + b;
    assert tag[|t| + 1] == '>';
    assert FirstClose(tag, 1) == |t| + 1 by {
      forall k | 1 <= k < |t| + 1 ensures tag[k] != '>' {
        assert tag[k] == t[k - 1];
      }
    }
    assert tag[|t| + 2..] == b;
  }

  /** A whole tag, '<' then no '>' then '>', is removed, together with nothing before it that holds no '<'. */
  lemma StripWholeTag(a: string, t: string, b: string)
    requires '<' !in a && '>' !in t
    ensures StripHtmlTags(a + ['<'] + t + ['>'] + b) == a + StripHtmlTags(b)
  {
    var tag := ['<'] + t + ['>'] + b;
    assert a + ['<'] + t + ['>'] + b == a + tag;
    assert StripHtmlTags(a + tag) == a + StripHtmlTags(tag) by {
      StripPlainPrefix(a, tag);
    }
    assert StripHtmlTags(tag) == StripHtmlTags(b) by {
      StripTagAtFront(t, b);
    }
  }

  /** No '<' in `s` has a '>' somewhere after it: nothing in `s` looks like a tag. */
  predicate TagFree(s: string) {
    forall i, j :: 0 <= i < j < |s| && s[i] == '<' ==> s[j] != '>'
  }

  /** The output of `stripHTMLTags` is tag-free. */
  lemma {:induction false} StripLeavesNoTag(s: string)
    ensures TagFree(StripHtmlTags(s))
    decreases |s|
  {
    if s == [] {
    } else if s[0] == '<' && HasCloseFrom(s, 1) {
      StripLeavesNoTag(s[FirstClose(s, 1) + 1..]);
    } else {
      var rest := StripHtmlTags(s[1..]);
      StripLeavesNoTag(s[1..]);
      assert StripHtmlTags(s) == [s[0]] + rest;
      if s[0] == '<' {
        forall j | 0 <= j < |rest| ensures rest[j] != '>' {
          assert rest[j] in multiset(rest);
          assert rest[j] in multiset(s[1..]);
          var m :| 0 <= m < |s[1..]| && s[1..][m] == rest[j];
          assert !HasCloseFrom(s, 1);
          assert s[1 + m] == rest[j];
        }
      }
      ConsTagFree(s[0], rest);
    }
  }

  /** A character put in front of a tag-free string keeps it tag-free unless it opens a tag. */
  lemma ConsTagFree(c: char, rest: string)
    requires TagFree(rest)
    requires c == '<' ==> forall j :: 0 <= j < |rest| ==> rest[j] != '>'
    ensures TagFree([c] + rest)
  {
    var r := [c] + rest;
    forall i, j | 0 <= i < j < |r| && r[i] == '<' ensures r[j] != '>' {
      assert r[j] == rest[j - 1];
      if i > 0 {
        assert r[i] == rest[i - 1];
      }
    }
  }

  /** A tag-free string passes through `stripHTMLTags` unchanged. */
  lemma {:induction false} StripKeepsTagFree(s: string)
    requires TagFree(s)
    ensures StripHtmlTags(s) == s
    decreases |s|
  {
    if s != [] {
      if s[0] == '<' {
        assert !HasCloseFrom(s, 1);
      }
      assert TagFree(s[1..]) by {
        forall i, j | 0 <= i < j < |s[1..]| && s[1..][i] == '<' ensures s[1..][j] != '>' {
          assert s[i + 1] == '<';
        }
      }
      StripKeepsTagFree(s[1..]);
      assert s == [s[0]] + s[1..];
    }
  }

  /** Stripping tags twice is stripping them once. */
  lemma StripIdempotent(s: string)
    ensures StripHtmlTags(StripHtmlTags(s)) == StripHtmlTags(s)
  {
    StripLeavesNoTag(s);
    StripKeepsTagFree(StripHtmlTags(s));
  }

  /** Go's `strings.Join(parts, sep)`. */
  function Join(parts: seq<string>, sep: string): (r: string)
    ensures parts == [] ==> r == ""
    ensures |parts| == 1 ==> r == parts[0]
  {
    if parts == [] then ""
    else if |parts| == 1 then parts[0]
    else parts[0] + sep + Join(parts[1..], sep)
  }

  /** The parts of a Mail.tm message the extractor reads. */
  datatype Message = Message(id: string, subject: string, text: string, html: seq<string>)

  /** The one string every pattern is run on: the HTML parts joined by spaces, the text, then the subject. */
  function SearchContent(m: Message): (c: string)
    ensures |c| == |Join(m.html, " ")| + |m.text| + |m.subject| + 2
    ensures c[..|Join(m.html, " ")|] == Join(m.html, " ")
    ensures c[|Join(m.html, " ")|..|c| - |m.subject|] == " " + m.text + " "
    ensures c[|c| - |m.subject|..] == m.subject
  {
    Join(m.html, " ") + " " + m.text + " " + m.subject
  }

  const PatternCount: nat := 11

  /** Pattern 4, `(?i)\b(\d{6})\b`: `\d` and `\b` stay ASCII under case folding. */
  const SixDigitPattern := BoundedRun(Digits, 6, 6)

  /** Capture of abstract pattern `i` on a content string, as the regex engine reports it. */
  type Oracle = (nat, string) -> Option<string>

  /** A code of the shape every pattern captures: `(\d{6})`, six ASCII digits. */
  predicate SixDigits(c: string) {
    |c| == 6 && AllDigits(c)
  }

  /** The oracle returns captures of the group shape `(\d{6})` on this content. */
  predicate OracleRespectsGroups(oracle: Oracle, content: string) {
    forall i :: 0 <= i < PatternCount && i != 4 && oracle(i, content).Some? ==> SixDigits(oracle(i, content).value)
  }

  function Capture(i: nat, content: string, oracle: Oracle): Option<string>
    requires i < PatternCount
  {
    if i == 4 then FindFirst(content, SixDigitPattern) else oracle(i, content)
  }

  function CaptureList(content: string, oracle: Oracle): (r: seq<Option<string>>)
    ensures |r| == PatternCount
    ensures forall i :: 0 <= i < PatternCount ==> r[i] == Capture(i, content, oracle)
  {
    seq(PatternCount, i requires 0 <= i < PatternCount => Capture(i, content, oracle))
  }

  datatype TmError =
    | NoDomains             // the domain list is empty
    | NoPublicDomain        // no active public domain with a name
    | AccountFailed(cause: string)  // all three creation attempts failed; the last error
    | LoginFailed           // the token request failed or did not parse
    | LoginRequired         // the client has no token
    | RequestFailed         // the request itself, its status or its body failed
    | CodeNotFound          // no pattern matched

  /** `ExtractVerificationCode`: the capture of the first pattern that matches the search content. */
  function ExtractVerificationCode(m: Message, oracle: Oracle): Result<string, TmError> {
    match FirstSome(CaptureList(SearchContent(m), oracle))
    case Some(code) => Ok(code)
    case None => Err(CodeNotFound)
  }

  /**
   * Patterns are tried in list order on the whole search content: the code
   * is the capture of the first pattern that matches, and the result is an
   * error exactly when none does.
   */
  lemma ExtractIsFirstMatch(m: Message, oracle: Oracle)
    ensures var c := SearchContent(m);
      var r := ExtractVerificationCode(m, oracle);
      && (r.Err? <==> forall k :: 0 <= k < PatternCount ==> Capture(k, c, oracle).None?)
      && (r.Ok? ==> exists k :: 0 <= k < PatternCount && Capture(k, c, oracle) == Some(r.value)
                      && forall j :: 0 <= j < k ==> Capture(j, c, oracle).None?)
  {
    var c := SearchContent(m);
    var xs := CaptureList(c, oracle);
    if FirstSome(xs).None? {
      forall k | 0 <= k < PatternCount ensures Capture(k, c, oracle).None? {
        assert xs[k].None?;
      }
    } else {
      var k :| 0 <= k < |xs| && xs[k] == FirstSome(xs) && forall j :: 0 <= j < k ==> xs[j].None?;
      assert Capture(k, c, oracle) == xs[k];
      forall j | 0 <= j < k ensures Capture(j, c, oracle).None? {
        assert xs[j].None?;
      }
    }
  }

  /** Every code returned is exactly six ASCII digits. */
  lemma CodesAreSixDigits(m: Message, oracle: Oracle)
    requires OracleRespectsGroups(oracle, SearchContent(m))
    ensures ExtractVerificationCode(m, oracle).Ok? ==> SixDigits(ExtractVerificationCode(m, oracle).value)
  {
    var c := SearchContent(m);
    ExtractIsFirstMatch(m, oracle);
    FindFirstShape(c, SixDigitPattern);
  }

  /** A Mail.tm domain record. */
  datatype Domain = Domain(id: string, name: string, isActive: bool, isPrivate: bool)

  predicate IsPublic(d: Domain) {
    d.isActive && !d.isPrivate
  }

  /** Index of the first active public domain, if any. */
  function FirstPublic(domains: seq<Domain>): (r: Option<nat>)
    ensures r.Some? ==>
      r.value < |domains| && IsPublic(domains[r.value]) && forall k :: 0 <= k < r.value ==> !IsPublic(domains[k])
    ensures r.None? ==> forall k :: 0 <= k < |domains| ==> !IsPublic(domains[k])
  {
    if domains == [] then None
    else if IsPublic(domains[0]) then Some(0)
    else match FirstPublic(domains[1..])
      case Some(k) => Some(k + 1)
      case None => None
  }

  /**
   * The domain choice of `CreateTMTemporaryEmail`: the first domain that is
   * active and not private. Go reads an empty name as "none selected", so a
   * first public domain without a name is also an error.
   */
  function SelectDomain(domains: seq<Domain>): (r: Result<string, TmError>)
    ensures r == Err(NoDomains) <==> domains == []
    ensures r.Ok? ==> r.value != ""
    ensures r.Ok? ==>
      exists k :: 0 <= k < |domains| && IsPublic(domains[k]) && domains[k].name == r.value
        && forall j :: 0 <= j < k ==> !IsPublic(domains[j])
    ensures r.Err? && domains != [] ==> r == Err(NoPublicDomain)
  {
    if domains == [] then Err(NoDomains)
    else match FirstPublic(domains)
      case Some(k) => if domains[k].name == "" then Err(NoPublicDomain) else Ok(domains[k].name)
      case None => Err(NoPublicDomain)
  }

  /** A non-empty list yields a domain exactly when its first public domain has a name. */
  lemma SelectDomainSucceeds(domains: seq<Domain>)
    ensures SelectDomain(domains).Ok? <==>
      exists k :: 0 <= k < |domains| && IsPublic(domains[k]) && domains[k].name != ""
        && forall j :: 0 <= j < k ==> !IsPublic(domains[j])
  {
    if exists k :: 0 <= k < |domains| && IsPublic(domains[k]) && domains[k].name != ""
        && forall j :: 0 <= j < k ==> !IsPublic(domains[j]) {
      var k :| 0 <= k < |domains| && IsPublic(domains[k]) && domains[k].name != ""
        && forall j :: 0 <= j < k ==> !IsPublic(domains[j]);
      var f := FirstPublic(domains);
      assert f.Some?;
      assert f.value == k by {
        if f.value < k {} else if f.value > k {}
      }
    }
  }

  /** The account Mail.tm answers with. */
  datatype Account = Account(id: string, address: string)

  /** How the server answers creation attempt `n` (1-based) for an address. */
  type Responder = (nat, string) -> Result<Account, string>

  const MaxAttempts: nat := 3

  /**
   * The creation loop: attempt `n` uses `usernames[n - 1]` (the first name,
   * then one regenerated after each failure). Returns the outcome, the
   * addresses tried, and the waits in seconds between attempts.
   */
  method CreateWithRetry(usernames: seq<string>, domain: string, respond: Responder)
    returns (account: Result<Account, string>, tried: seq<string>, waits: seq<nat>)
    requires |usernames| == MaxAttempts
    ensures 1 <= |tried| <= MaxAttempts
    ensures forall k :: 0 <= k < |tried| ==> tried[k] == usernames[k] + "@" + domain
    ensures forall k :: 0 <= k < |tried| - 1 ==> respond(k + 1, tried[k]).Err?
    ensures account == respond(|tried|, tried[|tried| - 1])
    ensures account.Err? ==> |tried| == MaxAttempts
    ensures |waits| == if account.Ok? then |tried| - 1 else MaxAttempts - 1
    ensures forall k :: 0 <= k < |waits| ==> waits[k] == 10 * (k + 1)
  {
    tried := [];
    waits := [];
    var attempt := 1;
    account := Err("");
    while attempt <= MaxAttempts
      invariant 1 <= attempt <= MaxAttempts + 1
      invariant |tried| == attempt - 1
      invariant forall k :: 0 <= k < |tried| ==> tried[k] == usernames[k] + "@" + domain
      invariant forall k :: 0 <= k < |tried| ==> respond(k + 1, tried[k]).Err?
      invariant |tried| > 0 ==> account == respond(|tried|, tried[|tried| - 1])
      invariant |waits| == if attempt <= MaxAttempts then attempt - 1 else MaxAttempts - 1
      invariant forall k :: 0 <= k < |waits| ==> waits[k] == 10 * (k + 1)
    {
      var address := usernames[attempt - 1] + "@" + domain;
      tried := tried + [address];
      account := respond(attempt, address);
      if account.Ok? {
        return;
      }
      if attempt < MaxAttempts {
        waits := waits + [attempt * 10];
      }
      attempt := attempt + 1;
    }
  }

  /** The client state the guards read: the bearer token. */
  datatype Client = Client(token: string)

  /** The outcome of the `/token` request: the HTTP status and, when the body parses, the token it carries. */
  datatype TokenResponse = TokenResponse(status: int, token: Option<string>)

  /** `Login`: the token is stored only after a 200 response whose body parses. */
  function Login(c: Client, response: Option<TokenResponse>): (r: (Client, Result<(), TmError>))
    ensures r.1.Ok? <==> response.Some? && response.value.status == 200 && response.value.token.Some?
    ensures r.1.Ok? ==> r.0 == Client(response.value.token.value)
    ensures r.1.Err? ==> r.0 == c
  {
    match response
    case None => (c, Err(LoginFailed))
    case Some(resp) =>
      if resp.status != 200 then (c, Err(LoginFailed))
      else match resp.token
        case None => (c, Err(LoginFailed))
        case Some(t) => (Client(t), Ok(()))
  }

  /**
   * `GetMessages`/`GetMessage` share the guard: without a token they fail
   * before any request; otherwise the request is made and its outcome
   * (`response`, `None` for a failed request) is the result.
   */
  function AuthenticatedRequest<T>(c: Client, response: Option<T>): (r: (bool, Result<T, TmError>))
    ensures c.token == "" ==> r == (false, Err(LoginRequired))
    ensures c.token != "" ==> r.0 && (r.1.Ok? <==> response.Some?)
    ensures r.1.Ok? ==> r.1.value == response.value
  {
    if c.token == "" then (false, Err(LoginRequired))
    else match response
      case Some(v) => (true, Ok(v))
      case None => (true, Err(RequestFailed))
  }

  /** The outcome of `CreateTMTemporaryEmail` with every request's answer given. */
  datatype Created = Created(client: Client, account: Account)

  /**
   * `CreateTMTemporaryEmail`: select a domain, create the account with up to
   * three attempts, then log in with the address the server returned.
   */
  method CreateTemporaryEmail(domains: Result<seq<Domain>, string>, usernames: seq<string>,
                              respond: Responder, login: Option<TokenResponse>)
    returns (r: Result<Created, TmError>, tried: seq<string>)
    requires |usernames| == MaxAttempts
    ensures domains.Err? ==> r == Err(RequestFailed) && tried == []
    ensures domains.Ok? && SelectDomain(domains.value).Err? ==> r == Err(SelectDomain(domains.value).error) && tried == []
    ensures domains.Ok? && SelectDomain(domains.value).Ok? ==>
      && 1 <= |tried| <= MaxAttempts
      && (forall k :: 0 <= k < |tried| ==> tried[k] == usernames[k] + "@" + SelectDomain(domains.value).value)
      && (forall k :: 0 <= k < |tried| - 1 ==> respond(k + 1, tried[k]).Err?)
      && (respond(|tried|, tried[|tried| - 1]).Err? ==>
            |tried| == MaxAttempts && r == Err(AccountFailed(respond(|tried|, tried[|tried| - 1]).error)))
      && (r.Ok? <==> respond(|tried|, tried[|tried| - 1]).Ok? && Login(Client(""), login).1.Ok?)
      && (r.Ok? ==> r.value == Created(Login(Client(""), login).0, respond(|tried|, tried[|tried| - 1]).value))
  {
    tried := [];
    match domains
    case Err(e) =>
      return Err(RequestFailed), [];
    case Ok(ds) =>
      var selected := SelectDomain(ds);
      if selected.Err? {
        return Err(selected.error), [];
      }
      var account, waits;
      account, tried, waits := CreateWithRetry(usernames, selected.value, respond);
      if account.Err? {
        return Err(AccountFailed(account.error)), tried;
      }
      var (client, loggedIn) := Login(Client(""), login);
      if loggedIn.Err? {
        return Err(LoginFailed), tried;
      }
      return Ok(Created(client, account.value)), tried;
  }
}
