/**
 * The string handling of the Mohmal client (mohmal.go): reading the address
 * off the landing page, the inbox URL, the subject list, and the
 * verification-code pattern chain. The pages themselves are inputs.
 */
module Mohmal {
  import opened Wrappers
  import opened Text
  import opened Runs

  const Domain: string := "mohmal.com"
  const AddressSuffix: string := "@mohmal.com"
  const BaseUrl: string := "https://www.mohmal.com"
  const InboxPath: string := "/ko/inbox/"

  /** `([a-zA-Z0-9]+)@mohmal\.com` matches at `i` with a `k`-character capture. */
  predicate AddressAt(s: string, i: int, k: int) {
    && 0 <= i && 1 <= k && i + k <= |s|
    && (forall j :: i <= j < i + k ==> InClass(Alnum, s[j]))
    && OccursAt(s, AddressSuffix, i + k)
  }

  /** A match at `i` captures the whole letter-and-digit run there: '@' ends the run. */
  lemma AddressIsMaximalRun(s: string, i: nat, k: int)
    requires i <= |s|
    ensures AddressAt(s, i, k) ==> k == RunLength(s, Alnum, i)
  {
    if AddressAt(s, i, k) {
      assert s[i + k] == '@' by {
        assert s[i + k..i + k + |AddressSuffix|] == AddressSuffix;
      }
    }
  }

  /** Some address match starts at `i`. */
  ghost predicate AddressStartsAt(s: string, i: int) {
    exists k :: AddressAt(s, i, k)
  }

  /** `u` is the capture of an address at `i`, and no address starts in `from..i`. */
  ghost predicate LeftmostAddress(s: string, from: int, i: int, u: string) {
    && from <= i <= |s| && AddressAt(s, i, |u|) && s[i..i + |u|] == u
    && forall i' :: from <= i' < i ==> !AddressStartsAt(s, i')
  }

  /** The username of the leftmost address at or after `from`. */
  function FindAddressFrom(s: string, from: nat): (r: Option<string>)
    requires from <= |s|
    ensures r.Some? ==> exists i :: LeftmostAddress(s, from, i, r.value)
    ensures r.None? ==> forall i, k :: from <= i <= |s| ==> !AddressAt(s, i, k)
    decreases |s| - from
  {
    var m := RunLength(s, Alnum, from);
    AddressAtFrom(s, from);
    if m >= 1 && OccursAt(s, AddressSuffix, from + m) then
      assert LeftmostAddress(s, from, from, s[from..from + m]);
      Some(s[from..from + m])
    else if from == |s| then None
    else
      var r := FindAddressFrom(s, from + 1);
      if r.Some? then LeftmostExtends(s, from, from + 1, r.value); r
      else NoAddressExtends(s, from); r
  }

  lemma LeftmostExtends(s: string, from: nat, next: nat, u: string)
    requires next == from + 1 <= |s| && !AddressStartsAt(s, from)
    requires exists i :: LeftmostAddress(s, next, i, u)
    ensures exists i :: LeftmostAddress(s, from, i, u)
  {
    var i :| LeftmostAddress(s, next, i, u);
    assert LeftmostAddress(s, from, i, u);
  }

  lemma NoAddressExtends(s: string, from: nat)
    requires from < |s| && !AddressStartsAt(s, from)
    requires forall i, k :: from + 1 <= i <= |s| ==> !AddressAt(s, i, k)
    ensures forall i, k :: from <= i <= |s| ==> !AddressAt(s, i, k)
  {
  }

  /** An address starts at `from` exactly when the run there is non-empty and '@mohmal.com' follows it. */
  lemma AddressAtFrom(s: string, from: nat)
    requires from <= |s|
    ensures var m := RunLength(s, Alnum, from);
      && (forall k :: AddressAt(s, from, k) ==> k == m)
      && (AddressStartsAt(s, from) <==> m >= 1 && OccursAt(s, AddressSuffix, from + m))
      && (m >= 1 && OccursAt(s, AddressSuffix, from + m) ==> AddressAt(s, from, m))
  {
    var m := RunLength(s, Alnum, from);
    forall k ensures AddressAt(s, from, k) ==> k == m {
      AddressIsMaximalRun(s, from, k);
    }
    if m >= 1 && OccursAt(s, AddressSuffix, from + m) {
      assert AddressAt(s, from, m);
    }
  }

  /** The address Mohmal hands out. */
  datatype MohmalEmail = MohmalEmail(address: string, username: string, domain: string)

  datatype MohmalError = NoAddress | NoCode

  /** `CreateEmail` after the landing page has been read: the first address on it. */
  function CreateEmail(page: string): (r: Result<MohmalEmail, MohmalError>)
    ensures r.Ok? ==> r.value.address == r.value.username + AddressSuffix && r.value.domain == Domain
    ensures r.Ok? ==> r.value.username != [] && forall j :: 0 <= j < |r.value.username| ==> InClass(Alnum, r.value.username[j])
    ensures r.Ok? ==> exists i :: LeftmostAddress(page, 0, i, r.value.username)
    ensures r.Err? <==> forall i, k :: 0 <= i <= |page| ==> !AddressAt(page, i, k)
  {
    match FindAddressFrom(page, 0)
    case Some(u) => Ok(MohmalEmail(u + "@" + Domain, u, Domain))
    case None => Err(NoAddress)
  }

  /** Reading the address back: a page holding just an address built by `CreateEmail` yields the same email again. */
  lemma AddressRoundTrip(page: string)
    requires CreateEmail(page).Ok?
    ensures CreateEmail(CreateEmail(page).value.address) == CreateEmail(page)
  {
    var e := CreateEmail(page).value;
    var a := e.address;
    var u := e.username;
    assert a[..|u|] == u;
    assert RunLength(a, Alnum, 0) == |u| by {
      RunOfUsername(a, u, 0);
    }
    assert OccursAt(a, AddressSuffix, |u|);
    assert FindAddressFrom(a, 0) == Some(a[0..|u|]);
    assert a[0..|u|] == u;
  }

  /** The run starting at `i` inside a username followed by '@' ends at the '@'. */
  lemma {:induction false} RunOfUsername(a: string, u: string, i: nat)
    requires a == u + AddressSuffix && i <= |u|
    requires forall j :: 0 <= j < |u| ==> InClass(Alnum, u[j])
    ensures RunLength(a, Alnum, i) == |u| - i
    decreases |u| - i
  {
    if i < |u| {
      RunOfUsername(a, u, i + 1);
    } else {
      assert a[i] == '@';
    }
  }

  /** The inbox URL `CheckMessages` fetches. */
  function InboxUrl(username: string): (url: string)
    ensures |url| == |BaseUrl| + |InboxPath| + |username|
  {
    BaseUrl + InboxPath + username
  }

  /** The username is the part of an inbox URL after the fixed prefix. */
  lemma InboxUrlRoundTrip(username: string)
    ensures InboxUrl(username)[..|BaseUrl| + |InboxPath|] == BaseUrl + InboxPath
    ensures InboxUrl(username)[|BaseUrl| + |InboxPath|..] == username
  {
  }

  /**
   * `CheckMessages` after the inbox page has been read: `captures` are the
   * subject-cell captures in page order; each is trimmed, and the empty ones
   * are dropped.
   */
  function Subjects(captures: seq<string>): (r: seq<string>)
    ensures |r| <= |captures|
    ensures forall k :: 0 <= k < |r| ==> r[k] != "" && GoTrim(r[k]) == r[k]
  {
    if captures == [] then []
    else
      var t := GoTrim(captures[0]);
      var rest := Subjects(captures[1..]);
      if t == "" then rest
      else
        GoTrimIdempotent(captures[0]);
        var r := [t] + rest;
        assert forall k :: 0 <= k < |r| ==> r[k] != "" && GoTrim(r[k]) == r[k] by {
          forall k | 0 <= k < |r| ensures r[k] != "" && GoTrim(r[k]) == r[k] {
            if k > 0 { assert r[k] == rest[k - 1]; }
          }
        }
        r
  }

  /** One capture gives its trimmed text, unless that is empty. */
  lemma SubjectsOfOne(c: string)
    ensures Subjects([c]) == if GoTrim(c) == "" then [] else [GoTrim(c)]
  {
    assert [c][1..] == [];
  }

  /** The filter works capture by capture: the subjects of two lists one after the other are theirs, in that order. */
  lemma {:induction false} SubjectsAppend(a: seq<string>, b: seq<string>)
    ensures Subjects(a + b) == Subjects(a) + Subjects(b)
    decreases |a|
  {
    if a == [] {
      assert a + b == b;
    } else {
      assert (a + b)[0] == a[0];
      assert (a + b)[1..] == a[1..] + b;
      SubjectsAppend(a[1..], b);
    }
  }

  /** Some capture trims to `x`. */
  ghost predicate TrimsTo(captures: seq<string>, x: string) {
    exists k :: 0 <= k < |captures| && GoTrim(captures[k]) == x
  }

  lemma TrimsToSplit(captures: seq<string>, x: string)
    requires captures != []
    ensures TrimsTo(captures, x) <==> GoTrim(captures[0]) == x || TrimsTo(captures[1..], x)
  {
    if TrimsTo(captures, x) {
      var k :| 0 <= k < |captures| && GoTrim(captures[k]) == x;
      if k > 0 {
        assert captures[1..][k - 1] == captures[k];
        assert TrimsTo(captures[1..], x);
      }
    }
    if GoTrim(captures[0]) == x {
      assert TrimsTo(captures, x);
    }
    if TrimsTo(captures[1..], x) {
      var k :| 0 <= k < |captures[1..]| && GoTrim(captures[1..][k]) == x;
      assert captures[k + 1] == captures[1..][k];
      assert TrimsTo(captures, x);
    }
  }

  /** A subject is listed exactly when some capture trims to it and is not empty after trimming. */
  lemma {:induction false} SubjectsMembership(captures: seq<string>, x: string)
    ensures x in Subjects(captures) <==> x != "" && TrimsTo(captures, x)
  {
    if captures != [] {
      SubjectsMembership(captures[1..], x);
      TrimsToSplit(captures, x);
    }
  }

  /** Feeding the subject list back through the filter returns it unchanged. */
  lemma {:induction false} SubjectsIdempotent(captures: seq<string>)
    ensures Subjects(Subjects(captures)) == Subjects(captures)
  {
    if captures != [] {
      SubjectsIdempotent(captures[1..]);
      var t := GoTrim(captures[0]);
      if t != "" {
        var r := Subjects(captures);
        assert r == [t] + Subjects(captures[1..]);
        GoTrimIdempotent(captures[0]);
        assert r[1..] == Subjects(captures[1..]);
      }
    }
  }

  const PatternCount: nat := 4
  /** Pattern 2, `\b([0-9]{6})\b`. */
  const SixDigitPattern := BoundedRun(Digits, 6, 6)
  /** Pattern 3, `\b([0-9]{4})\b`. */
  const FourDigitPattern := BoundedRun(Digits, 4, 4)

  /** Capture of abstract pattern `i` (0 or 1, the keyword patterns) on the content. */
  type Oracle = (nat, string) -> Option<string>

  /** Both keyword patterns capture `([0-9]{4,8})`: four to eight ASCII digits. */
  predicate OracleRespectsGroups(oracle: Oracle, content: string) {
    forall i :: 0 <= i < 2 && oracle(i, content).Some? ==>
      4 <= |oracle(i, content).value| <= 8 && AllDigits(oracle(i, content).value)
  }

  function Capture(i: nat, content: string, oracle: Oracle): Option<string>
    requires i < PatternCount
  {
    if i == 2 then FindFirst(content, SixDigitPattern)
    else if i == 3 then FindFirst(content, FourDigitPattern)
    else oracle(i, content)
  }

  /** The four patterns' captures in the order they are tried: the two keyword patterns, then six digits, then four. */
  function CaptureList(content: string, oracle: Oracle): (r: seq<Option<string>>)
    ensures |r| == PatternCount
    ensures forall i :: 0 <= i < PatternCount ==> r[i] == Capture(i, content, oracle)
  {
    [oracle(0, content), oracle(1, content), FindFirst(content, SixDigitPattern), FindFirst(content, FourDigitPattern)]
  }

  /** `ExtractMohmalVerificationCode`: the capture of the first pattern that matches. */
  function ExtractVerificationCode(content: string, oracle: Oracle): Result<string, MohmalError> {
    match FirstSome(CaptureList(content, oracle))
    case Some(code) => Ok(code)
    case None => Err(NoCode)
  }

  /**
   * The code is the capture of the first pattern in list order that matches,
   * an error exactly when none matches; it is four to eight ASCII digits,
   * exactly six when the six-digit pattern supplied it and exactly four when
   * the four-digit pattern did.
   */
  lemma ExtractIsFirstMatch(content: string, oracle: Oracle)
    requires OracleRespectsGroups(oracle, content)
    ensures var r := ExtractVerificationCode(content, oracle);
      && (r.Err? <==> forall k :: 0 <= k < PatternCount ==> Capture(k, content, oracle).None?)
      && (r.Ok? ==> 4 <= |r.value| <= 8 && AllDigits(r.value))
      && (r.Ok? ==> exists k :: 0 <= k < PatternCount && Capture(k, content, oracle) == Some(r.value)
                      && (forall j :: 0 <= j < k ==> Capture(j, content, oracle).None?)
                      && (k == 2 ==> |r.value| == 6) && (k == 3 ==> |r.value| == 4))
  {
    var xs := CaptureList(content, oracle);
    FindFirstShape(content, SixDigitPattern);
    FindFirstShape(content, FourDigitPattern);
    if FirstSome(xs).None? {
      forall k | 0 <= k < PatternCount ensures Capture(k, content, oracle).None? {
        assert xs[k].None?;
      }
    } else {
      var k :| 0 <= k < |xs| && xs[k] == FirstSome(xs) && forall j :: 0 <= j < k ==> xs[j].None?;
      assert Capture(k, content, oracle) == xs[k];
      forall j | 0 <= j < k ensures Capture(j, content, oracle).None? {
        assert xs[j].None?;
      }
    }
  }
}
