/**
 * `extractVerificationCode` of the browser-driven mail readers (email.go and
 * email-test/email.go hold the same function). Eight patterns are tried in
 * order on the content with line breaks and tabs turned into spaces; the first
 * capture whose trimmed byte length is 4..8 wins; a final digit-run search
 * follows. Patterns 4 and 5 (`\b([A-Z0-9]{6})\b`, `\b([0-9]{4,8})\b`) are
 * matched concretely; the other six are an oracle that returns the capture of
 * pattern `i` on a content string.
 */
module EmailPage {
  import opened Wrappers
  import opened Text
  import opened Runs

  const PatternCount: nat := 8

  /** Pattern 4: `\b([A-Z0-9]{6})\b` (no case folding). */
  const UpperCodePattern := BoundedRun(UpperOrDigit, 6, 6)
  /** Pattern 5 and the fallback `\b(\d{4,8})\b`: both are `[0-9]{4,8}` between word boundaries. */
  const DigitCodePattern := BoundedRun(Digits, 4, 8)

  /** Capture of abstract pattern `i` on a content string, as the regex engine reports it. */
  type Oracle = (nat, string) -> Option<string>

  /**
   * A character of `(?i)[A-Z0-9]`: Go folds case with Unicode simple folding,
   * so besides the ASCII letters and digits the class holds U+017F (long s)
   * and U+212A (Kelvin sign).
   */
  predicate FoldedAlnum(c: char) {
    ('A' <= c <= 'Z') || ('a' <= c <= 'z') || ('0' <= c <= '9') || c == '\U{017F}' || c == '\U{212A}'
  }

  /** The shape of the capture group `(?i)([A-Z0-9]{4,8})` shared by the six abstract patterns. */
  predicate FoldedCodeShape(c: string) {
    4 <= |c| <= 8 && forall j :: 0 <= j < |c| ==> FoldedAlnum(c[j])
  }

  /** The oracle returns captures of the group shape on this content. */
  predicate OracleRespectsGroups(oracle: Oracle, content: string) {
    forall i :: 0 <= i < PatternCount && i != 4 && i != 5 && oracle(i, content).Some? ==>
      FoldedCodeShape(oracle(i, content).value)
  }

  /** `strings.ReplaceAll(strings.ReplaceAll(content, "\n", " "), "\t", " ")`. */
  function Normalize(content: string): (r: string)
    ensures |r| == |content|
    ensures forall j :: 0 <= j < |r| ==>
      r[j] == (if content[j] == '\n' || content[j] == '\t' then ' ' else content[j])
  {
    if content == [] then []
    else [if content[0] == '\n' || content[0] == '\t' then ' ' else content[0]] + Normalize(content[1..])
  }

  /** `FindStringSubmatch(content)[1]` of pattern `i`. */
  function Capture(i: nat, content: string, oracle: Oracle): Option<string>
    requires i < PatternCount
  {
    if i == 4 then FindFirst(content, UpperCodePattern)
    else if i == 5 then FindFirst(content, DigitCodePattern)
    else oracle(i, content)
  }

  /** The length guard `len(code) >= 4 && len(code) <= 8`, with Go's byte length. */
  predicate LengthGuard(code: string) {
    4 <= Utf8Len(code) <= 8
  }

  /** What pattern `i` contributes: its trimmed capture when the guard accepts it. */
  function Accepted(i: nat, content: string, oracle: Oracle): Option<string>
    requires i < PatternCount
  {
    match Capture(i, content, oracle)
    case Some(m) => if LengthGuard(GoTrim(m)) then Some(GoTrim(m)) else None
    case None => None
  }

  /** The contributions of the eight patterns, in list order. */
  function AcceptedList(content: string, oracle: Oracle): (r: seq<Option<string>>)
    ensures |r| == PatternCount
    ensures forall i :: 0 <= i < PatternCount ==> r[i] == Accepted(i, content, oracle)
  {
    seq(PatternCount, i requires 0 <= i < PatternCount => Accepted(i, content, oracle))
  }

  /** The closing loop over `FindAllString` of `\b(\d{4,8})\b`: the first match of 4..8 bytes. */
  function Fallback(content: string): string {
    FirstGuarded(FindAllFrom(content, DigitCodePattern, 0))
  }

  function FirstGuarded(matches: seq<string>): string {
    if matches == [] then ""
    else if LengthGuard(matches[0]) then matches[0]
    else FirstGuarded(matches[1..])
  }

  /** `extractVerificationCode(content)`; "" means nothing was found. */
  function ExtractVerificationCode(content: string, oracle: Oracle): string {
    ExtractNormalized(Normalize(content), oracle)
  }

  /** The search itself, on content whose line breaks and tabs are already spaces. */
  function ExtractNormalized(c: string, oracle: Oracle): string {
    match FirstSome(AcceptedList(c, oracle))
    case Some(code) => code
    case None => Fallback(c)
  }

  /** A capture made only of ASCII class characters passes the trim and the guard untouched. */
  lemma AsciiCaptureAccepted(m: string)
    requires 4 <= |m| <= 8 && forall j :: 0 <= j < |m| ==> ('A' <= m[j] <= 'Z') || ('0' <= m[j] <= '9')
    ensures GoTrim(m) == m && LengthGuard(m)
  {
    UpperOrDigitIsAscii(m);
    AsciiByteLength(m);
    GoTrimNoSpace(m);
  }

  lemma UpperOrDigitIsAscii(m: string)
    requires forall j :: 0 <= j < |m| ==> ('A' <= m[j] <= 'Z') || ('0' <= m[j] <= '9')
    ensures IsAscii(m)
  {
    forall i | 0 <= i < |m| ensures m[i] as int < 0x80 {
      assert m[i] as int <= 'Z' as int;
    }
  }

  /** The trimmed capture of any pattern equals the capture itself: no class admits a space. */
  lemma TrimKeepsFolded(m: string)
    requires forall j :: 0 <= j < |m| ==> FoldedAlnum(m[j])
    ensures GoTrim(m) == m
  {
    GoTrimNoSpace(m);
  }

  /**
   * The digit-run fallback duplicates pattern 5, so it never contributes: it
   * is reached only when pattern 5 found nothing, and then it finds nothing.
   */
  lemma FallbackNeverContributes(content: string, oracle: Oracle)
    ensures Accepted(5, content, oracle).None? ==> Fallback(content) == ""
  {
    FindFirstShape(content, DigitCodePattern);
    FindAllStartsWithFirst(content, DigitCodePattern);
    match Capture(5, content, oracle)
    case Some(m) => AsciiCaptureAccepted(m);
    case None =>
  }

  /**
   * Patterns are tried in list order on the normalised content: the result is
   * the trimmed capture of the first pattern whose capture passes the length
   * guard, and "" exactly when no pattern's capture does.
   */
  lemma ExtractIsFirstAccepted(content: string, oracle: Oracle)
    ensures FirstAccepted(Normalize(content), oracle, ExtractVerificationCode(content, oracle))
  {
    NormalizedIsFirstAccepted(Normalize(content), oracle);
  }

  /**
   * `r` is the first contribution in pattern order on content `c`, and ""
   * exactly when no pattern contributes.
   */
  ghost predicate FirstAccepted(c: string, oracle: Oracle, r: string) {
    && (r != "" <==> exists k :: 0 <= k < PatternCount && Accepted(k, c, oracle).Some?)
    && (r != "" ==> exists k :: 0 <= k < PatternCount && Accepted(k, c, oracle) == Some(r)
                      && forall j :: 0 <= j < k ==> Accepted(j, c, oracle).None?)
  }

  lemma NormalizedIsFirstAccepted(c: string, oracle: Oracle)
    ensures FirstAccepted(c, oracle, ExtractNormalized(c, oracle))
  {
    var xs := AcceptedList(c, oracle);
    var r := ExtractNormalized(c, oracle);
    if FirstSome(xs).None? {
      assert r == Fallback(c);
      assert Accepted(5, c, oracle).None? by { assert xs[5].None?; }
      FallbackNeverContributes(c, oracle);
      forall k | 0 <= k < PatternCount ensures Accepted(k, c, oracle).None? {
        assert xs[k].None?;
      }
    } else {
      var k :| 0 <= k < |xs| && xs[k] == FirstSome(xs) && forall j :: 0 <= j < k ==> xs[j].None?;
      assert r == FirstSome(xs).value;
      AcceptedNonEmpty(k, c, oracle);
      assert Accepted(k, c, oracle) == Some(r);
      forall j | 0 <= j < k ensures Accepted(j, c, oracle).None? {
        assert xs[j].None?;
      }
    }
  }

  /** An accepted capture is never empty: the guard asks for at least four bytes. */
  lemma AcceptedNonEmpty(i: nat, content: string, oracle: Oracle)
    requires i < PatternCount
    ensures Accepted(i, content, oracle).Some? ==> 4 <= Utf8Len(Accepted(i, content, oracle).value) && Accepted(i, content, oracle).value != ""
  {
  }

  /** Every non-empty result is 4..8 bytes long, and 4..8 characters when it is ASCII. */
  lemma ResultLength(content: string, oracle: Oracle)
    ensures var r := ExtractVerificationCode(content, oracle);
      r != "" ==> 4 <= Utf8Len(r) <= 8 && (IsAscii(r) ==> 4 <= |r| <= 8)
  {
    ExtractIsFirstAccepted(content, oracle);
    var r := ExtractVerificationCode(content, oracle);
    if r != "" && IsAscii(r) {
      AsciiByteLength(r);
    }
  }

  /**
   * The length guard never rejects a capture made of ASCII characters: on such
   * captures the first matching pattern is the one whose capture is returned.
   */
  lemma GuardAcceptsAsciiCaptures(i: nat, content: string, oracle: Oracle)
    requires i < PatternCount && OracleRespectsGroups(oracle, content)
    requires Capture(i, content, oracle).Some? && IsAscii(Capture(i, content, oracle).value)
    ensures Accepted(i, content, oracle) == Capture(i, content, oracle)
  {
    var m := Capture(i, content, oracle).value;
    if i == 4 {
      FindFirstShape(content, UpperCodePattern);
    } else if i == 5 {
      FindFirstShape(content, DigitCodePattern);
    }
    assert forall j :: 0 <= j < |m| ==> FoldedAlnum(m[j]);
    TrimKeepsFolded(m);
    AsciiByteLength(m);
  }

  /**
   * Case folding lets `(?i)code[:\s]*([A-Z0-9]{4,8})` capture five long-s
   * characters: a capture of the group's shape that the byte-length guard
   * rejects, so the guard is not redundant for the case-folded patterns.
   */
  lemma FoldedCaptureCanBeRejected()
    ensures FoldedCodeShape(LongS5)
    ensures !LengthGuard(GoTrim(LongS5))
  {
    TrimKeepsFolded(LongS5);
    LongS5Bytes();
  }

  /** Five U+017F characters. */
  const LongS5: string := "\U{017F}\U{017F}\U{017F}\U{017F}\U{017F}"

  lemma LongS5Bytes()
    ensures Utf8Len(LongS5) == 10
  {
    var m := LongS5;
    assert m[4..] == ['\U{017F}'];
    assert Utf8Len(m[4..]) == 2;
    assert m[3..] == ['\U{017F}'] + m[4..];
    assert Utf8Len(m[3..]) == 4;
    assert m[2..] == ['\U{017F}'] + m[3..];
    assert Utf8Len(m[2..]) == 6;
    assert m[1..] == ['\U{017F}'] + m[2..];
    assert Utf8Len(m[1..]) == 8;
  }
}
