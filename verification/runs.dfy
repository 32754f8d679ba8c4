/**
 * The one regular-expression shape the extractors need concretely:
 * `\b(C{lo,hi})\b` for an ASCII character class C of word characters, with
 * RE2's leftmost-first semantics (Go's `FindStringSubmatch` and `FindAllString`).
 * `\b` is RE2's ASCII word boundary, and `\d` is RE2's ASCII digit class.
 */
module Runs {
  import opened Wrappers

  /** RE2's ASCII word characters `[0-9A-Za-z_]`. */
  predicate IsWordChar(c: char) {
    ('0' <= c <= '9') || ('A' <= c <= 'Z') || ('a' <= c <= 'z') || c == '_'
  }

  /** The character classes the digit-run patterns use. */
  datatype CharClass =
    | Digits        // `[0-9]` and `\d`
    | UpperOrDigit  // `[A-Z0-9]` without case folding
    | Alnum         // `[a-zA-Z0-9]`

  predicate InClass(cls: CharClass, c: char) {
    match cls
    case Digits => '0' <= c <= '9'
    case UpperOrDigit => ('A' <= c <= 'Z') || ('0' <= c <= '9')
    case Alnum => ('a' <= c <= 'z') || ('A' <= c <= 'Z') || ('0' <= c <= '9')
  }

  /** `\b(cls{lo,hi})\b`; every pattern of the source has `lo >= 1`. */
  datatype BoundedRun = BoundedRun(cls: CharClass, lo: nat, hi: nat) {
    predicate Valid() { 1 <= lo <= hi }
  }

  /** `\b` holds between positions `p - 1` and `p`. */
  predicate BoundaryAt(s: string, p: int) {
    0 <= p <= |s| && ((p > 0 && IsWordChar(s[p - 1])) != (p < |s| && IsWordChar(s[p])))
  }

  /** Reference semantics: the pattern matches `s[i..i + k]`. */
  predicate MatchesAt(s: string, pat: BoundedRun, i: int, k: int) {
    && 0 <= i && 0 <= k && i + k <= |s|
    && pat.lo <= k <= pat.hi
    && BoundaryAt(s, i)
    && (forall j :: i <= j < i + k ==> InClass(pat.cls, s[j]))
    && BoundaryAt(s, i + k)
  }

  /** Some match of the pattern starts at `i`. */
  ghost predicate MatchStartsAt(s: string, pat: BoundedRun, i: int) {
    exists k :: MatchesAt(s, pat, i, k)
  }

  /** Length of the longest run of class characters starting at `i`. */
  function RunLength(s: string, cls: CharClass, i: nat): (m: nat)
    requires i <= |s|
    ensures i + m <= |s|
    ensures forall j :: i <= j < i + m ==> InClass(cls, s[j])
    ensures i + m == |s| || !InClass(cls, s[i + m])
    decreases |s| - i
  {
    if i < |s| && InClass(cls, s[i]) then 1 + RunLength(s, cls, i + 1) else 0
  }

  /** A match starting at `i` always spans exactly the maximal class run there. */
  lemma MatchIsMaximalRun(s: string, pat: BoundedRun, i: nat, k: int)
    requires pat.Valid() && i <= |s|
    ensures MatchesAt(s, pat, i, k) <==>
      (k == RunLength(s, pat.cls, i) && pat.lo <= k <= pat.hi && BoundaryAt(s, i) && BoundaryAt(s, i + k))
  {
    var m := RunLength(s, pat.cls, i);
    if MatchesAt(s, pat, i, k) && k < m {
      assert false;
    }
  }

  /** Whether the pattern matches at `i`, decided from the maximal run there. */
  function MatchLengthAt(s: string, pat: BoundedRun, i: nat): (r: Option<nat>)
    requires pat.Valid() && i <= |s|
    ensures r.Some? ==> MatchesAt(s, pat, i, r.value)
    ensures r.None? ==> !MatchStartsAt(s, pat, i)
  {
    var m := RunLength(s, pat.cls, i);
    MatchIsMaximalRun(s, pat, i, m);
    if pat.lo <= m <= pat.hi && BoundaryAt(s, i) && BoundaryAt(s, i + m) then Some(m)
    else
      assert forall k :: !MatchesAt(s, pat, i, k) by {
        forall k ensures !MatchesAt(s, pat, i, k) { MatchIsMaximalRun(s, pat, i, k); }
      }
      None
  }

  /** Leftmost match at or after `from`, as a (start, length) pair. */
  function FindFrom(s: string, pat: BoundedRun, from: nat): (r: Option<(nat, nat)>)
    requires pat.Valid() && from <= |s|
    decreases |s| - from
  {
    match MatchLengthAt(s, pat, from)
    case Some(k) => Some((from, k))
    case None => if from == |s| then None else FindFrom(s, pat, from + 1)
  }

  /** `FindFrom` returns the leftmost match at or after `from`, and only when there is one. */
  lemma {:induction false} FindFromIsLeftmost(s: string, pat: BoundedRun, from: nat)
    requires pat.Valid() && from <= |s|
    ensures FindFrom(s, pat, from).Some? ==>
      var (i, k) := FindFrom(s, pat, from).value;
      from <= i && MatchesAt(s, pat, i, k) && forall i' :: from <= i' < i ==> !MatchStartsAt(s, pat, i')
    ensures FindFrom(s, pat, from).None? ==> forall i' :: from <= i' <= |s| ==> !MatchStartsAt(s, pat, i')
    decreases |s| - from
  {
    if MatchLengthAt(s, pat, from).None? && from < |s| {
      FindFromIsLeftmost(s, pat, from + 1);
    }
  }

  /** Go's `FindStringSubmatch(s)[1]` for the pattern: the capture of the leftmost match. */
  function FindFirst(s: string, pat: BoundedRun): (r: Option<string>)
    requires pat.Valid()
  {
    FindFromIsLeftmost(s, pat, 0);
    match FindFrom(s, pat, 0)
    case Some((i, k)) => Some(s[i..i + k])
    case None => None
  }

  /** The capture found is a run of class characters whose length the pattern allows. */
  lemma FindFirstShape(s: string, pat: BoundedRun)
    requires pat.Valid()
    ensures FindFirst(s, pat).Some? ==>
      var c := FindFirst(s, pat).value;
      pat.lo <= |c| <= pat.hi && forall j :: 0 <= j < |c| ==> InClass(pat.cls, c[j])
    ensures FindFirst(s, pat).None? <==> forall i :: 0 <= i <= |s| ==> !MatchStartsAt(s, pat, i)
  {
    FindFromIsLeftmost(s, pat, 0);
    if FindFrom(s, pat, 0).Some? {
      var (i, k) := FindFrom(s, pat, 0).value;
      assert MatchStartsAt(s, pat, i);
    }
  }

  /** Go's `FindAllString(s, -1)` from position `from`: successive non-overlapping leftmost matches. */
  function FindAllFrom(s: string, pat: BoundedRun, from: nat): (r: seq<string>)
    requires pat.Valid() && from <= |s|
    ensures forall t :: 0 <= t < |r| ==> pat.lo <= |r[t]| <= pat.hi
    ensures forall t, j :: 0 <= t < |r| && 0 <= j < |r[t]| ==> InClass(pat.cls, r[t][j])
    decreases |s| - from
  {
    FindFromIsLeftmost(s, pat, from);
    match FindFrom(s, pat, from)
    case Some((i, k)) => [s[i..i + k]] + FindAllFrom(s, pat, i + k)
    case None => []
  }

  /** The first match that `FindAllString` reports is the one `FindStringSubmatch` reports. */
  lemma FindAllStartsWithFirst(s: string, pat: BoundedRun)
    requires pat.Valid()
    ensures var all := FindAllFrom(s, pat, 0);
      (all == [] <==> FindFirst(s, pat).None?) && (all != [] ==> FindFirst(s, pat) == Some(all[0]))
  {
  }
}
