/** String helpers with the semantics of the JavaScript and Go library calls the source uses. */
module Text {

  /** `needle` occurs in `hay` starting at index `i`. */
  predicate OccursAt(hay: string, needle: string, i: int) {
    0 <= i <= |hay| - |needle| && hay[i..i + |needle|] == needle
  }

  /** `hay.includes(needle)` in JavaScript, `strings.Contains(hay, needle)` in Go. */
  function Contains(hay: string, needle: string): (r: bool)
    ensures r <==> exists i :: OccursAt(hay, needle, i)
    decreases |hay|
  {
    if |hay| < |needle| then false
    else if hay[..|needle|] == needle then assert OccursAt(hay, needle, 0); true
    else
      var r := Contains(hay[1..], needle);
      assert r ==> exists i :: OccursAt(hay, needle, i) by {
        if r {
          var j :| OccursAt(hay[1..], needle, j);
          assert hay[1..][j..j + |needle|] == hay[j + 1..j + 1 + |needle|];
          assert OccursAt(hay, needle, j + 1);
        }
      }
      assert (exists i :: OccursAt(hay, needle, i)) ==> r by {
        if exists i :: OccursAt(hay, needle, i) {
          var i :| OccursAt(hay, needle, i);
          assert i != 0;
          assert hay[1..][i - 1..i - 1 + |needle|] == hay[i..i + |needle|];
          assert OccursAt(hay[1..], needle, i - 1);
        }
      }
      r
  }

  /** Whitespace as Go's `unicode.IsSpace` defines it (used by `strings.TrimSpace`). */
  predicate IsGoSpace(c: char) {
    ('\t' <= c <= '\r') || c == ' ' || c == '\U{0085}' || c == '\U{00A0}' || c == '\U{1680}'
    || ('\U{2000}' <= c <= '\U{200A}') || c == '\U{2028}' || c == '\U{2029}'
    || c == '\U{202F}' || c == '\U{205F}' || c == '\U{3000}'
  }

  /** White space and line terminators as JavaScript's `String.prototype.trim` defines them. */
  predicate IsJsSpace(c: char) {
    ('\t' <= c <= '\r') || c == ' ' || c == '\U{00A0}' || c == '\U{1680}'
    || ('\U{2000}' <= c <= '\U{200A}') || c == '\U{2028}' || c == '\U{2029}'
    || c == '\U{202F}' || c == '\U{205F}' || c == '\U{3000}' || c == '\U{FEFF}'
  }

  /** Drops the leading characters satisfying `space`. */
  function TrimStart(s: string, space: char -> bool): (r: string)
    ensures |r| <= |s|
    ensures r == [] || !space(r[0])
  {
    if s != [] && space(s[0]) then TrimStart(s[1..], space) else s
  }

  /** What `TrimStart` drops is a prefix of `space` characters. */
  lemma {:induction false} TrimStartDropsPrefix(s: string, space: char -> bool)
    ensures var r := TrimStart(s, space);
      && r == s[|s| - |r|..]
      && forall i :: 0 <= i < |s| - |r| ==> space(s[i])
  {
    if s != [] && space(s[0]) {
      TrimStartDropsPrefix(s[1..], space);
      var r := TrimStart(s, space);
      forall i | 0 <= i < |s| - |r| ensures space(s[i]) {
        if i > 0 {
          assert s[i] == s[1..][i - 1];
        }
      }
    }
  }

  /** Drops the trailing characters satisfying `space`. */
  function TrimEnd(s: string, space: char -> bool): (r: string)
    ensures |r| <= |s|
    ensures r == [] || !space(r[|r| - 1])
  {
    if s != [] && space(s[|s| - 1]) then TrimEnd(s[..|s| - 1], space) else s
  }

  /** What `TrimEnd` drops is a suffix of `space` characters. */
  lemma {:induction false} TrimEndDropsSuffix(s: string, space: char -> bool)
    ensures var r := TrimEnd(s, space);
      && r == s[..|r|]
      && forall i :: |r| <= i < |s| ==> space(s[i])
  {
    if s != [] && space(s[|s| - 1]) {
      var s' := s[..|s| - 1];
      TrimEndDropsSuffix(s', space);
      var r := TrimEnd(s, space);
      forall i | |r| <= i < |s| ensures space(s[i]) {
        if i < |s| - 1 {
          assert s[i] == s'[i];
        }
      }
    }
  }

  /** Go's `strings.TrimSpace`. */
  function GoTrim(s: string): (r: string)
    ensures r == [] || (!IsGoSpace(r[0]) && !IsGoSpace(r[|r| - 1]))
  {
    var t := TrimStart(s, IsGoSpace);
    TrimEndDropsSuffix(t, IsGoSpace);
    TrimEnd(t, IsGoSpace)
  }

  /** Trimming a trimmed string changes nothing. */
  lemma GoTrimIdempotent(s: string)
    ensures GoTrim(GoTrim(s)) == GoTrim(s)
  {
    GoTrimNoEdgeSpace(GoTrim(s));
  }

  /** A string with no white space at either end is its own trim. */
  lemma GoTrimNoEdgeSpace(s: string)
    requires s == [] || (!IsGoSpace(s[0]) && !IsGoSpace(s[|s| - 1]))
    ensures GoTrim(s) == s
  {
    assert TrimStart(s, IsGoSpace) == s;
    assert TrimEnd(s, IsGoSpace) == s;
  }

  /** A string without white space is its own trim. */
  lemma GoTrimNoSpace(s: string)
    requires forall i :: 0 <= i < |s| ==> !IsGoSpace(s[i])
    ensures GoTrim(s) == s
  {
    if s != [] {
      assert !IsGoSpace(s[0]) && !IsGoSpace(s[|s| - 1]);
    }
    GoTrimNoEdgeSpace(s);
  }

  /** JavaScript's `String.prototype.trim`. */
  function JsTrim(s: string): (r: string)
    ensures r == [] || (!IsJsSpace(r[0]) && !IsJsSpace(r[|r| - 1]))
  {
    var t := TrimStart(s, IsJsSpace);
    TrimEndDropsSuffix(t, IsJsSpace);
    TrimEnd(t, IsJsSpace)
  }

  /** Lower-cases the ASCII letters and leaves every other character alone. */
  function AsciiLower(s: string): (r: string)
    ensures |r| == |s|
    ensures forall i :: 0 <= i < |s| ==> (if 'A' <= s[i] <= 'Z' then r[i] as int == s[i] as int + 32 else r[i] == s[i])
  {
    if s == [] then []
    else [if 'A' <= s[0] <= 'Z' then (s[0] as int + 32) as char else s[0]] + AsciiLower(s[1..])
  }

  predicate IsAsciiDigit(c: char) {
    '0' <= c <= '9'
  }

  predicate AllDigits(s: string) {
    forall i :: 0 <= i < |s| ==> IsAsciiDigit(s[i])
  }

  /** The decimal digits of a natural number, most significant first, without leading zeros. */
  function NatDigits(n: nat): (r: string)
    ensures |r| >= 1 && AllDigits(r)
    ensures n >= 10 ==> r[0] != '0'
    decreases n
  {
    if n < 10 then [('0' as int + n) as char]
    else NatDigits(n / 10) + [('0' as int + n % 10) as char]
  }

  /** Go's `%d` (and JavaScript's number-to-string) for an integer. */
  function Decimal(n: int): string {
    if n < 0 then "-" + NatDigits(-n) else NatDigits(n)
  }

  /** Reads back a string of ASCII digits as a natural number. */
  function ParseDigits(s: string): nat
    requires AllDigits(s)
  {
    if s == [] then 0 else 10 * ParseDigits(s[..|s| - 1]) + (s[|s| - 1] as int - '0' as int)
  }

  /** Decimal formatting of a natural number is undone by reading the digits back. */
  lemma {:induction false} ParseNatDigits(n: nat)
    ensures ParseDigits(NatDigits(n)) == n
    decreases n
  {
    if n >= 10 {
      var d := NatDigits(n);
      assert d[..|d| - 1] == NatDigits(n / 10);
      ParseNatDigits(n / 10);
    }
  }

  /** Number of bytes UTF-8 uses for one character. */
  function Utf8Width(c: char): (w: nat)
    ensures 1 <= w <= 4 && (w == 1 <==> c as int < 0x80)
  {
    if c as int < 0x80 then 1 else if c as int < 0x800 then 2 else if c as int < 0x10000 then 3 else 4
  }

  /** Go's `len` of a string: its length in UTF-8 bytes. */
  function Utf8Len(s: string): (n: nat)
    ensures n >= |s|
  {
    if s == [] then 0 else Utf8Width(s[0]) + Utf8Len(s[1..])
  }

  predicate IsAscii(s: string) {
    forall i :: 0 <= i < |s| ==> s[i] as int < 0x80
  }

  /** For ASCII text Go's byte length is the character count. */
  lemma {:induction false} AsciiByteLength(s: string)
    requires IsAscii(s)
    ensures Utf8Len(s) == |s|
  {
    if s != [] {
      AsciiByteLength(s[1..]);
    }
  }
}
