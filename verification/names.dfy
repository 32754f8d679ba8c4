/**
 * Timestamp-derived names and the random password. `generateRandomUsername`
 * (tm_mail.go) and `generateRandomName` (main.go) are the same function over
 * the same word lists; the clock reading is a parameter, and so are the draws
 * of `rand.Intn` for the password.
 */
module Names {
  import opened Wrappers
  import opened Text

  /** Go's `%` on integers: truncates toward zero, so the remainder takes the sign of `a`. */
  function GoRem(a: int, b: int): int
    requires b > 0
  {
    if a >= 0 then a % b else -((-a) % b)
  }

  /** Go's `/` on integers: truncates toward zero. */
  function GoQuot(a: int, b: int): int
    requires b > 0
  {
    if a >= 0 then a / b else -((-a) / b)
  }

  /** Go's quotient and remainder recombine to the dividend; the remainder is smaller than the divisor and has the dividend's sign. */
  lemma GoDivision(a: int, b: int)
    requires b > 0
    ensures GoQuot(a, b) * b + GoRem(a, b) == a
    ensures -b < GoRem(a, b) < b
    ensures a >= 0 ==> GoRem(a, b) >= 0 && GoRem(a, b) == a % b && GoQuot(a, b) == a / b
    ensures a <= 0 ==> GoRem(a, b) <= 0
  {
  }

  const Adjectives: seq<string> := ["quhick", "brzight", "clerver", "smeart", "swihft", "boltd", "caslm", "wicse", "kxind", "czgool",
    "brwtave", "v2fast", "seharp", "miz4ld", "wa5arm", "cov1ld", "fr7hesh", "wil2jd", "qui8aet", "ls2oud"]

  const Nouns: seq<string> := ["fy1ox", "ccazt", "ohwl", "wwolf", "beear", "l5ion", "eaygle", "sv2hark", "ty2iger", "dey22er",
    "hy4awk", "bz5ee", "z6ant", "fh2ish", "bir4rd", "fr3zog", "du6sck", "gof2at", "l3damb", "sy2eal"]

  /**
   * The name built from a nanosecond timestamp. Go indexes the word lists
   * with truncated remainders, so a negative index panics: that is `None`.
   */
  function RandomName(t: int): (r: Option<string>)
    ensures t >= 0 ==> r.Some?
    ensures GoRem(t, 20) < 0 ==> r.None?
    ensures GoRem(GoQuot(t, 1000), 20) < 0 ==> r.None?
  {
    var a := GoRem(t, 20);
    var n := GoRem(GoQuot(t, 1000), 20);
    if a < 0 || n < 0 then None
    else Some(Adjectives[a] + Nouns[n] + Decimal(GoRem(t, 100000)))
  }

  /** The digits at the end of a string: its longest suffix of ASCII digits. */
  function TrailingDigits(s: string): (r: string)
    ensures AllDigits(r) && |r| <= |s| && r == s[|s| - |r|..]
    ensures |r| < |s| ==> !IsAsciiDigit(s[|s| - |r| - 1])
  {
    if s != [] && IsAsciiDigit(s[|s| - 1]) then TrailingDigits(s[..|s| - 1]) + [s[|s| - 1]] else []
  }

  /** Appending digits to a string that does not end in a digit: the digits are exactly the trailing ones. */
  lemma {:induction false} TrailingDigitsOfAppend(p: string, d: string)
    requires AllDigits(d)
    requires p == [] || !IsAsciiDigit(p[|p| - 1])
    ensures TrailingDigits(p + d) == d
    decreases |d|
  {
    if d == [] {
      assert p + d == p;
    } else {
      var d' := d[..|d| - 1];
      var last := d[|d| - 1];
      assert AllDigits(d') by {
        forall i | 0 <= i < |d'| ensures IsAsciiDigit(d'[i]) {
          assert d'[i] == d[i];
        }
      }
      assert (p + d)[|p + d| - 1] == last && IsAsciiDigit(last);
      assert (p + d)[..|p + d| - 1] == p + d';
      TrailingDigitsOfAppend(p, d');
      assert TrailingDigits(p + d) == TrailingDigits(p + d') + [last];
      assert d == d' + [last];
    }
  }

  /** A natural number below 10^k has at most k decimal digits. */
  lemma {:induction false} NatDigitsBound(n: nat, k: nat, p: nat)
    requires p == Pow10(k) && n < p
    ensures |NatDigits(n)| <= k || (k == 0 && n == 0)
    decreases k
  {
    if k > 0 && n >= 10 {
      NatDigitsBound(n / 10, k - 1, Pow10(k - 1));
    }
  }

  function Pow10(k: nat): (p: nat)
    ensures p >= 1
  {
    if k == 0 then 1 else 10 * Pow10(k - 1)
  }

  /** Every noun of the list is non-empty and ends in a letter. */
  lemma NounEndsInLetter(n: nat)
    requires n < |Nouns|
    ensures |Nouns[n]| > 0 && !IsAsciiDigit(Nouns[n][|Nouns[n]| - 1])
  {
    assert n in {0, 1, 2, 3, 4, 5, 6, 7, 8, 9, 10, 11, 12, 13, 14, 15, 16, 17, 18, 19};
  }

  /** A number below 100000 appended to a string ending in a non-digit is read back from the trailing digits. */
  lemma SuffixRoundTrip(p: string, u: nat)
    requires p != [] && !IsAsciiDigit(p[|p| - 1]) && u < 100000
    ensures var suffix := TrailingDigits(p + NatDigits(u));
      suffix == NatDigits(u) && 1 <= |suffix| <= 5 && ParseDigits(suffix) == u
  {
    var d := NatDigits(u);
    assert TrailingDigits(p + d) == d by {
      TrailingDigitsOfAppend(p, d);
    }
    assert ParseDigits(d) == u by {
      ParseNatDigits(u);
    }
    assert |d| <= 5 by {
      assert Pow10(5) == 100000;
      NatDigitsBound(u, 5, 100000);
    }
  }

  /**
   * For a timestamp `t >= 0` the name is an adjective, then a noun, then the
   * decimal number `t mod 100000` of at most five digits, and reading the
   * trailing digits back yields that number: every noun ends in a letter, so
   * the number is never run together with the noun.
   */
  lemma RandomNameParts(t: int)
    requires t >= 0
    ensures var name := RandomName(t).value;
      var suffix := TrailingDigits(name);
      && name == Adjectives[t % 20] + Nouns[(t / 1000) % 20] + suffix
      && 1 <= |suffix| <= 5
      && ParseDigits(suffix) == t % 100000
  {
    var adj := Adjectives[t % 20];
    var noun := Nouns[(t / 1000) % 20];
    var u := t % 100000;
    assert RandomName(t).value == adj + noun + NatDigits(u);
    NounEndsInLetter((t / 1000) % 20);
    var p := adj + noun;
    assert p[|p| - 1] == noun[|noun| - 1];
    assert p + NatDigits(u) == adj + noun + NatDigits(u);
    SuffixRoundTrip(p, u);
  }

  /** A negative timestamp that is not a multiple of 20 indexes the adjectives out of range. */
  lemma NegativeTimestampPanics(t: int)
    requires t < 0 && t % 20 != 0
    ensures RandomName(t).None?
  {
    assert GoRem(t, 20) < 0;
  }

  /**
   * Character `k` of the alphabet `generateRandomPassword` draws from,
   * "abcdefghijklmnopqrstuvwxyzABCDEFGHIJKLMNOPQRSTUVWXYZ0123456789!@#$%":
   * the lower-case letters, the upper-case letters, the digits, then `!@#$%`.
   */
  function AlphabetChar(k: nat): char
    requires k < 67
  {
    if k < 26 then ('a' as int + k) as char
    else if k < 52 then ('A' as int + (k - 26)) as char
    else if k < 62 then ('0' as int + (k - 52)) as char
    else if k == 62 then '!'
    else if k == 63 then '@'
    else if k == 64 then '#'
    else if k == 65 then '$'
    else '%'
  }

  const PasswordAlphabet: string := seq(67, k requires 0 <= k < 67 => AlphabetChar(k))
  const PasswordLength: nat := 12

  /** Position of a character in the alphabet, computed from its code point; -1 outside it. */
  function AlphabetIndex(c: char): int {
    if 'a' <= c <= 'z' then c as int - 'a' as int
    else if 'A' <= c <= 'Z' then 26 + (c as int - 'A' as int)
    else if '0' <= c <= '9' then 52 + (c as int - '0' as int)
    else if c == '!' then 62
    else if c == '@' then 63
    else if c == '#' then 64
    else if c == '$' then 65
    else if c == '%' then 66
    else -1
  }

  /** Every alphabet position is recovered from its character: the alphabet has no repeated character. */
  lemma AlphabetIndexInverse(i: nat)
    requires i < |PasswordAlphabet|
    ensures AlphabetIndex(PasswordAlphabet[i]) == i
  {
  }

  /** `generateRandomPassword`, with `draws[k]` the value `rand.Intn(67)` returned for position `k`. */
  function RandomPassword(draws: seq<nat>): (r: string)
    requires |draws| == PasswordLength
    requires forall k :: 0 <= k < |draws| ==> draws[k] < |PasswordAlphabet|
    ensures |r| == PasswordLength
    ensures forall k :: 0 <= k < |r| ==> AlphabetIndex(r[k]) == draws[k]
  {
    var r := seq(PasswordLength, k requires 0 <= k < PasswordLength => PasswordAlphabet[draws[k]]);
    assert forall k :: 0 <= k < |r| ==> AlphabetIndex(r[k]) == draws[k] by {
      forall k | 0 <= k < |r| ensures AlphabetIndex(r[k]) == draws[k] {
        AlphabetIndexInverse(draws[k]);
      }
    }
    r
  }

  /** Every password character is an alphabet character, and the draws can be read back from the password. */
  lemma PasswordRoundTrip(draws: seq<nat>)
    requires |draws| == PasswordLength
    requires forall k :: 0 <= k < |draws| ==> draws[k] < |PasswordAlphabet|
    ensures var r := RandomPassword(draws);
      (forall k :: 0 <= k < |r| ==> r[k] in PasswordAlphabet)
      && seq(|r|, k requires 0 <= k < |r| => AlphabetIndex(r[k])) == draws
  {
    var r := RandomPassword(draws);
    forall k | 0 <= k < |r| ensures r[k] in PasswordAlphabet {
      assert r[k] == PasswordAlphabet[draws[k]];
    }
  }
}
