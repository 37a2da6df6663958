/**
 * The JavaScript string built-ins the action relies on, over `string` (a
 * sequence of characters): `trim`, `split("\n")`, `includes`, `toUpperCase`,
 * `parseInt` of a run of decimal digits and `Number.prototype.toString`.
 */
module Text {

  /** The characters `String.prototype.trim` removes: WhiteSpace and LineTerminator code points. */
  predicate IsWhitespace(c: char)
  {
    c == '\t' || c == '\n' || c == '\U{000B}' || c == '\U{000C}' || c == '\r' || c == ' ' ||
    c == '\U{00A0}' || c == '\U{1680}' || ('\U{2000}' <= c <= '\U{200A}') ||
    c == '\U{2028}' || c == '\U{2029}' || c == '\U{202F}' || c == '\U{205F}' || c == '\U{3000}' ||
    c == '\U{FEFF}'
  }

  /** Drops leading whitespace. */
  function TrimStart(s: string): (r: string)
    ensures |r| <= |s|
  {
    if s != [] && IsWhitespace(s[0]) then TrimStart(s[1..]) else s
  }

  /** Drops trailing whitespace. */
  function TrimEnd(s: string): (r: string)
    ensures |r| <= |s|
  {
    if s != [] && IsWhitespace(s[|s| - 1]) then TrimEnd(s[..|s| - 1]) else s
  }

  /** `s.trim()`. */
  function Trim(s: string): string
  {
    TrimEnd(TrimStart(s))
  }

  /** `TrimStart(s)` is a suffix of `s`; what it drops is whitespace, and it starts with non-whitespace. */
  lemma {:induction false} TrimStartSuffix(s: string)
    ensures TrimStart(s) == s[|s| - |TrimStart(s)|..]
    ensures forall i :: 0 <= i < |s| - |TrimStart(s)| ==> IsWhitespace(s[i])
    ensures TrimStart(s) == [] || !IsWhitespace(TrimStart(s)[0])
  {
    if s != [] && IsWhitespace(s[0]) {
      TrimStartSuffix(s[1..]);
    }
  }

  /** `TrimEnd(s)` is a prefix of `s`; what it drops is whitespace, and it ends with non-whitespace. */
  lemma {:induction false} TrimEndPrefix(s: string)
    ensures TrimEnd(s) == s[..|TrimEnd(s)|]
    ensures forall i :: |TrimEnd(s)| <= i < |s| ==> IsWhitespace(s[i])
    ensures TrimEnd(s) == [] || !IsWhitespace(TrimEnd(s)[|TrimEnd(s)| - 1])
  {
    if s != [] && IsWhitespace(s[|s| - 1]) {
      TrimEndPrefix(s[..|s| - 1]);
    }
  }

  /** `Trim(s)` is the slice `s[lo..hi]` of `s`, with only whitespace outside it. */
  lemma TrimIsSlice(s: string) returns (lo: nat, hi: nat)
    ensures lo <= hi <= |s| && Trim(s) == s[lo..hi]
    ensures forall i :: 0 <= i < lo ==> IsWhitespace(s[i])
    ensures forall i :: hi <= i < |s| ==> IsWhitespace(s[i])
    ensures Trim(s) == [] || (!IsWhitespace(s[lo]) && !IsWhitespace(s[hi - 1]))
  {
    var t := TrimStart(s);
    TrimStartSuffix(s);
    TrimEndPrefix(t);
    lo := |s| - |t|;
    hi := lo + |TrimEnd(t)|;
    assert t == s[lo..];
    assert forall i :: hi <= i < |s| ==> s[i] == t[i - lo];
  }

  /** `s.split("\n")`: the pieces between line feeds; always at least one piece. */
  function SplitLines(s: string): (r: seq<string>)
    ensures |r| >= 1
    ensures forall i :: 0 <= i < |r| ==> '\n' !in r[i]
  {
    if s == [] then [""]
    else
      var rest := SplitLines(s[1..]);
      if s[0] == '\n' then [""] + rest
      else [[s[0]] + rest[0]] + rest[1..]
  }

  /** `parts.join("\n")`, the inverse of `SplitLines`. */
  function JoinLines(parts: seq<string>): string
  {
    if parts == [] then ""
    else if |parts| == 1 then parts[0]
    else parts[0] + "\n" + JoinLines(parts[1..])
  }

  lemma {:induction false} JoinSplit(s: string)
    ensures JoinLines(SplitLines(s)) == s
  {
    if s != [] {
      JoinSplit(s[1..]);
      var rest := SplitLines(s[1..]);
      if s[0] == '\n' {
        assert SplitLines(s)[1..] == rest;
      } else {
        var parts := SplitLines(s);
        assert parts[1..] == rest[1..];
        if |rest| == 1 {
          assert parts == [[s[0]] + rest[0]];
        } else {
          assert JoinLines(rest) == rest[0] + "\n" + JoinLines(rest[1..]);
        }
      }
    }
  }

  lemma {:induction false} SplitJoin(parts: seq<string>)
    requires parts != []
    requires forall i :: 0 <= i < |parts| ==> '\n' !in parts[i]
    ensures SplitLines(JoinLines(parts)) == parts
  {
    if |parts| == 1 {
      SplitLinesNoBreak(parts[0]);
    } else {
      SplitJoin(parts[1..]);
      SplitLinesPrefix(parts[0], JoinLines(parts[1..]));
    }
  }

  /** A string with no line feed is one piece. */
  lemma {:induction false} SplitLinesNoBreak(s: string)
    requires '\n' !in s
    ensures SplitLines(s) == [s]
  {
    if s != [] {
      assert '\n' !in s[1..];
      SplitLinesNoBreak(s[1..]);
      assert [s[0]] + s[1..] == s;
    }
  }

  lemma {:induction false} SplitLinesPrefix(p: string, rest: string)
    requires '\n' !in p
    ensures SplitLines(p + "\n" + rest) == [p] + SplitLines(rest)
  {
    if p == [] {
      assert p + "\n" + rest == "\n" + rest;
      assert ("\n" + rest)[1..] == rest;
    } else {
      var s := p + "\n" + rest;
      assert s[1..] == p[1..] + "\n" + rest;
      SplitLinesPrefix(p[1..], rest);
      assert [p[0]] + p[1..] == p;
    }
  }

  /** `hay.includes(needle)`: `needle` occurs somewhere in `hay` as a contiguous run. */
  function Contains(hay: string, needle: string): bool
    decreases |hay|
  {
    if |hay| < |needle| then false
    else hay[..|needle|] == needle || Contains(hay[1..], needle)
  }

  /** `needle` occurs in `hay` starting at position `i`. */
  predicate OccursAt(hay: string, needle: string, i: int)
  {
    0 <= i <= |hay| - |needle| && hay[i..i + |needle|] == needle
  }

  lemma {:induction false} ContainsIff(hay: string, needle: string)
    ensures Contains(hay, needle) <==> exists i :: OccursAt(hay, needle, i)
    decreases |hay|
  {
    if |hay| >= |needle| {
      if hay[..|needle|] == needle {
        assert OccursAt(hay, needle, 0);
      } else {
        assert hay != [];
        ContainsIff(hay[1..], needle);
        if Contains(hay[1..], needle) {
          var i :| OccursAt(hay[1..], needle, i);
          assert OccursAt(hay, needle, i + 1);
        }
        if exists i :: OccursAt(hay, needle, i) {
          var i :| OccursAt(hay, needle, i);
          assert i != 0;
          assert OccursAt(hay[1..], needle, i - 1);
        }
      }
    }
  }

  /** An occurrence in a slice is an occurrence in the whole string, shifted by the slice's start. */
  lemma OccursInSlice(s: string, lo: nat, hi: nat, needle: string, j: int)
    requires lo <= hi <= |s| && OccursAt(s[lo..hi], needle, j)
    ensures OccursAt(s, needle, j + lo)
  {
    forall k | 0 <= k < |needle|
      ensures s[j + lo..j + lo + |needle|][k] == needle[k]
    {
      assert s[lo..hi][j..j + |needle|][k] == s[lo..hi][j + k];
    }
  }

  /**
   * An occurrence whose first and last characters are not whitespace lies
   * between whitespace-only margins, so it is an occurrence in the slice.
   */
  lemma OccursBetweenMargins(s: string, lo: nat, hi: nat, needle: string, i: int)
    requires lo <= hi <= |s|
    requires forall k :: 0 <= k < lo ==> IsWhitespace(s[k])
    requires forall k :: hi <= k < |s| ==> IsWhitespace(s[k])
    requires needle != [] && !IsWhitespace(needle[0]) && !IsWhitespace(needle[|needle| - 1])
    requires OccursAt(s, needle, i)
    ensures OccursAt(s[lo..hi], needle, i - lo)
  {
    assert s[i] == needle[0];
    assert s[i + |needle| - 1] == needle[|needle| - 1];
    assert lo <= i && i + |needle| <= hi;
    forall k | 0 <= k < |needle|
      ensures s[lo..hi][i - lo..i - lo + |needle|][k] == needle[k]
    {
      assert s[i..i + |needle|][k] == s[i + k];
    }
  }

  /**
   * Trimming cannot hide or expose a needle that begins and ends with a
   * non-whitespace character: such an occurrence lies inside the trimmed slice.
   */
  lemma TrimKeepsContains(s: string, needle: string)
    requires needle != [] && !IsWhitespace(needle[0]) && !IsWhitespace(needle[|needle| - 1])
    ensures Contains(Trim(s), needle) == Contains(s, needle)
  {
    var lo, hi := TrimIsSlice(s);
    ContainsIff(s[lo..hi], needle);
    ContainsIff(s, needle);
    if Contains(s, needle) {
      var i :| OccursAt(s, needle, i);
      OccursBetweenMargins(s, lo, hi, needle, i);
    }
    if Contains(s[lo..hi], needle) {
      var j :| OccursAt(s[lo..hi], needle, j);
      OccursInSlice(s, lo, hi, needle, j);
    }
  }

  /** The position of the first `c` in `s`, or `|s|` when there is none. */
  function IndexOf(s: string, c: char): (r: nat)
    ensures r <= |s|
    ensures c !in s[..r]
    ensures r < |s| ==> s[r] == c
  {
    if s == [] then 0
    else if s[0] == c then 0
    else 1 + IndexOf(s[1..], c)
  }

  predicate IsDigit(c: char)
  {
    '0' <= c <= '9'
  }

  /** One or more characters matched by the regular-expression class `\d` (ASCII digits). */
  predicate IsDigits(s: string)
  {
    |s| > 0 && forall i :: 0 <= i < |s| ==> IsDigit(s[i])
  }

  /** The value of one decimal digit. */
  function DigitValue(c: char): (d: nat)
    requires IsDigit(c)
    ensures d < 10
  {
    c as int - '0' as int
  }

  /** `parseInt(s, 10)` on a run of decimal digits: its value, leading zeros included. */
  function DigitsValue(s: string): nat
    requires forall i :: 0 <= i < |s| ==> IsDigit(s[i])
  {
    if s == [] then 0
    else 10 * DigitsValue(s[..|s| - 1]) + DigitValue(s[|s| - 1])
  }

  /** The decimal rendering of `n`, as `n.toString()` and template strings print it. */
  function NatToString(n: nat): (r: string)
    ensures IsDigits(r)
    ensures r[0] == '0' ==> n == 0
  {
    if n < 10 then [('0' as int + n) as char]
    else NatToString(n / 10) + [('0' as int + n % 10) as char]
  }

  lemma {:induction false} ParseNatToString(n: nat)
    ensures DigitsValue(NatToString(n)) == n
  {
    if n >= 10 {
      ParseNatToString(n / 10);
      var s := NatToString(n);
      assert s[..|s| - 1] == NatToString(n / 10);
    }
  }

  /** A leading zero does not change what `parseInt` reads. */
  lemma {:induction false} LeadingZero(s: string)
    requires forall i :: 0 <= i < |s| ==> IsDigit(s[i])
    ensures DigitsValue("0" + s) == DigitsValue(s)
  {
    if s != [] {
      var z := "0" + s;
      assert z[..|z| - 1] == "0" + s[..|s| - 1];
      LeadingZero(s[..|s| - 1]);
    }
  }

  /** The upper-case form of an ASCII lower-case letter; every other character is kept. */
  function UpperChar(c: char): char
  {
    if 'a' <= c <= 'z' then (c as int - 32) as char else c
  }

  /** `s.toUpperCase()` on ASCII letters; other characters are kept. */
  function ToUpper(s: string): (r: string)
    ensures |r| == |s|
    ensures forall i :: 0 <= i < |s| ==> r[i] == UpperChar(s[i])
    ensures forall i :: 0 <= i < |r| ==> !('a' <= r[i] <= 'z')
    ensures forall i :: 0 <= i < |s| && !('a' <= s[i] <= 'z') ==> r[i] == s[i]
    ensures forall i :: 0 <= i < |s| && 'a' <= s[i] <= 'z' ==> 'A' <= r[i] <= 'Z'
  {
    seq(|s|, i requires 0 <= i < |s| => UpperChar(s[i]))
  }

  /** Upper-casing twice is upper-casing once. */
  lemma ToUpperIdempotent(s: string)
    ensures ToUpper(ToUpper(s)) == ToUpper(s)
  {
  }
}
