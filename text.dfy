/** String operations of the .NET base library that the adapter relies on, restricted
    to ASCII: lower-casing, substring search (ordinal and ordinal-ignore-case),
    splitting on a string separator, trimming, and decimal digits. */
module Text {
  import opened Wrappers

  /** `char.IsWhiteSpace` on the ASCII range: space, tab, line feed, vertical tab,
      form feed and carriage return. */
  predicate IsWhiteSpace(c: char) {
    c == ' ' || c == '\t' || c == '\n' || c == '\U{000B}' || c == '\U{000C}' || c == '\r'
  }

  predicate IsDigit(c: char) {
    '0' <= c <= '9'
  }

  predicate AllDigits(s: string) {
    forall i :: 0 <= i < |s| ==> IsDigit(s[i])
  }

  /** `char.ToLowerInvariant` on ASCII: upper-case letters move to lower case, every
      other character is left alone. */
  function LowerChar(c: char): (r: char)
    ensures 'A' <= c <= 'Z' ==> 'a' <= r <= 'z' && r as int == c as int + 32
    ensures !('A' <= c <= 'Z') ==> r == c
  {
    if 'A' <= c <= 'Z' then (c as int + 32) as char else c
  }

  /** `string.ToLower()`: the string with each character lower-cased in place. */
  function ToLower(s: string): (r: string)
    ensures |r| == |s|
    ensures forall i :: 0 <= i < |s| ==> r[i] == LowerChar(s[i])
  {
    seq(|s|, i requires 0 <= i < |s| => LowerChar(s[i]))
  }

  lemma ToLowerAppend(a: string, b: string)
    ensures ToLower(a + b) == ToLower(a) + ToLower(b)
  {
    assert |ToLower(a + b)| == |ToLower(a) + ToLower(b)|;
    forall i | 0 <= i < |a + b|
      ensures ToLower(a + b)[i] == (ToLower(a) + ToLower(b))[i]
    {
      if i < |a| { assert (a + b)[i] == a[i]; } else { assert (a + b)[i] == b[i - |a|]; }
    }
  }

  /** Lower-casing twice is lower-casing once. */
  lemma ToLowerIdempotent(s: string)
    ensures ToLower(ToLower(s)) == ToLower(s)
  {
    assert |ToLower(ToLower(s))| == |ToLower(s)|;
    forall i | 0 <= i < |s| ensures ToLower(ToLower(s))[i] == ToLower(s)[i] { }
  }

  /** The pattern occurs in `s` at index `i`; with `ignoreCase` the comparison is
      `StringComparison.OrdinalIgnoreCase`, otherwise ordinal. */
  predicate MatchAt(s: string, pat: string, i: int, ignoreCase: bool) {
    0 <= i && i + |pat| <= |s| &&
    (if ignoreCase then ToLower(s[i..i + |pat|]) == ToLower(pat) else s[i..i + |pat|] == pat)
  }

  /** `IndexOf(pat)` starting at `from`: the least index at or after `from` where the
      pattern occurs, or None when there is none. */
  function Find(s: string, pat: string, from: nat, ignoreCase: bool): (r: Option<nat>)
    ensures r.Some? ==> from <= r.value && MatchAt(s, pat, r.value, ignoreCase)
    ensures r.Some? ==> forall j :: from <= j < r.value ==> !MatchAt(s, pat, j, ignoreCase)
    ensures r.None? ==> forall j :: from <= j ==> !MatchAt(s, pat, j, ignoreCase)
    decreases |s| - from
  {
    if from + |pat| > |s| then None
    else if MatchAt(s, pat, from, ignoreCase) then Some(from)
    else Find(s, pat, from + 1, ignoreCase)
  }

  /** An occurrence with none before it, from `from` on, is the one `Find` returns. */
  lemma FindFirst(s: string, pat: string, from: nat, i: nat, ignoreCase: bool)
    requires from <= i && MatchAt(s, pat, i, ignoreCase)
    requires forall j :: from <= j < i ==> !MatchAt(s, pat, j, ignoreCase)
    ensures Find(s, pat, from, ignoreCase) == Some(i)
  {
  }

  /** `string.Contains(pat)`, ordinal. */
  predicate Contains(s: string, pat: string) {
    Find(s, pat, 0, false).Some?
  }

  lemma ContainsAt(s: string, pat: string, i: int)
    requires MatchAt(s, pat, i, false)
    ensures Contains(s, pat)
  {
  }

  /** An ordinal occurrence inside a prefix is an occurrence in the whole string. */
  lemma MatchInPrefix(s: string, pat: string, n: nat, j: int)
    requires n <= |s|
    requires MatchAt(s[..n], pat, j, false)
    ensures MatchAt(s, pat, j, false)
  {
    assert s[..n][j..j + |pat|] == s[j..j + |pat|];
  }

  /** An ordinal occurrence inside a suffix is an occurrence in the whole string. */
  lemma MatchInSuffix(s: string, pat: string, n: nat, j: int)
    requires n <= |s|
    requires MatchAt(s[n..], pat, j, false)
    ensures MatchAt(s, pat, n + j, false)
  {
    assert s[n..][j..j + |pat|] == s[n + j..n + j + |pat|];
  }

  /** The parts joined back together with the separator between them. */
  function Join(parts: seq<string>, sep: string): string {
    if |parts| == 0 then "" else if |parts| == 1 then parts[0] else parts[0] + sep + Join(parts[1..], sep)
  }

  /** `Split(new[] { sep }, StringSplitOptions.None)`: cut at every occurrence of the
      separator, scanning left to right, keeping empty parts. */
  function Split(s: string, sep: string): (parts: seq<string>)
    requires |sep| > 0
    ensures |parts| >= 1
    ensures |parts| >= 2 <==> Contains(s, sep)
    ensures Join(parts, sep) == s
    ensures forall k :: 0 <= k < |parts| ==> !Contains(parts[k], sep)
    decreases |s|
  {
    match Find(s, sep, 0, false)
    case None => [s]
    case Some(i) =>
      var rest := Split(s[i + |sep|..], sep);
      var parts := [s[..i]] + rest;
      assert s == s[..i] + sep + s[i + |sep|..];
      assert !Contains(s[..i], sep) by {
        forall j | MatchAt(s[..i], sep, j, false) ensures false { MatchInPrefix(s, sep, i, j); }
      }
      assert forall k :: 1 <= k < |parts| ==> parts[k] == rest[k - 1];
      parts
  }

  /** `TrimStart()`: drop leading white space. */
  function TrimStart(s: string): (r: string)
    ensures |r| <= |s| && r == s[|s| - |r|..]
    ensures forall i :: 0 <= i < |s| - |r| ==> IsWhiteSpace(s[i])
    ensures r == [] || !IsWhiteSpace(r[0])
  {
    if s != [] && IsWhiteSpace(s[0]) then TrimStart(s[1..]) else s
  }

  /** `TrimEnd()`: drop trailing white space. */
  function TrimEnd(s: string): (r: string)
    ensures |r| <= |s| && r == s[..|r|]
    ensures forall i :: |r| <= i < |s| ==> IsWhiteSpace(s[i])
    ensures r == [] || !IsWhiteSpace(r[|r| - 1])
  {
    if s != [] && IsWhiteSpace(s[|s| - 1]) then TrimEnd(s[..|s| - 1]) else s
  }

  /** `Trim()`: drop white space at both ends. */
  function Trim(s: string): (r: string)
    ensures r == [] || (!IsWhiteSpace(r[0]) && !IsWhiteSpace(r[|r| - 1]))
    ensures |TrimStart(s)| >= |r| && r == s[|s| - |TrimStart(s)|..|s| - |TrimStart(s)| + |r|]
    ensures forall i :: 0 <= i < |s| - |TrimStart(s)| ==> IsWhiteSpace(s[i])
    ensures forall i :: |s| - |TrimStart(s)| + |r| <= i < |s| ==> IsWhiteSpace(s[i])
  {
    TrimEnd(TrimStart(s))
  }

  /** Trimming the start drops exactly a white-space prefix. */
  lemma {:induction false} TrimStartSkips(blank: string, rest: string)
    requires forall i :: 0 <= i < |blank| ==> IsWhiteSpace(blank[i])
    requires rest == [] || !IsWhiteSpace(rest[0])
    ensures TrimStart(blank + rest) == rest
  {
    if blank != [] {
      assert (blank + rest)[1..] == blank[1..] + rest;
      TrimStartSkips(blank[1..], rest);
    }
  }

  /** Trimming the end drops exactly a white-space suffix. */
  lemma {:induction false} TrimEndSkips(rest: string, blank: string)
    requires forall i :: 0 <= i < |blank| ==> IsWhiteSpace(blank[i])
    requires rest == [] || !IsWhiteSpace(rest[|rest| - 1])
    ensures TrimEnd(rest + blank) == rest
  {
    if blank != [] {
      assert (rest + blank)[..|rest + blank| - 1] == rest + blank[..|blank| - 1];
      TrimEndSkips(rest, blank[..|blank| - 1]);
    }
  }

  /** Trimming text padded with white space on both sides gives the text back. */
  lemma TrimPadded(lead: string, core: string, trail: string)
    requires forall i :: 0 <= i < |lead| ==> IsWhiteSpace(lead[i])
    requires forall i :: 0 <= i < |trail| ==> IsWhiteSpace(trail[i])
    requires core != [] && !IsWhiteSpace(core[0]) && !IsWhiteSpace(core[|core| - 1])
    ensures Trim(lead + core + trail) == core
  {
    assert lead + core + trail == lead + (core + trail);
    TrimStartSkips(lead, core + trail);
    TrimEndSkips(core, trail);
  }

  /** A string without white space at either end is its own trim. */
  lemma TrimNoWhiteSpace(s: string)
    requires s == [] || (!IsWhiteSpace(s[0]) && !IsWhiteSpace(s[|s| - 1]))
    ensures Trim(s) == s
  {
  }

  function DigitValue(c: char): (d: nat)
    requires IsDigit(c)
    ensures d < 10
  {
    (c as int - '0' as int)
  }

  function DigitChar(d: nat): (c: char)
    requires d < 10
    ensures IsDigit(c) && DigitValue(c) == d
  {
    (d + '0' as int) as char
  }

  /** The value of a string of decimal digits, most significant first. */
  function DigitsValue(s: string): (n: nat)
    requires AllDigits(s)
  {
    if s == [] then 0 else DigitsValue(s[..|s| - 1]) * 10 + DigitValue(s[|s| - 1])
  }

  /** The decimal rendering of a natural number (`long.ToString()` on non-negative values). */
  function ToDecimal(n: nat): (s: string)
    ensures |s| > 0 && AllDigits(s)
  {
    if n < 10 then [DigitChar(n)] else ToDecimal(n / 10) + [DigitChar(n % 10)]
  }

  /** Rendering a number and reading it back gives the number. */
  lemma {:induction false} DigitsValueToDecimal(n: nat)
    ensures DigitsValue(ToDecimal(n)) == n
  {
    var s := ToDecimal(n);
    if n >= 10 {
      DigitsValueToDecimal(n / 10);
      assert s[..|s| - 1] == ToDecimal(n / 10);
    }
  }

  /** The end of the maximal run of digits that starts at `from`. */
  function DigitRunEnd(s: string, from: nat): (e: nat)
    requires from <= |s|
    ensures from <= e <= |s|
    ensures forall i :: from <= i < e ==> IsDigit(s[i])
    ensures e == |s| || !IsDigit(s[e])
    decreases |s| - from
  {
    if from < |s| && IsDigit(s[from]) then DigitRunEnd(s, from + 1) else from
  }

  /** The digit run of a string made of digits followed by a non-digit (or nothing)
      is exactly those digits. */
  lemma DigitRunOfDigits(s: string, from: nat, digits: string)
    requires from + |digits| <= |s| && s[from..from + |digits|] == digits && AllDigits(digits)
    requires from + |digits| == |s| || !IsDigit(s[from + |digits|])
    ensures DigitRunEnd(s, from) == from + |digits|
    decreases |digits|
  {
    if |digits| > 0 {
      assert s[from] == digits[0];
      assert s[from + 1..from + |digits|] == digits[1..];
      DigitRunOfDigits(s, from + 1, digits[1..]);
    }
  }
}
