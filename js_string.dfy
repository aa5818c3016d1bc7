/**
 * The ECMAScript string operations the application relies on: `trim`, `startsWith`,
 * `includes`, `slice` and the part of `toLowerCase` that matters when the result is
 * matched against lower-case ASCII words.
 */
module JsString {

  /** WhiteSpace and LineTerminator code points of ECMAScript (the set `String.prototype.trim` removes). */
  predicate IsTrimmable(c: char) {
    c == '\t' || c == '\U{000B}' || c == '\U{000C}' || c == ' ' || c == '\U{00A0}' || c == '\U{FEFF}' ||
    c == '\n' || c == '\r' || c == '\U{2028}' || c == '\U{2029}' ||
    c == '\U{1680}' || ('\U{2000}' <= c <= '\U{200A}') || c == '\U{202F}' || c == '\U{205F}' || c == '\U{3000}'
  }

  /** The number of trimmable characters at the start of `s`. */
  function LeadingCount(s: string): (n: nat)
    ensures n <= |s|
    ensures forall k :: 0 <= k < n ==> IsTrimmable(s[k])
    ensures n < |s| ==> !IsTrimmable(s[n])
  {
    if s == [] || !IsTrimmable(s[0]) then 0 else 1 + LeadingCount(s[1..])
  }

  /** The number of trimmable characters at the end of `s`. */
  function TrailingCount(s: string): (n: nat)
    ensures n <= |s|
    ensures forall k :: |s| - n <= k < |s| ==> IsTrimmable(s[k])
    ensures n < |s| ==> !IsTrimmable(s[|s| - n - 1])
  {
    if s == [] || !IsTrimmable(s[|s| - 1]) then 0 else 1 + TrailingCount(s[..|s| - 1])
  }

  /** `s.trim()`. */
  function Trim(s: string): (r: string)
    ensures |r| <= |s|
  {
    var t := s[LeadingCount(s)..];
    t[..|t| - TrailingCount(t)]
  }

  /** `Trim(s)` is `s[i..j]` and only whitespace lies outside it. */
  predicate TrimmedAt(s: string, i: int, j: int) {
    0 <= i <= j <= |s| && Trim(s) == s[i..j] &&
    (forall k :: 0 <= k < i ==> IsTrimmable(s[k])) &&
    (forall k :: j <= k < |s| ==> IsTrimmable(s[k]))
  }

  /**
   * What `trim` removes and keeps: the result is a contiguous part of `s`, everything
   * cut off on either side is whitespace, and a non-empty result starts and ends with
   * a character that is not.
   */
  lemma TrimSpec(s: string)
    ensures exists i, j :: TrimmedAt(s, i, j)
    ensures Trim(s) != [] ==> !IsTrimmable(Trim(s)[0]) && !IsTrimmable(Trim(s)[|Trim(s)| - 1])
  {
    var i := LeadingCount(s);
    var t := s[i..];
    var j := i + |t| - TrailingCount(t);
    assert Trim(s) == s[i..j];
    forall k | j <= k < |s| ensures IsTrimmable(s[k]) {
      assert s[k] == t[k - i];
    }
    assert TrimmedAt(s, i, j);
  }

  /** A trimmed string is empty exactly when the input is all whitespace. */
  lemma TrimEmptyIff(s: string)
    ensures Trim(s) == [] <==> forall k :: 0 <= k < |s| ==> IsTrimmable(s[k])
  {
    TrimSpec(s);
    if Trim(s) == [] {
      var i, j :| TrimmedAt(s, i, j);
      assert i == j;
    }
  }

  /** Trimming twice is trimming once. */
  lemma {:induction false} TrimIdempotent(s: string)
    ensures Trim(Trim(s)) == Trim(s)
  {
    var r := Trim(s);
    TrimSpec(s);
    if r != [] {
      assert LeadingCount(r) == 0;
      assert TrailingCount(r) == 0;
    }
  }

  /** `s.length`: UTF-16 code units, two for a character outside the Basic Multilingual Plane. */
  function Utf16Length(s: string): (n: nat)
    ensures |s| <= n <= 2 * |s|
  {
    if s == [] then 0 else Utf16Length(s[..|s| - 1]) + Utf16Width(s[|s| - 1])
  }

  /** On text within the Basic Multilingual Plane (ASCII, for one) the length is the number of characters. */
  lemma {:induction false} Utf16LengthOfBmp(s: string)
    requires forall k :: 0 <= k < |s| ==> s[k] as int <= 0xFFFF
    ensures Utf16Length(s) == |s|
  {
    if s != [] {
      Utf16LengthOfBmp(s[..|s| - 1]);
    }
  }

  /** `s.startsWith(prefix)`. */
  predicate StartsWith(s: string, prefix: string) {
    |prefix| <= |s| && s[..|prefix|] == prefix
  }

  /** `t` occurs in `s` starting at index `i`. */
  predicate OccursAt(s: string, t: string, i: int) {
    0 <= i <= |s| - |t| && s[i..i + |t|] == t
  }

  /** `s.includes(t)`. */
  predicate Includes(s: string, t: string)
    decreases |s|
  {
    StartsWith(s, t) || (s != [] && Includes(s[1..], t))
  }

  /** `includes` finds an occurrence exactly when there is one. */
  lemma {:induction false} IncludesIff(s: string, t: string)
    ensures Includes(s, t) <==> exists i :: OccursAt(s, t, i)
    decreases |s|
  {
    if StartsWith(s, t) {
      assert OccursAt(s, t, 0);
    } else if s != [] {
      IncludesIff(s[1..], t);
      if exists i :: OccursAt(s, t, i) {
        var i :| OccursAt(s, t, i);
        assert i > 0;
        assert s[1..][i - 1..i - 1 + |t|] == s[i..i + |t|];
        assert OccursAt(s[1..], t, i - 1);
      }
      if Includes(s[1..], t) {
        var i :| OccursAt(s[1..], t, i);
        assert s[i + 1..i + 1 + |t|] == s[1..][i..i + |t|];
        assert OccursAt(s, t, i + 1);
      }
    } else {
      assert forall i :: !OccursAt(s, t, i);
    }
  }

  /** The number of UTF-16 code units of one character. */
  function Utf16Width(c: char): (w: nat)
    ensures w == 1 || w == 2
  {
    if c as int > 0xFFFF then 2 else 1
  }

  /** The length counted from the front. */
  lemma {:induction false} Utf16LengthCons(c: char, t: string)
    ensures Utf16Length([c] + t) == Utf16Width(c) + Utf16Length(t)
    decreases |t|
  {
    if t != [] {
      var u := [c] + t;
      assert u[..|u| - 1] == [c] + t[..|t| - 1];
      Utf16LengthCons(c, t[..|t| - 1]);
    }
  }

  /**
   * `s.slice(0, n)` for `n >= 0`, counted in UTF-16 code units: the longest prefix of
   * `s` whose length is at most `n`.
   */
  function Utf16Slice(s: string, n: nat): (r: string)
    ensures |r| <= |s| && r == s[..|r|]
    decreases |s|
  {
    if s == [] || Utf16Width(s[0]) > n then []
    else [s[0]] + Utf16Slice(s[1..], n - Utf16Width(s[0]))
  }

  /**
   * The slice keeps at most `n` code units, all of `s` when it fits, and otherwise
   * falls short of `n` only when the next character needs two units and one remains.
   */
  lemma {:induction false} Utf16SliceSpec(s: string, n: nat)
    ensures var r := Utf16Slice(s, n);
      Utf16Length(r) <= n &&
      (Utf16Length(s) <= n ==> r == s) &&
      (r != s ==> Utf16Length(r) + Utf16Width(s[|r|]) > n)
    decreases |s|
  {
    if s != [] && Utf16Width(s[0]) <= n {
      var c, rest := s[0], s[1..];
      var m := n - Utf16Width(c);
      var t := Utf16Slice(rest, m);
      assert Utf16Slice(s, n) == [c] + t;
      assert s == [c] + rest;
      Utf16SliceSpec(rest, m);
      Utf16LengthCons(c, rest);
      Utf16LengthCons(c, t);
      if t != rest {
        assert s[|t| + 1] == rest[|t|];
      }
    }
  }

  /** Within the Basic Multilingual Plane the slice is the first `n` characters. */
  lemma {:induction false} Utf16SliceOfBmp(s: string, n: nat)
    requires forall k :: 0 <= k < |s| ==> s[k] as int <= 0xFFFF
    ensures Utf16Slice(s, n) == if |s| <= n then s else s[..n]
    decreases |s|
  {
    if s != [] && n > 0 {
      Utf16SliceOfBmp(s[1..], n - 1);
      if |s| > n {
        assert [s[0]] + s[1..][..n - 1] == s[..n];
      } else {
        assert [s[0]] + s[1..] == s;
      }
    }
  }

  /**
   * `toLowerCase` as far as ASCII matching can tell: ASCII capitals become small
   * letters, KELVIN SIGN becomes `k`, LATIN CAPITAL LETTER I WITH DOT ABOVE becomes
   * `i` followed by U+0307, and every other character keeps its code.  The only
   * other changes Unicode's case mapping makes turn non-ASCII characters into
   * non-ASCII characters, which cannot take part in a match of an ASCII word.
   */
  function LowerForMatch(s: string): (r: string)
  {
    if s == [] then [] else LowerChar(s[0]) + LowerForMatch(s[1..])
  }

  /** One character of `LowerForMatch`. */
  function LowerChar(c: char): string {
    if 'A' <= c <= 'Z' then [(c as int + 32) as char]
    else if c == '\U{212A}' then "k"
    else if c == '\U{0130}' then "i\U{0307}"
    else [c]
  }

  /** Lower-casing keeps ASCII text free of capitals and is the identity on it. */
  lemma {:induction false} LowerForMatchOfLower(s: string)
    requires forall k :: 0 <= k < |s| ==> !('A' <= s[k] <= 'Z') && s[k] != '\U{212A}' && s[k] != '\U{0130}'
    ensures LowerForMatch(s) == s
  {
    if s != [] {
      LowerForMatchOfLower(s[1..]);
    }
  }

  /** Lower-casing works character by character. */
  lemma {:induction false} LowerForMatchAppend(a: string, b: string)
    ensures LowerForMatch(a + b) == LowerForMatch(a) + LowerForMatch(b)
  {
    if a == [] {
      assert a + b == b;
    } else {
      var ab := a + b;
      assert ab[0] == a[0];
      assert ab[1..] == a[1..] + b;
      LowerForMatchAppend(a[1..], b);
      calc {
        LowerForMatch(ab);
        LowerChar(a[0]) + LowerForMatch(a[1..] + b);
        LowerChar(a[0]) + (LowerForMatch(a[1..]) + LowerForMatch(b));
        (LowerChar(a[0]) + LowerForMatch(a[1..])) + LowerForMatch(b);
      }
    }
  }

  /** Lower-casing twice is lower-casing once. */
  lemma {:induction false} LowerForMatchIdempotent(s: string)
    ensures LowerForMatch(LowerForMatch(s)) == LowerForMatch(s)
  {
    if s != [] {
      LowerForMatchAppend(LowerChar(s[0]), LowerForMatch(s[1..]));
      LowerForMatchOfLower(LowerChar(s[0]));
      LowerForMatchIdempotent(s[1..]);
    }
  }

  /** Only the empty string lower-cases to the empty string. */
  lemma LowerForMatchEmpty(s: string)
    ensures LowerForMatch(s) == [] <==> s == []
  {
  }
}
