/**
 * Base64 as the browser's `btoa`/`atob` implement it: the encoding of section 4 of
 * RFC 4648 (alphabet of Table 1, `=` padding), applied to "binary strings" whose
 * characters all have codes at most 255, and the WHATWG forgiving-base64 decoder
 * behind `atob` (ASCII whitespace ignored, padding optional, failure instead of an
 * exception).
 */
module Base64 {
  import opened Wrappers

  /** A `Uint8Array` element. */
  type byte = x: int | 0 <= x < 256

  /** A 6-bit group of the encoding. */
  type sextet = x: int | 0 <= x < 64

  /** A character of the 64-character alphabet of RFC 4648, Table 1. */
  predicate IsAlphabetChar(c: char) {
    ('A' <= c <= 'Z') || ('a' <= c <= 'z') || ('0' <= c <= '9') || c == '+' || c == '/'
  }

  /** Table 1 of RFC 4648: the character that encodes the 6-bit value `x`. */
  function SextetChar(n: sextet): char {
    if n < 26 then ('A' as int + n) as char
    else if n < 52 then ('a' as int + (n - 26)) as char
    else if n < 62 then ('0' as int + (n - 52)) as char
    else if n == 62 then '+'
    else '/'
  }

  /** The inverse of Table 1: the 6-bit value an alphabet character stands for. */
  function CharValue(c: char): (x: sextet)
    requires IsAlphabetChar(c)
    ensures SextetChar(x) == c
  {
    if 'A' <= c <= 'Z' then c as int - 'A' as int
    else if 'a' <= c <= 'z' then c as int - 'a' as int + 26
    else if '0' <= c <= '9' then c as int - '0' as int + 52
    else if c == '+' then 62
    else 63
  }

  lemma CharValueOfSextet(x: sextet)
    ensures IsAlphabetChar(SextetChar(x)) && CharValue(SextetChar(x)) == x
  {
  }

  /** A JavaScript "binary string": every code unit is at most 255. */
  predicate IsBinaryString(s: string) {
    forall i :: 0 <= i < |s| ==> s[i] as int <= 255
  }

  /** The binary string whose character `i` has code `b[i]` (what `String.fromCharCode` builds). */
  function BinaryString(b: seq<byte>): (s: string)
    ensures |s| == |b| && IsBinaryString(s)
    ensures forall i :: 0 <= i < |b| ==> s[i] as int == b[i]
  {
    seq(|b|, i requires 0 <= i < |b| => b[i] as char)
  }

  /** The bytes of a binary string: byte `i` is the code of character `i`. */
  function Latin1Bytes(s: string): (b: seq<byte>)
    requires IsBinaryString(s)
    ensures |b| == |s|
    ensures forall i :: 0 <= i < |s| ==> b[i] == s[i] as int
  {
    seq(|s|, i requires 0 <= i < |s| && s[i] as int <= 255 => s[i] as int)
  }

  lemma {:induction false} Latin1OfBinary(b: seq<byte>)
    ensures Latin1Bytes(BinaryString(b)) == b
  {
    var s := BinaryString(b);
    var back := Latin1Bytes(s);
    assert |back| == |b|;
    forall i | 0 <= i < |b| ensures back[i] == b[i] {
      assert back[i] as int == s[i] as int == b[i];
    }
  }

  /** Four characters for three bytes: section 4 of RFC 4648, 24-bit groups. */
  function EncodeGroup(b0: byte, b1: byte, b2: byte): string {
    [SextetChar(b0 / 4),
     SextetChar((b0 % 4) * 16 + b1 / 16),
     SextetChar((b1 % 16) * 4 + b2 / 64),
     SextetChar(b2 % 64)]
  }

  /** The encoding of `b` without its trailing `=` padding: four characters per three bytes. */
  function EncodeUnpadded(b: seq<byte>): (s: string)
    decreases |b|
  {
    if |b| == 0 then ""
    else if |b| == 1 then [SextetChar(b[0] / 4), SextetChar((b[0] % 4) * 16)]
    else if |b| == 2 then
      [SextetChar(b[0] / 4), SextetChar((b[0] % 4) * 16 + b[1] / 16), SextetChar((b[1] % 16) * 4)]
    else EncodeGroup(b[0], b[1], b[2]) + EncodeUnpadded(b[3..])
  }

  /** Four characters per three bytes, the last group cut short. */
  lemma {:induction false} EncodeUnpaddedLength(b: seq<byte>)
    ensures |EncodeUnpadded(b)| == (4 * |b| + 2) / 3
    decreases |b|
  {
    if |b| >= 3 {
      EncodeUnpaddedLength(b[3..]);
    }
  }

  predicate AllAlphabet(d: string) {
    forall i :: 0 <= i < |d| ==> IsAlphabetChar(d[i])
  }

  lemma AllAlphabetConcat(x: string, y: string)
    requires AllAlphabet(x) && AllAlphabet(y)
    ensures AllAlphabet(x + y)
  {
    forall i | 0 <= i < |x + y| ensures IsAlphabetChar((x + y)[i]) {
      if i < |x| {
        assert (x + y)[i] == x[i];
      } else {
        assert (x + y)[i] == y[i - |x|];
      }
    }
  }

  /** Unpadded encodings are alphabet text whose length is never 1 modulo 4. */
  lemma EncodeUnpaddedAlphabet(b: seq<byte>)
    ensures AllAlphabet(EncodeUnpadded(b)) && |EncodeUnpadded(b)| % 4 != 1
  {
    EncodeUnpaddedIsAlphabet(b);
    EncodeUnpaddedLength(b);
    UnpaddedLengthMod(|b|);
  }

  lemma {:induction false} EncodeUnpaddedIsAlphabet(b: seq<byte>)
    ensures AllAlphabet(EncodeUnpadded(b))
    decreases |b|
  {
    if |b| >= 3 {
      EncodeUnpaddedIsAlphabet(b[3..]);
      AllAlphabetConcat(EncodeGroup(b[0], b[1], b[2]), EncodeUnpadded(b[3..]));
    }
  }

  /** Four characters per three bytes, rounded up, is never 1 modulo 4. */
  lemma UnpaddedLengthMod(n: nat)
    ensures ((4 * n + 2) / 3) % 4 != 1
  {
    var q, r := n / 3, n % 3;
    assert n == 3 * q + r;
    assert (4 * n + 2) / 3 == 4 * q + (4 * r + 2) / 3;
  }

  /** The padding that completes the last quantum: "==" after one byte, "=" after two. */
  function Padding(n: nat): string {
    if n % 3 == 1 then "==" else if n % 3 == 2 then "=" else ""
  }

  /** Base64 encoding of `b` (section 4 of RFC 4648, padded). */
  function Encode(b: seq<byte>): string {
    EncodeUnpadded(b) + Padding(|b|)
  }

  /** An encoding is four characters per started group of three bytes. */
  lemma EncodeLength(b: seq<byte>)
    ensures |Encode(b)| == 4 * ((|b| + 2) / 3)
    ensures |Encode(b)| % 4 == 0 && (|b| > 0 ==> |Encode(b)| >= 4)
  {
    EncodeUnpaddedLength(b);
    assert |Padding(|b|)| == if |b| % 3 == 1 then 2 else if |b| % 3 == 2 then 1 else 0;
    PaddedLengthArithmetic(|b|);
  }

  lemma PaddedLengthArithmetic(n: nat)
    ensures (4 * n + 2) / 3 + (if n % 3 == 1 then 2 else if n % 3 == 2 then 1 else 0) == 4 * ((n + 2) / 3)
    ensures (4 * ((n + 2) / 3)) % 4 == 0 && (n > 0 ==> (n + 2) / 3 >= 1)
  {
    var q, r := n / 3, n % 3;
    DivideByThree(n, q, r);
    DivideByFour(4 * ((n + 2) / 3), (n + 2) / 3, 0);
    if r == 0 {
      DivideByThree(4 * n + 2, 4 * q, 2);
      DivideByThree(n + 2, q, 2);
    } else if r == 1 {
      DivideByThree(4 * n + 2, 4 * q + 2, 0);
      DivideByThree(n + 2, q + 1, 0);
    } else {
      DivideByThree(4 * n + 2, 4 * q + 3, 1);
      DivideByThree(n + 2, q + 1, 1);
    }
  }

  lemma DivideByFour(x: int, q: int, r: int)
    requires x == 4 * q + r && 0 <= r < 4
    ensures x / 4 == q && x % 4 == r
  {
  }

  lemma DivideByThree(x: int, q: int, r: int)
    requires x == 3 * q + r && 0 <= r < 3
    ensures x / 3 == q && x % 3 == r
  {
  }

  /** Every character of an encoding is an alphabet character or the pad character. */
  lemma EncodeCharset(b: seq<byte>)
    ensures forall i :: 0 <= i < |Encode(b)| ==> IsAlphabetChar(Encode(b)[i]) || Encode(b)[i] == '='
  {
    var u := EncodeUnpadded(b);
    var e := Encode(b);
    EncodeUnpaddedAlphabet(b);
    assert e == u + Padding(|b|);
    forall i | 0 <= i < |e| ensures IsAlphabetChar(e[i]) || e[i] == '=' {
      if i < |u| {
        assert e[i] == u[i];
      } else {
        assert e[i] == Padding(|b|)[i - |u|];
      }
    }
  }

  /** `btoa`: the encoding of the bytes of a binary string; a code above 255 throws. */
  function Btoa(s: string): (r: Option<string>)
    ensures r.Some? <==> IsBinaryString(s)
  {
    if IsBinaryString(s) then Some(Encode(Latin1Bytes(s))) else None
  }

  /** ASCII whitespace as the forgiving-base64 decoder strips it. */
  predicate IsAsciiWhitespace(c: char) {
    c == '\t' || c == '\n' || c == '\U{000C}' || c == '\r' || c == ' '
  }

  function RemoveAsciiWhitespace(s: string): (r: string)
    ensures forall i :: 0 <= i < |r| ==> !IsAsciiWhitespace(r[i])
    ensures |r| <= |s|
  {
    if s == [] then []
    else if IsAsciiWhitespace(s[0]) then RemoveAsciiWhitespace(s[1..])
    else [s[0]] + RemoveAsciiWhitespace(s[1..])
  }

  /** Removes one or two trailing `=` (applied only to input whose length is a multiple of four). */
  function StripPadding(d: string): (r: string)
    ensures |r| <= |d| && r == d[..|r|]
  {
    if |d| >= 2 && d[|d| - 1] == '=' && d[|d| - 2] == '=' then d[..|d| - 2]
    else if |d| >= 1 && d[|d| - 1] == '=' then d[..|d| - 1]
    else d
  }

  /** The bytes of one quantum of two to four characters; bits beyond the last whole byte are dropped. */
  function DecodeQuantum(q: string): (b: seq<byte>)
    requires AllAlphabet(q) && 2 <= |q| <= 4
    ensures |b| == |q| - 1
  {
    var v0, v1 := CharValue(q[0]), CharValue(q[1]);
    if |q| == 2 then [v0 * 4 + v1 / 16]
    else
      var v2 := CharValue(q[2]);
      if |q| == 3 then [v0 * 4 + v1 / 16, (v1 % 16) * 16 + v2 / 4]
      else [v0 * 4 + v1 / 16, (v1 % 16) * 16 + v2 / 4, (v2 % 4) * 64 + CharValue(q[3])]
  }

  /** The bytes of unpadded alphabet text: 24 bits per four characters. */
  function DecodeChars(d: string): (b: seq<byte>)
    requires AllAlphabet(d) && |d| % 4 != 1
    decreases |d|
  {
    if |d| == 0 then []
    else if |d| <= 4 then DecodeQuantum(d)
    else DecodeQuantum(d[..4]) + DecodeChars(d[4..])
  }

  /** `atob`: the WHATWG forgiving-base64 decode; `None` is the thrown InvalidCharacterError. */
  function Atob(s: string): (r: Option<string>)
    ensures r.Some? ==> IsBinaryString(r.value)
  {
    var d := RemoveAsciiWhitespace(s);
    var d1 := if |d| % 4 == 0 then StripPadding(d) else d;
    if |d1| % 4 == 1 || !AllAlphabet(d1) then None
    else Some(BinaryString(DecodeChars(d1)))
  }

  /** The bit arithmetic of one 24-bit group: the four sextets give back the three bytes. */
  lemma GroupArithmetic(b0: byte, b1: byte, b2: byte)
    ensures var c1, c2 := (b0 % 4) * 16 + b1 / 16, (b1 % 16) * 4 + b2 / 64;
      c1 < 64 && c2 < 64 &&
      (b0 / 4) * 4 + c1 / 16 == b0 && (c1 % 16) * 16 + c2 / 4 == b1 && (c2 % 4) * 64 + b2 % 64 == b2
  {
  }

  lemma GroupRoundTrip(b0: byte, b1: byte, b2: byte)
    ensures var g := EncodeGroup(b0, b1, b2);
      AllAlphabet(g) && |g| == 4 && DecodeQuantum(g) == [b0, b1, b2]
  {
    GroupArithmetic(b0, b1, b2);
    var c0, c1, c2, c3 := b0 / 4, (b0 % 4) * 16 + b1 / 16, (b1 % 16) * 4 + b2 / 64, b2 % 64;
    CharValueOfSextet(c0);
    CharValueOfSextet(c1);
    CharValueOfSextet(c2);
    CharValueOfSextet(c3);
    var g := EncodeGroup(b0, b1, b2);
    assert g == [SextetChar(c0), SextetChar(c1), SextetChar(c2), SextetChar(c3)];
    assert DecodeQuantum(g) == [c0 * 4 + c1 / 16, (c1 % 16) * 16 + c2 / 4, (c2 % 4) * 64 + c3];
  }

  lemma TailRoundTrip1(b0: byte)
    ensures DecodeQuantum([SextetChar(b0 / 4), SextetChar((b0 % 4) * 16)]) == [b0]
  {
    CharValueOfSextet(b0 / 4);
    CharValueOfSextet((b0 % 4) * 16);
  }

  lemma TailRoundTrip2(b0: byte, b1: byte)
    ensures DecodeQuantum([SextetChar(b0 / 4), SextetChar((b0 % 4) * 16 + b1 / 16), SextetChar((b1 % 16) * 4)])
      == [b0, b1]
  {
    CharValueOfSextet(b0 / 4);
    CharValueOfSextet((b0 % 4) * 16 + b1 / 16);
    CharValueOfSextet((b1 % 16) * 4);
  }

  /** Decoding works quantum by quantum: a leading group of four decodes on its own. */
  lemma DecodeGroupThenRest(g: string, rest: string)
    requires |g| == 4 && AllAlphabet(g) && AllAlphabet(rest) && |rest| % 4 != 1
    ensures AllAlphabet(g + rest) && DecodeChars(g + rest) == DecodeQuantum(g) + DecodeChars(rest)
  {
    AllAlphabetConcat(g, rest);
    var e := g + rest;
    assert e[..4] == g && e[4..] == rest;
    if rest == [] {
      assert e == g;
    }
  }

  lemma EncodeUnpaddedStep(b: seq<byte>)
    requires |b| >= 3
    ensures EncodeUnpadded(b) == EncodeGroup(b[0], b[1], b[2]) + EncodeUnpadded(b[3..])
  {
  }

  /** One induction step of the round trip: a leading group of three bytes and the rest. */
  lemma DecodeEncodeStep(b: seq<byte>)
    requires |b| >= 3
    requires AllAlphabet(EncodeUnpadded(b)) && |EncodeUnpadded(b)| % 4 != 1
    requires AllAlphabet(EncodeUnpadded(b[3..])) && |EncodeUnpadded(b[3..])| % 4 != 1
    requires DecodeChars(EncodeUnpadded(b[3..])) == b[3..]
    ensures DecodeChars(EncodeUnpadded(b)) == b
  {
    var g := EncodeGroup(b[0], b[1], b[2]);
    var rest := EncodeUnpadded(b[3..]);
    EncodeUnpaddedStep(b);
    assert AllAlphabet(g + rest) && DecodeChars(g + rest) == [b[0], b[1], b[2]] + b[3..] by {
      GroupRoundTrip(b[0], b[1], b[2]);
      DecodeGroupThenRest(g, rest);
    }
    assert b == [b[0], b[1], b[2]] + b[3..];
  }

  lemma {:induction false} DecodeEncodeUnpadded(b: seq<byte>)
    ensures AllAlphabet(EncodeUnpadded(b)) && |EncodeUnpadded(b)| % 4 != 1
    ensures DecodeChars(EncodeUnpadded(b)) == b
    decreases |b|
  {
    EncodeUnpaddedAlphabet(b);
    if |b| == 1 {
      TailRoundTrip1(b[0]);
    } else if |b| == 2 {
      TailRoundTrip2(b[0], b[1]);
    } else if |b| >= 3 {
      DecodeEncodeUnpadded(b[3..]);
      EncodeUnpaddedAlphabet(b[3..]);
      DecodeEncodeStep(b);
    }
  }

  /** The decoder's padding removal takes an encoding back to its unpadded form. */
  lemma StripPaddingOfEncode(b: seq<byte>)
    ensures StripPadding(Encode(b)) == EncodeUnpadded(b)
  {
    var u := EncodeUnpadded(b);
    var e := Encode(b);
    assert e == u + Padding(|b|);
    EncodeUnpaddedAlphabet(b);
    if |b| % 3 == 0 {
      assert e == u;
      if |u| > 0 {
        assert e[|e| - 1] == u[|u| - 1];
        assert IsAlphabetChar(u[|u| - 1]);
      }
    } else if |b| % 3 == 1 {
      assert e[..|e| - 2] == u;
    } else {
      assert |u| >= 1 && e[|e| - 2] == u[|u| - 1];
      assert IsAlphabetChar(u[|u| - 1]);
      assert e[..|e| - 1] == u;
    }
  }

  lemma {:induction false} NoWhitespaceUnchanged(s: string)
    requires forall i :: 0 <= i < |s| ==> !IsAsciiWhitespace(s[i])
    ensures RemoveAsciiWhitespace(s) == s
  {
    if s != [] {
      NoWhitespaceUnchanged(s[1..]);
    }
  }

  /** `atob` inverts the encoding: it yields the binary string of the encoded bytes. */
  lemma AtobOfEncode(b: seq<byte>)
    ensures Atob(Encode(b)) == Some(BinaryString(b))
  {
    var e := Encode(b);
    EncodeIsClean(b);
    StripPaddingOfEncode(b);
    DecodeEncodeUnpadded(b);
    var u := EncodeUnpadded(b);
    assert StripPadding(e) == u;
    assert Atob(e) == Some(BinaryString(DecodeChars(u)));
  }

  /** An encoding has no whitespace for the decoder to strip, and whole quanta. */
  lemma EncodeIsClean(b: seq<byte>)
    ensures RemoveAsciiWhitespace(Encode(b)) == Encode(b) && |Encode(b)| % 4 == 0
  {
    var e := Encode(b);
    assert forall i :: 0 <= i < |e| ==> !IsAsciiWhitespace(e[i]) by {
      EncodeCharset(b);
    }
    NoWhitespaceUnchanged(e);
    assert |e| % 4 == 0 by {
      EncodeLength(b);
    }
  }

  /** The round trip of the two JavaScript primitives on any binary string. */
  lemma AtobBtoa(s: string)
    requires IsBinaryString(s)
    ensures Btoa(s).Some? && Atob(Btoa(s).value) == Some(s)
  {
    var b := Latin1Bytes(s);
    AtobOfEncode(b);
    assert BinaryString(b) == s;
  }
}
