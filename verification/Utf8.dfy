/**
  UTF-8 as RFC 3629 section 4 defines it, over byte strings (characters below 256): the well-formed sequences,
  the encoding of a code point, and the replacement of what is not well-formed that encoding/json does when it
  writes a string.
 */
module Utf8 {
  predicate IsBytes(s: string) { forall i | 0 <= i < |s| :: s[i] as int < 256 }

  predicate InRange(c: char, low: int, high: int) { low <= c as int <= high }

  predicate IsTail(c: char) { InRange(c, 0x80, 0xBF) }

  /** The length of the character at the start of `s`, or 0 when no well-formed one is there. */
  function RuneLength(s: string): (n: nat)
    ensures n <= |s| && n <= 4
  {
    if s == "" then 0
    else if s[0] as int < 0x80 then 1
    else if |s| < 2 then 0
    else if InRange(s[0], 0xC2, 0xDF) then (if IsTail(s[1]) then 2 else 0)
    else if |s| < 3 then 0
    else if Starts3(s[0], s[1]) then (if IsTail(s[2]) then 3 else 0)
    else if |s| < 4 then 0
    else if Starts4(s[0], s[1]) && IsTail(s[2]) && IsTail(s[3]) then 4
    else 0
  }

  predicate Starts3(a: char, b: char) {
    || (a as int == 0xE0 && InRange(b, 0xA0, 0xBF))
    || (InRange(a, 0xE1, 0xEC) && IsTail(b))
    || (a as int == 0xED && InRange(b, 0x80, 0x9F))
    || (InRange(a, 0xEE, 0xEF) && IsTail(b))
  }

  predicate Starts4(a: char, b: char) {
    || (a as int == 0xF0 && InRange(b, 0x90, 0xBF))
    || (InRange(a, 0xF1, 0xF3) && IsTail(b))
    || (a as int == 0xF4 && InRange(b, 0x80, 0x8F))
  }

  /** utf8.ValidString. */
  predicate ValidUtf8(s: string) {
    s == "" || (RuneLength(s) > 0 && ValidUtf8(s[RuneLength(s)..]))
  }

  /** The bytes of one Unicode scalar value (RFC 3629 section 3). */
  function EncodeRune(cp: nat): (s: string)
    requires cp < 0xD800 || 0xE000 <= cp < 0x11_0000
    ensures RuneLength(s) == |s| > 0
  {
    if cp < 0x80 then [cp as char]
    else if cp < 0x800 then [(0xC0 + cp / 0x40) as char, (0x80 + cp % 0x40) as char]
    else if cp < 0x1_0000 then
      [(0xE0 + cp / 0x1000) as char, (0x80 + cp / 0x40 % 0x40) as char, (0x80 + cp % 0x40) as char]
    else
      [(0xF0 + cp / 0x4_0000) as char, (0x80 + cp / 0x1000 % 0x40) as char,
       (0x80 + cp / 0x40 % 0x40) as char, (0x80 + cp % 0x40) as char]
  }

  predicate IsAscii(s: string) { forall i | 0 <= i < |s| :: s[i] as int < 0x80 }

  lemma RuneLengthPrefix(s: string, t: string)
    requires RuneLength(s) > 0
    ensures RuneLength(s + t) == RuneLength(s)
  {
  }

  lemma {:induction false} ValidUtf8Concat(s: string, t: string)
    requires ValidUtf8(s)
    ensures ValidUtf8(s + t) <==> ValidUtf8(t)
  {
    if s == "" {
      assert s + t == t;
    } else {
      var n := RuneLength(s);
      RuneLengthPrefix(s, t);
      assert (s + t)[n..] == s[n..] + t;
      ValidUtf8Concat(s[n..], t);
    }
  }

  lemma {:induction false} AsciiIsValid(s: string)
    requires IsAscii(s)
    ensures ValidUtf8(s)
  {
    if s != "" { AsciiIsValid(s[1..]); }
  }

  /** A well-formed text can be cut before an ASCII character: no longer character spans it. */
  lemma {:induction false} ValidUtf8Cut(s: string, c: char, t: string)
    requires ValidUtf8(s + ([c] + t)) && c as int < 0x80
    ensures ValidUtf8(s) && ValidUtf8(t)
  {
    var u := s + ([c] + t);
    if s == "" {
      assert u == [c] + t;
      assert u[1..] == t;
    } else {
      var n := RuneLength(u);
      NoRuneSpans(s, c, t);
      hide RuneLength;
      assert u[n..] == s[n..] + ([c] + t);
      ValidUtf8Cut(s[n..], c, t);
    }
  }

  lemma NoRuneSpans(s: string, c: char, t: string)
    requires s != "" && c as int < 0x80 && RuneLength(s + ([c] + t)) > 0
    ensures RuneLength(s) == RuneLength(s + ([c] + t))
  {
    var u := s + ([c] + t);
    var n := RuneLength(u);
    assert u[|s|] == c;
    assert forall i | 0 < i < n :: u[i] as int >= 0x80;
    assert s == u[..|s|];
  }

  /** The text Go makes of a byte string: every byte that starts no well-formed character becomes U+FFFD. */
  function Coerce(s: string): (r: string)
    ensures ValidUtf8(r)
  {
    if s == "" then ""
    else if RuneLength(s) > 0 then
      var n := RuneLength(s);
      assert RuneLength(s[..n]) == n && ValidUtf8(s[..n]) by {
        assert s[..n][n..] == "";
      }
      ValidUtf8Concat(s[..n], Coerce(s[n..]));
      s[..n] + Coerce(s[n..])
    else
      assert ValidUtf8(EncodeRune(0xFFFD)) by {
        assert EncodeRune(0xFFFD)[|EncodeRune(0xFFFD)|..] == "";
      }
      ValidUtf8Concat(EncodeRune(0xFFFD), Coerce(s[1..]));
      EncodeRune(0xFFFD) + Coerce(s[1..])
  }

  lemma {:induction false} CoerceKeepsValid(s: string)
    requires ValidUtf8(s)
    ensures Coerce(s) == s
  {
    if s != "" {
      CoerceKeepsValid(s[RuneLength(s)..]);
    }
  }

  lemma {:induction false} CoerceRune(s: string)
    requires RuneLength(s) > 0
    ensures Coerce(s) == s[..RuneLength(s)] + Coerce(s[RuneLength(s)..])
  {
    hide RuneLength, ValidUtf8, EncodeRune;
  }

  lemma {:induction false} CoerceByte(s: string)
    requires s != "" && RuneLength(s) == 0
    ensures Coerce(s) == EncodeRune(0xFFFD) + Coerce(s[1..])
  {
    hide RuneLength, ValidUtf8, EncodeRune;
  }

  /** Valid text in front is kept as it is. */
  lemma {:induction false} CoerceKeepsPrefix(a: string, b: string)
    requires ValidUtf8(a)
    ensures Coerce(a + b) == a + Coerce(b)
  {
    hide Coerce, RuneLength;
    if a == "" {
      assert a + b == b;
    } else {
      var n := RuneLength(a);
      RuneLengthPrefix(a, b);
      CoerceRune(a + b);
      assert (a + b)[..n] == a[..n] && (a + b)[n..] == a[n..] + b;
      CoerceKeepsPrefix(a[n..], b);
      assert a[..n] + (a[n..] + Coerce(b)) == a + Coerce(b);
    }
  }

  lemma Replacement()
    ensures EncodeRune(0xFFFD) == "\U{00EF}\U{00BF}\U{00BD}"
  {
  }

  lemma OneRune(s: string)
    requires RuneLength(s) > 0
    ensures ValidUtf8(s[..RuneLength(s)])
  {
    var r := s[..RuneLength(s)];
    assert RuneLength(r) == RuneLength(s) && r[RuneLength(r)..] == "";
    hide RuneLength;
  }

  /** A first byte with which no valid text starts is replaced by the three bytes of U+FFFD, and nothing else is. */
  lemma CoerceReplaces(s: string)
    requires s != "" && forall n :: 0 < n <= |s| ==> !ValidUtf8(s[..n])
    ensures Coerce(s) == "\U{00EF}\U{00BF}\U{00BD}" + Coerce(s[1..])
  {
    if RuneLength(s) > 0 { OneRune(s); }
    CoerceByte(s);
    Replacement();
    hide RuneLength, ValidUtf8, Coerce, EncodeRune;
  }

  // ---------- The texts are the sequences of scalar values ----------

  predicate IsScalar(cp: nat) { cp < 0xD800 || 0xE000 <= cp < 0x11_0000 }

  predicate AreScalars(cps: seq<nat>) { forall i :: 0 <= i < |cps| ==> IsScalar(cps[i]) }

  function EncodeAll(cps: seq<nat>): string
    requires AreScalars(cps)
  {
    if cps == [] then "" else EncodeRune(cps[0]) + EncodeAll(cps[1..])
  }

  lemma ThreeBytes(x: nat, y: nat, z: nat)
    requires x < 0x10 && y < 0x40 && z < 0x40
    ensures var cp := x * 0x1000 + y * 0x40 + z; cp / 0x1000 == x && cp / 0x40 % 0x40 == y && cp % 0x40 == z
  {
    assert (x * 0x1000 + y * 0x40 + z) / 0x40 == x * 0x40 + y;
  }

  lemma FourBytes(w: nat, x: nat, y: nat, z: nat)
    requires w < 8 && x < 0x40 && y < 0x40 && z < 0x40
    ensures var cp := w * 0x4_0000 + x * 0x1000 + y * 0x40 + z;
      && cp / 0x4_0000 == w && cp / 0x1000 % 0x40 == x && cp / 0x40 % 0x40 == y && cp % 0x40 == z
  {
    var cp := w * 0x4_0000 + x * 0x1000 + y * 0x40 + z;
    assert cp / 0x40 == w * 0x1000 + x * 0x40 + y;
    assert cp / 0x1000 == w * 0x40 + x;
  }

  /** The scalar value at the start of a text. */
  lemma FirstIsScalar(s: string) returns (cp: nat)
    requires RuneLength(s) > 0
    ensures IsScalar(cp) && s[..RuneLength(s)] == EncodeRune(cp)
  {
    var n := RuneLength(s);
    if n == 1 {
      cp := s[0] as int;
    } else if n == 2 {
      cp := (s[0] as int - 0xC0) * 0x40 + (s[1] as int - 0x80);
    } else if n == 3 {
      cp := ThreeIsScalar(s);
    } else {
      cp := FourIsScalar(s);
    }
  }

  lemma ThreeIsScalar(s: string) returns (cp: nat)
    requires RuneLength(s) == 3
    ensures IsScalar(cp) && s[..3] == EncodeRune(cp)
  {
    var x, y, z := s[0] as int - 0xE0, s[1] as int - 0x80, s[2] as int - 0x80;
    ThreeBytes(x, y, z);
    cp := x * 0x1000 + y * 0x40 + z;
    assert s[..3] == [s[0], s[1], s[2]];
  }

  lemma FourIsScalar(s: string) returns (cp: nat)
    requires RuneLength(s) == 4
    ensures IsScalar(cp) && s[..4] == EncodeRune(cp)
  {
    var w, x, y, z := s[0] as int - 0xF0, s[1] as int - 0x80, s[2] as int - 0x80, s[3] as int - 0x80;
    FourBytes(w, x, y, z);
    cp := w * 0x4_0000 + x * 0x1000 + y * 0x40 + z;
    assert s[..4] == [s[0], s[1], s[2], s[3]];
  }

  /** A byte string is valid exactly when it is what some sequence of scalar values is written as. */
  lemma {:induction false} ValidExactlyWhen(s: string)
    ensures ValidUtf8(s) <==> exists cps :: AreScalars(cps) && EncodeAll(cps) == s
  {
    hide EncodeRune, RuneLength;
    if ValidUtf8(s) {
      var cps := Scalars(s);
    }
    if cps :| AreScalars(cps) && EncodeAll(cps) == s {
      EncodedIsValid(cps);
    }
  }

  lemma {:induction false} Scalars(s: string) returns (cps: seq<nat>)
    requires ValidUtf8(s)
    ensures AreScalars(cps) && EncodeAll(cps) == s
  {
    hide EncodeRune, RuneLength;
    if s == "" {
      cps := [];
    } else {
      var n := RuneLength(s);
      var cp := FirstIsScalar(s);
      var rest := Scalars(s[n..]);
      cps := [cp] + rest;
      assert cps[1..] == rest && s == s[..n] + s[n..];
    }
  }

  lemma {:induction false} EncodedIsValid(cps: seq<nat>)
    requires AreScalars(cps)
    ensures ValidUtf8(EncodeAll(cps))
  {
    hide EncodeRune, RuneLength;
    if cps != [] {
      var r := EncodeRune(cps[0]);
      EncodedIsValid(cps[1..]);
      assert r[|r|..] == "";
      ValidUtf8Concat(r, EncodeAll(cps[1..]));
    }
  }

  /** The examples of RFC 3629 section 7. */
  lemma Examples()
    ensures EncodeRune(0x41) == [0x41 as char] && EncodeRune(0x2262) == [0xE2 as char, 0x89 as char, 0xA2 as char]
    ensures EncodeRune(0x391) == [0xCE as char, 0x91 as char]
    ensures EncodeRune(0x2_33B4) == [0xF0 as char, 0xA3 as char, 0x8E as char, 0xB4 as char]
  {
  }
}
