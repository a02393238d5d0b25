/** Go's TrimSpace: the white space of Unicode, in UTF-8. */
module UnicodeSpace {
  import opened Utf8
  import AsciiSpace

  /** The length of the Unicode white space character at the start, or 0. */
  function SpaceLength(s: string): (n: nat)
    ensures n <= |s|
  {
    if s == "" then 0
    else if AsciiSpace.IsSpace(s[0]) then 1
    else if |s| >= 2 && s[0] as int == 0xC2 && (s[1] as int == 0x85 || s[1] as int == 0xA0) then 2
    else if |s| >= 3 && s[0] as int == 0xE1 && s[1] as int == 0x9A && s[2] as int == 0x80 then 3
    else if |s| >= 3 && s[0] as int == 0xE2 && s[1] as int == 0x80
      && (InRange(s[2], 0x80, 0x8A) || s[2] as int == 0xA8 || s[2] as int == 0xA9 || s[2] as int == 0xAF) then 3
    else if |s| >= 3 && s[0] as int == 0xE2 && s[1] as int == 0x81 && s[2] as int == 0x9F then 3
    else if |s| >= 3 && s[0] as int == 0xE3 && s[1] as int == 0x80 && s[2] as int == 0x80 then 3
    else 0
  }

  function SkipSpaces(s: string): string { if SpaceLength(s) > 0 then SkipSpaces(s[SpaceLength(s)..]) else s }

  /** The length of the white space character at the end, or 0. */
  function TrailingLength(s: string): (n: nat)
    ensures n <= |s|
  {
    if |s| >= 1 && SpaceLength(s[|s| - 1..]) == 1 then 1
    else if |s| >= 2 && SpaceLength(s[|s| - 2..]) == 2 then 2
    else if |s| >= 3 && SpaceLength(s[|s| - 3..]) == 3 then 3
    else 0
  }

  function DropTrailing(s: string): (r: string)
    ensures r <= s && TrailingLength(r) == 0
  {
    if TrailingLength(s) > 0 then DropTrailing(s[..|s| - TrailingLength(s)]) else s
  }

  function TrimSpace(s: string): string { DropTrailing(SkipSpaces(s)) }

  lemma {:induction false} SkippedAll(s: string)
    ensures SpaceLength(SkipSpaces(s)) == 0 && |SkipSpaces(s)| <= |s|
    decreases |s|
  {
    hide SpaceLength;
    if SpaceLength(s) > 0 {
      SkippedAll(s[SpaceLength(s)..]);
    }
  }

  lemma PrefixHasSpace(s: string, t: string)
    requires s <= t && SpaceLength(s) > 0
    ensures SpaceLength(t) > 0
  {
  }

  /** What was trimmed has no white space around it, and is trimmed to itself; nothing else is. */
  lemma TrimmedStays(s: string)
    ensures TrimSpace(TrimSpace(s)) == TrimSpace(s) && |TrimSpace(s)| <= |s|
    ensures TrimSpace(s) == s <==> SpaceLength(s) == 0 && TrailingLength(s) == 0
  {
    hide SpaceLength, TrailingLength;
    SkippedAll(s);
    var t := TrimSpace(s);
    if SpaceLength(t) > 0 {
      PrefixHasSpace(t, SkipSpaces(s));
    }
  }

  /** Between two ASCII characters that are no white space there is nothing to trim. */
  lemma AsciiEndsStay(s: string)
    requires s != "" && IsInk(s[0]) && IsInk(s[|s| - 1])
    ensures TrimSpace(s) == s
  {
    EndsWithInk(s[|s| - 1..]);
    if |s| >= 2 { EndsWithInk(s[|s| - 2..]); }
    if |s| >= 3 { EndsWithInk(s[|s| - 3..]); }
    TrimmedStays(s);
    hide TrimSpace;
    StartsWithInk(s);
    hide SpaceLength, IsInk;
  }

  predicate IsInk(c: char) { 0x20 < c as int < 0x80 }

  lemma StartsWithInk(s: string)
    requires s != "" && IsInk(s[0])
    ensures SpaceLength(s) == 0
  {
  }

  lemma EndsWithInk(t: string)
    requires 1 <= |t| <= 3 && IsInk(t[|t| - 1])
    ensures SpaceLength(t) != |t|
  {
  }

  lemma TrimmedIsNotBlank(s: string)
    ensures TrimSpace(s) != "" ==> !AsciiSpace.IsBlank(TrimSpace(s))
  {
    var t := TrimSpace(s);
    TrimmedStays(s);
    TrimmedStays(t);
    if t != "" {
      assert !AsciiSpace.IsSpace(t[0]) by { StartsAfterSpace(t); }
    }
    hide TrimSpace;
  }

  lemma StartsAfterSpace(t: string)
    requires t != "" && SpaceLength(t) == 0
    ensures !AsciiSpace.IsSpace(t[0])
  {
  }

  // ---------- The white space characters ----------

  /** The code points with the Unicode property White_Space. */
  predicate IsWhite(cp: nat) {
    || 9 <= cp <= 13 || cp == 0x20 || cp == 0x85 || cp == 0xA0 || cp == 0x1680 || 0x2000 <= cp <= 0x200A
    || cp == 0x2028 || cp == 0x2029 || cp == 0x202F || cp == 0x205F || cp == 0x3000
  }

  /** A white space character stands at the start exactly when one of those code points is written there. */
  lemma SpaceIs(s: string, n: nat)
    requires n > 0
    ensures SpaceLength(s) == n <==> exists cp | IsWhite(cp) :: |EncodeRune(cp)| == n && EncodeRune(cp) <= s
  {
    if SpaceLength(s) == n {
      var cp := WhiteAt(s);
    }
    if cp :| IsWhite(cp) && |EncodeRune(cp)| == n && EncodeRune(cp) <= s {
      WhiteHasLength(s, cp);
    }
  }

  lemma WhiteAt(s: string) returns (cp: nat)
    requires SpaceLength(s) > 0
    ensures IsWhite(cp) && |EncodeRune(cp)| == SpaceLength(s) && EncodeRune(cp) <= s
  {
    var n := SpaceLength(s);
    if n < 3 {
      cp := s[n - 1] as int;
    } else {
      cp := WideAt(s);
    }
  }

  lemma WideAt(s: string) returns (cp: nat)
    requires SpaceLength(s) == 3
    ensures IsWhite(cp) && |EncodeRune(cp)| == 3 && EncodeRune(cp) <= s
  {
    var x, y, z := s[0] as int - 0xE0, s[1] as int - 0x80, s[2] as int - 0x80;
    ThreeBytes(x, y, z);
    cp := x * 0x1000 + y * 0x40 + z;
  }

  lemma WhiteHasLength(s: string, cp: nat)
    requires IsWhite(cp) && EncodeRune(cp) <= s
    ensures SpaceLength(s) == |EncodeRune(cp)|
  {
    var r := EncodeRune(cp);
    assert forall i :: 0 <= i < |r| ==> s[i] == r[i];
  }

  /** A run of white space. */
  ghost predicate IsWhiteRun(s: string)
    decreases |s|
  {
    s == "" || (SpaceLength(s) > 0 && IsWhiteRun(s[SpaceLength(s)..]))
  }

  lemma {:induction false} SkippedIs(s: string)
    ensures |SkipSpaces(s)| <= |s| && s[|s| - |SkipSpaces(s)|..] == SkipSpaces(s)
    ensures IsWhiteRun(s[..|s| - |SkipSpaces(s)|])
    decreases |s|
  {
    hide SpaceLength;
    var n := SpaceLength(s);
    if n > 0 {
      SkippedIs(s[n..]);
      var k := |s| - |SkipSpaces(s)|;
      SameSpace(s[..k], s);
      assert s[..k][n..] == s[n..][..k - n];
    }
  }

  lemma SameSpace(t: string, s: string)
    requires t <= s && SpaceLength(s) <= |t|
    ensures SpaceLength(t) == SpaceLength(s)
  {
  }

  lemma {:induction false} WhiteRunAppend(a: string, b: string)
    requires IsWhiteRun(a) && IsWhiteRun(b)
    ensures IsWhiteRun(a + b)
    decreases |a|
  {
    hide SpaceLength;
    if a == "" {
      assert a + b == b;
    } else {
      var n := SpaceLength(a);
      LongerSpace(a, b);
      WhiteRunAppend(a[n..], b);
      assert (a + b)[n..] == a[n..] + b;
    }
  }

  lemma LongerSpace(a: string, b: string)
    requires SpaceLength(a) > 0
    ensures SpaceLength(a + b) == SpaceLength(a)
  {
  }

  lemma Parts(s: string, i: nat, j: nat)
    requires i <= j <= |s|
    ensures s[i..] == s[..j][i..] + s[j..]
  {
  }

  lemma TwoParts(s: string, i: nat)
    requires i <= |s|
    ensures s == s[..i] + s[i..]
  {
  }

  lemma DropOne(s: string)
    ensures var n := TrailingLength(s);
      DropTrailing(s) == if n > 0 then DropTrailing(s[..|s| - n]) else s
    ensures IsWhiteRun("")
  {
    hide TrailingLength;
  }

  lemma {:induction false} DroppedIs(s: string)
    ensures IsWhiteRun(s[|DropTrailing(s)|..])
    decreases |s|
  {
    hide TrailingLength, DropTrailing, IsWhiteRun;
    DropOne(s);
    var n := TrailingLength(s);
    if n > 0 {
      var t := s[..|s| - n];
      DroppedIs(t);
      LastSpace(s);
      Parts(s, |DropTrailing(t)|, |t|);
      WhiteRunAppend(t[|DropTrailing(t)|..], s[|t|..]);
    } else {
      assert s[|s|..] == "";
    }
  }

  lemma LastSpace(s: string)
    requires TrailingLength(s) > 0
    ensures IsWhiteRun(s[|s| - TrailingLength(s)..])
  {
    OneSpace(s[|s| - TrailingLength(s)..]);
    hide SpaceLength, IsWhiteRun;
  }

  lemma OneSpace(s: string)
    requires SpaceLength(s) == |s| > 0
    ensures IsWhiteRun(s)
  {
    assert s[|s|..] == "";
    hide SpaceLength;
  }

  /** What is left stands between two runs of white space. */
  lemma TrimSpaceIs(s: string) returns (before: string, after: string)
    ensures s == before + TrimSpace(s) + after && IsWhiteRun(before) && IsWhiteRun(after)
  {
    hide *;
    var t := SkipSpaces(s);
    SkippedIs(s);
    DroppedIs(t);
    TwoParts(s, |s| - |t|);
    TwoParts(t, |DropTrailing(t)|);
    TrimSpaceOf(s);
    before, after := s[..|s| - |t|], t[|DropTrailing(t)|..];
    Joined(before, DropTrailing(t), after);
  }

  lemma TrimSpaceOf(s: string)
    ensures TrimSpace(s) == DropTrailing(SkipSpaces(s))
  {
  }

  lemma Joined(a: string, b: string, c: string)
    ensures a + (b + c) == a + b + c
  {
  }
}
