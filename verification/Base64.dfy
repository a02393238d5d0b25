/**
  Standard base64 with padding (RFC 4648 section 4), over byte strings. A body that is not valid UTF-8 is carried
  in this form inside a wrapper record, so what matters is that every standard decoder reads its bytes back: the
  text is the one the alphabet of the standard gives for each group of 24 bits, and decoding it gives back every
  byte, for each of the three lengths the last group may have.
 */
module Base64 {
  import opened Wrappers
  import opened Utf8

  const PAD: char := '='

  /** The character of one six-bit value (RFC 4648 table 1). */
  function Symbol(v: nat): (c: char)
    requires v < 64
    ensures Sextet(c) == Some(v) && c != PAD && ' ' < c && c as int < 0x7F && c != '\"' && c != '\\'
  {
    if v < 26 then ('A' as int + v) as char
    else if v < 52 then ('a' as int + (v - 26)) as char
    else if v < 62 then ('0' as int + (v - 52)) as char
    else if v == 62 then '+'
    else '/'
  }

  function Sextet(c: char): (r: Option<nat>)
    ensures r.Some? ==> r.value < 64
  {
    if 'A' <= c <= 'Z' then Some(c as int - 'A' as int)
    else if 'a' <= c <= 'z' then Some(c as int - 'a' as int + 26)
    else if '0' <= c <= '9' then Some(c as int - '0' as int + 52)
    else if c == '+' then Some(62)
    else if c == '/' then Some(63)
    else None
  }

  /** Four characters for one to three bytes; bytes that are missing count as zero. */
  function EncodeGroup(g: string): (t: string)
    requires IsBytes(g) && 1 <= |g| <= 3
    ensures |t| == 4
    ensures forall i | 0 <= i < |t| :: ' ' < t[i] && t[i] as int < 0x7F && t[i] != '\"' && t[i] != '\\'
  {
    var a := g[0] as int;
    var b := if |g| > 1 then g[1] as int else 0;
    var c := if |g| > 2 then g[2] as int else 0;
    JoinFirst(a, b);
    JoinSecond(b, c);
    [ Symbol(a / 4),
      Symbol(a % 4 * 16 + b / 16),
      if |g| > 1 then Symbol(b % 16 * 4 + c / 64) else PAD,
      if |g| > 2 then Symbol(c % 64) else PAD ]
  }

  function Encode(s: string): (t: string)
    requires IsBytes(s)
    ensures IsAscii(t)
    ensures forall i | 0 <= i < |t| :: ' ' < t[i] && t[i] != '\"' && t[i] != '\\'
  {
    if s == "" then ""
    else if |s| <= 3 then EncodeGroup(s)
    else EncodeGroup(s[..3]) + Encode(s[3..])
  }

  // ---------- The standard ----------

  /** RFC 4648 table 1, in the order of the values. */
  const ALPHABET: string := "ABCDEFGHIJKLMNOPQRSTUVWXYZ" + "abcdefghijklmnopqrstuvwxyz" + "0123456789" + "+/"

  /** Byte i, where bytes past the end count as zero. */
  function Byte(s: string, i: nat): nat { if i < |s| then s[i] as int else 0 }

  /** The 24 bits of group k, the first byte highest. */
  function Bits(s: string, k: nat): (n: nat)
    requires IsBytes(s)
    ensures n < 0x100_0000
  {
    Byte(s, 3 * k) * 0x1_0000 + Byte(s, 3 * k + 1) * 0x100 + Byte(s, 3 * k + 2)
  }

  /** The character of a value in the table. */
  function Letter(v: nat): char
    requires v < 64
  {
    assert |ALPHABET| == 64;
    ALPHABET[v]
  }

  /** Four values of six bits, the highest first, are these 24 bits. */
  predicate AreBits(w: nat, x: nat, y: nat, z: nat, bits: nat) {
    w < 64 && x < 64 && y < 64 && z < 64 && w * 0x4_0000 + x * 0x1000 + y * 64 + z == bits
  }

  predicate AreLetters(t: string, w: nat, x: nat, y: nat, z: nat, bytes: nat)
    requires |t| == 4
  {
    && w < 64 && x < 64 && y < 64 && z < 64
    && t[0] == Letter(w) && t[1] == Letter(x)
    && t[2] == (if bytes > 1 then Letter(y) else '=')
    && t[3] == (if bytes > 2 then Letter(z) else '=')
  }

  /** The characters of t stand for such values, with padding for bytes that are missing. */
  ghost predicate IsGroup(t: string, bits: nat, bytes: nat)
    requires |t| == 4
  {
    exists w, x, y, z | AreBits(w, x, y, z, bits) :: AreLetters(t, w, x, y, z, bytes)
  }

  /** t is the base64 of s: one group of four characters for every three bytes. */
  ghost predicate IsStandard(t: string, s: string)
    requires IsBytes(s)
  {
    && |t| == (|s| + 2) / 3 * 4
    && forall k :: 0 <= k < (|s| + 2) / 3 ==> IsGroup(t[4 * k..4 * k + 4], Bits(s, k), |s| - 3 * k)
  }

  lemma Capital(i: nat)
    requires i < 26
    ensures "ABCDEFGHIJKLMNOPQRSTUVWXYZ"[i] == ('A' as int + i) as char
  {
  }

  lemma Small(i: nat)
    requires i < 26
    ensures "abcdefghijklmnopqrstuvwxyz"[i] == ('a' as int + i) as char
  {
  }

  lemma Figure(i: nat)
    requires i < 10
    ensures "0123456789"[i] == ('0' as int + i) as char
  {
  }

  lemma LetterIs(v: nat)
    requires v < 64
    ensures v < 26 ==> Letter(v) == "ABCDEFGHIJKLMNOPQRSTUVWXYZ"[v]
    ensures 26 <= v < 52 ==> Letter(v) == "abcdefghijklmnopqrstuvwxyz"[v - 26]
    ensures 52 <= v < 62 ==> Letter(v) == "0123456789"[v - 52]
    ensures v >= 62 ==> Letter(v) == "+/"[v - 62]
  {
    Lengths();
  }

  lemma Lengths()
    ensures |"ABCDEFGHIJKLMNOPQRSTUVWXYZ"| == |"abcdefghijklmnopqrstuvwxyz"| == 26 && |"0123456789"| == 10
  {
  }

  /** The symbol of a value is the character at its place in the table. */
  lemma SymbolIs(v: nat)
    requires v < 64
    ensures Symbol(v) == Letter(v)
  {
    hide Letter;
    LetterIs(v);
    if v < 26 {
      Capital(v);
    } else if v < 52 {
      Small(v - 26);
    } else if v < 62 {
      Figure(v - 52);
    }
  }

  /** The sextets of three bytes are their bits in order. */
  lemma SextetsAreBits(a: nat, b: nat, c: nat)
    requires a < 256 && b < 256 && c < 256
    ensures AreBits(a / 4, a % 4 * 16 + b / 16, b % 16 * 4 + c / 64, c % 64, a * 0x1_0000 + b * 0x100 + c)
  {
    JoinFirst(a, b);
    JoinSecond(b, c);
  }

  lemma MakesLetters(t: string, w: nat, x: nat, y: nat, z: nat, bytes: nat)
    requires |t| == 4 && w < 64 && x < 64 && y < 64 && z < 64 && t[0] == Symbol(w) && t[1] == Symbol(x)
    requires t[2] == (if bytes > 1 then Symbol(y) else '=') && t[3] == (if bytes > 2 then Symbol(z) else '=')
    ensures AreLetters(t, w, x, y, z, bytes)
  {
    hide Symbol, Letter;
    SymbolIs(w);
    SymbolIs(x);
    SymbolIs(y);
    SymbolIs(z);
  }

  lemma EncodedLetters(g: string, w: nat, x: nat, y: nat, z: nat)
    requires IsBytes(g) && 1 <= |g| <= 3 && w < 64 && x < 64 && y < 64 && z < 64
    requires w == Byte(g, 0) / 4 && x == Byte(g, 0) % 4 * 16 + Byte(g, 1) / 16
    requires y == Byte(g, 1) % 16 * 4 + Byte(g, 2) / 64 && z == Byte(g, 2) % 64
    ensures AreLetters(EncodeGroup(g), w, x, y, z, |g|)
  {
    hide Symbol, AreLetters;
    MakesLetters(EncodeGroup(g), w, x, y, z, |g|);
  }

  lemma GroupIs(g: string)
    requires IsBytes(g) && 1 <= |g| <= 3
    ensures IsGroup(EncodeGroup(g), Bits(g, 0), |g|)
  {
    hide EncodeGroup, AreLetters;
    var a, b, c := Byte(g, 0), Byte(g, 1), Byte(g, 2);
    SextetsAreBits(a, b, c);
    EncodedLetters(g, a / 4, a % 4 * 16 + b / 16, b % 16 * 4 + c / 64, c % 64);
    hide AreBits;
  }

  lemma GroupFurther(u: string, t: string, k: nat)
    requires |u| == 4 && 0 < k && 4 * k <= |t|
    ensures (u + t)[4 * k..4 * k + 4] == t[4 * (k - 1)..4 * (k - 1) + 4] && (u + t)[0..4] == u
  {
  }

  lemma BitsFurther(s: string, k: nat)
    requires IsBytes(s) && |s| > 3
    ensures Bits(s, 0) == Bits(s[..3], 0) && (k > 0 ==> Bits(s, k) == Bits(s[3..], k - 1))
  {
  }

  /** What is written is the base64 of the standard. */
  lemma {:induction false} EncodeIs(s: string)
    requires IsBytes(s)
    ensures IsStandard(Encode(s), s)
    decreases |s|
  {
    hide IsGroup, EncodeGroup, Bits;
    if s == "" {
    } else if |s| <= 3 {
      GroupIs(s);
      assert EncodeGroup(s)[0..4] == EncodeGroup(s);
    } else {
      var u, t := EncodeGroup(s[..3]), Encode(s[3..]);
      GroupIs(s[..3]);
      EncodeIs(s[3..]);
      Prepended(u, t, s);
    }
  }

  lemma Prepended(u: string, t: string, s: string)
    requires IsBytes(s) && |s| > 3 && |u| == 4 && IsGroup(u, Bits(s[..3], 0), 3) && IsStandard(t, s[3..])
    ensures IsStandard(u + t, s)
  {
    hide IsGroup, Bits;
    forall k | 0 <= k < (|s| + 2) / 3 ensures IsGroup((u + t)[4 * k..4 * k + 4], Bits(s, k), |s| - 3 * k) {
      BitsFurther(s, k);
      if k > 0 {
        GroupFurther(u, t, k);
      } else {
        assert (u + t)[0..4] == u;
        MoreBytes(u, Bits(s, 0), |s|);
      }
    }
  }

  lemma MoreBytes(u: string, bits: nat, bytes: nat)
    requires |u| == 4 && bytes >= 3 && IsGroup(u, bits, 3)
    ensures IsGroup(u, bits, bytes)
  {
    hide Letter;
  }

  lemma OnlyBits(w: nat, x: nat, y: nat, z: nat, w': nat, x': nat, y': nat, z': nat, bits: nat)
    requires AreBits(w, x, y, z, bits) && AreBits(w', x', y', z', bits)
    ensures w == w' && x == x' && y == y' && z == z'
  {
  }

  lemma OnlyGroup(t: string, u: string, bits: nat, bytes: nat)
    requires |t| == |u| == 4 && IsGroup(t, bits, bytes) && IsGroup(u, bits, bytes)
    ensures t == u
  {
    hide AreBits, AreLetters;
    var w, x, y, z :| AreBits(w, x, y, z, bits) && AreLetters(t, w, x, y, z, bytes);
    var w', x', y', z' :| AreBits(w', x', y', z', bits) && AreLetters(u, w', x', y', z', bytes);
    OnlyBits(w, x, y, z, w', x', y', z', bits);
    SameLetters(t, u, w, x, y, z, bytes);
  }

  lemma SameLetters(t: string, u: string, w: nat, x: nat, y: nat, z: nat, bytes: nat)
    requires |t| == |u| == 4
    requires AreLetters(t, w, x, y, z, bytes) && AreLetters(u, w, x, y, z, bytes)
    ensures t == u
  {
    hide Letter;
  }

  function Group(t: string, k: nat): string
    requires 4 * k + 4 <= |t|
  {
    t[4 * k..4 * k + 4]
  }

  lemma InGroup(t: string, k: nat, j: nat)
    requires 4 * k + 4 <= |t| && j < 4
    ensures t[4 * k + j] == Group(t, k)[j]
  {
  }

  lemma SameGroups(t: string, u: string, n: nat)
    requires |t| == |u| == 4 * n && forall k: nat :: k < n ==> Group(t, k) == Group(u, k)
    ensures t == u
  {
    forall i: nat | i < |t| ensures t[i] == u[i] {
      var k, j := i / 4, i % 4;
      InGroup(t, k, j);
      InGroup(u, k, j);
    }
    hide Group;
  }

  /** And there is no other text that is. */
  lemma StandardIsUnique(t: string, s: string)
    requires IsBytes(s) && IsStandard(t, s)
    ensures t == Encode(s)
  {
    hide IsGroup, Bits, Encode, IsBytes;
    EncodeIs(s);
    var u, n := Encode(s), (|s| + 2) / 3;
    forall k: nat | k < n ensures Group(t, k) == Group(u, k) {
      OnlyGroup(Group(t, k), Group(u, k), Bits(s, k), |s| - 3 * k);
    }
    SameGroups(t, u, n);
  }

  /** The bytes of one group of four characters; padding is allowed only at its end. */
  function DecodeGroup(a: char, b: char, c: char, d: char): Option<string> {
    match (Sextet(a), Sextet(b), Sextet(c), Sextet(d))
    case (Some(w), Some(x), Some(y), Some(z)) =>
      Some([(w * 4 + x / 16) as char, (x % 16 * 16 + y / 4) as char, (y % 4 * 64 + z) as char])
    case (Some(w), Some(x), Some(y), None) =>
      if d == PAD then Some([(w * 4 + x / 16) as char, (x % 16 * 16 + y / 4) as char]) else None
    case (Some(w), Some(x), None, None) =>
      if c == PAD && d == PAD then Some([(w * 4 + x / 16) as char]) else None
    case _ => None
  }

  function Decode(t: string): Option<string> {
    if t == "" then Some("")
    else if |t| < 4 then None
    else
      match DecodeGroup(t[0], t[1], t[2], t[3])
      case None => None
      case Some(g) =>
        if |t| == 4 then Some(g)
        else if |g| < 3 then None
        else
          match Decode(t[4..])
          case None => None
          case Some(rest) => Some(g + rest)
  }

  /** The sextets of a byte and the next one put the byte back together. */
  lemma JoinFirst(a: nat, b: nat)
    requires a < 256 && b < 256
    ensures a / 4 < 64 && a % 4 * 16 + b / 16 < 64
    ensures a / 4 * 4 + (a % 4 * 16 + b / 16) / 16 == a && (a % 4 * 16 + b / 16) % 16 == b / 16
  {
    assert (a % 4 * 16 + b / 16) / 16 == a % 4;
  }

  lemma JoinSecond(b: nat, c: nat)
    requires b < 256 && c < 256
    ensures b % 16 * 4 + c / 64 < 64
    ensures b / 16 * 16 + (b % 16 * 4 + c / 64) / 4 == b && (b % 16 * 4 + c / 64) % 4 == c / 64
  {
    assert (b % 16 * 4 + c / 64) / 4 == b % 16;
  }

  /** The four characters of three bytes, where missing bytes count as zero. */
  lemma DecodeGroupIs(a: nat, b: nat, c: nat)
    requires a < 256 && b < 256 && c < 256
    ensures a % 4 * 16 + b / 16 < 64 && b % 16 * 4 + c / 64 < 64
    ensures
      var w, x, y, z := Symbol(a / 4), Symbol(a % 4 * 16 + b / 16), Symbol(b % 16 * 4 + c / 64), Symbol(c % 64);
      && DecodeGroup(w, x, y, z) == Some([a as char, b as char, c as char])
      && (c == 0 ==> DecodeGroup(w, x, y, PAD) == Some([a as char, b as char]))
      && (b == 0 ==> DecodeGroup(w, x, PAD, PAD) == Some([a as char]))
  {
    JoinFirst(a, b);
    JoinSecond(b, c);
    assert c / 64 * 64 + c % 64 == c;
    assert Sextet(PAD) == None;
  }

  lemma DecodeEncodeGroup(g: string)
    requires IsBytes(g) && 1 <= |g| <= 3
    ensures var t := EncodeGroup(g); DecodeGroup(t[0], t[1], t[2], t[3]) == Some(g)
  {
    hide Symbol, Sextet, DecodeGroup;
    var a := g[0] as int;
    var b := if |g| > 1 then g[1] as int else 0;
    var c := if |g| > 2 then g[2] as int else 0;
    DecodeGroupIs(a, b, c);
    if |g| == 1 {
      assert g == [a as char];
    } else if |g| == 2 {
      assert g == [a as char, b as char];
    } else {
      assert g == [a as char, b as char, c as char];
    }
  }

  /** Decoding an encoding gives the bytes back. */
  lemma {:induction false} DecodeEncode(s: string)
    requires IsBytes(s)
    ensures Decode(Encode(s)) == Some(s)
  {
    if s == "" {
    } else if |s| <= 3 {
      DecodeEncodeGroup(s);
    } else {
      DecodeEncodeGroup(s[..3]);
      DecodeEncode(s[3..]);
      assert Encode(s)[4..] == Encode(s[3..]);
      assert s == s[..3] + s[3..];
    }
  }
}
