/** The white space of envelope.go: space, \t, \n, \v, \f and \r, and no Unicode space. */
module AsciiSpace {
  predicate IsSpace(c: char) { c in " \t\n\U{000B}\U{000C}\r" }

  predicate IsBlank(s: string) { forall i | 0 <= i < |s| :: IsSpace(s[i]) }

  function TrimLeft(s: string): (r: string)
    ensures r == "" || !IsSpace(r[0])
  {
    if s != "" && IsSpace(s[0]) then TrimLeft(s[1..]) else s
  }

  function TrimRight(s: string): (r: string)
    ensures r <= s && (r == "" || !IsSpace(r[|r| - 1]))
  {
    if s != "" && IsSpace(s[|s| - 1]) then TrimRight(s[..|s| - 1]) else s
  }

  /** trimASCII: without the white space at both ends. */
  function Trim(s: string): (r: string)
    ensures r == "" || (!IsSpace(r[0]) && !IsSpace(r[|r| - 1]))
  {
    TrimRight(TrimLeft(s))
  }

  lemma {:induction false} TrimLeftIsBlank(s: string)
    ensures TrimLeft(s) == "" <==> IsBlank(s)
  {
    if s != "" && IsSpace(s[0]) {
      TrimLeftIsBlank(s[1..]);
      assert forall k | 0 < k < |s| :: s[k] == s[1..][k - 1];
    }
  }

  lemma {:induction false} TrimRightIsBlank(s: string)
    ensures TrimRight(s) == "" <==> IsBlank(s)
  {
    if s != "" && IsSpace(s[|s| - 1]) {
      TrimRightIsBlank(s[..|s| - 1]);
      assert s == s[..|s| - 1] + [s[|s| - 1]];
    }
  }

  /** isBlankASCII: only white space is trimmed away entirely. */
  lemma TrimIsBlank(s: string)
    ensures Trim(s) == "" <==> IsBlank(s)
  {
    TrimLeftIsBlank(s);
    TrimRightIsBlank(TrimLeft(s));
  }

  /** Only white space is cut off. */
  lemma {:induction false} TrimLeftCuts(s: string)
    ensures |TrimLeft(s)| <= |s| && IsBlank(s[..|s| - |TrimLeft(s)|]) && s[|s| - |TrimLeft(s)|..] == TrimLeft(s)
  {
    if s != "" && IsSpace(s[0]) {
      TrimLeftCuts(s[1..]);
      var n := |s| - |TrimLeft(s)|;
      forall i | 0 <= i < n ensures IsSpace(s[..n][i]) {
        if i > 0 { assert s[..n][i] == s[1..][..n - 1][i - 1]; }
      }
    }
  }

  lemma {:induction false} TrimRightCuts(s: string)
    ensures IsBlank(s[|TrimRight(s)|..])
  {
    if s != "" && IsSpace(s[|s| - 1]) {
      TrimRightCuts(s[..|s| - 1]);
      var n := |TrimRight(s)|;
      forall i | n <= i < |s| ensures IsSpace(s[i]) {
        if i < |s| - 1 { assert s[i] == s[..|s| - 1][n..][i - n]; }
      }
    }
  }

  /** What is left stands between two runs of white space, and there is none at its own ends. */
  lemma TrimIs(s: string) returns (before: string, after: string)
    ensures s == before + Trim(s) + after && IsBlank(before) && IsBlank(after)
  {
    TrimLeftCuts(s);
    var t := TrimLeft(s);
    TrimRightCuts(t);
    before, after := s[..|s| - |t|], t[|TrimRight(t)|..];
    hide TrimLeft, TrimRight, IsBlank;
    assert t == TrimRight(t) + after && s == before + t;
  }
}
