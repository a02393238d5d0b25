/** The flat scanner of poison_record.go. */
module PoisonScanner {
  // It walks the bytes of a body that encoding/json already accepted, keeping a bracket depth and an "expect a
  // key" flag, and is proved to agree with the recursive grammar: it accepts exactly the bodies that may be
  // spliced.

  import opened Wrappers
  import opened JsonGrammar
  import opened JsonParser
  import opened JsonStrings
  import opened Utf8

  const DEAD_LETTER: string := "dead_letter"

  /** What a spliceable body is: valid UTF-8 and one JSON object, without an unpaired surrogate
      escape in any string and without a top-level member named dead_letter. */
  ghost predicate Spliceable(body: string) {
    ValidUtf8(body) && exists d :: Reads(d, body) && CanSplice(d.value)
  }

  predicate CanSplice(v: Value)
    requires ValueOk(v)
  {
    IsObject(v) && ValuePaired(v) && !HasName(Members(v), DEAD_LETTER)
  }

  /** Whatever reading of the body is taken, it decides whether the body can be spliced. */
  lemma SpliceableMeans(d: Doc, body: string)
    requires Reads(d, body)
    ensures Spliceable(body) <==> ValidUtf8(body) && CanSplice(d.value)
  {
    forall e | Reads(e, body) ensures e == d {
      ReadingIsUnique(e, body);
      ReadingIsUnique(d, body);
    }
  }

  // ---------- The scanner as a function of the bytes still to be read ----------

  /** The outcome of one string literal: the bytes after its closing quote, a refusal, or an index
      past the end of the body. */
  datatype LiteralScan = Closed(rest: string) | Refused | Overrun

  /** `s` starts with the \u escape of a low surrogate. */
  predicate LowAt(s: string) {
    |s| >= 6 && s[0] == '\\' && s[1] == 'u' && IsHex4(s[2..6]) && IsLow(Hex4Value(s[2..6]))
  }

  /** scanJSONString, from the byte after the opening quote. */
  function ScanLiteral(s: string): (r: LiteralScan)
    ensures r.Closed? ==> |r.rest| < |s|
  {
    if s == "" then Refused
    else if s[0] == '\"' then Closed(s[1..])
    else if s[0] != '\\' then ScanLiteral(s[1..])
    else if |s| < 2 then Overrun
    else if s[1] != 'u' then ScanLiteral(s[2..])
    else if |s| < 6 || !IsHex4(s[2..6]) then Refused
    else
      var u := Hex4Value(s[2..6]);
      if IsHigh(u) then if LowAt(s[6..]) then ScanLiteral(s[12..]) else Refused
      else if IsLow(u) then Refused
      else ScanLiteral(s[6..])
  }

  datatype Verdict = Accepted | Rejected | Overran

  /** The main loop of isSpliceableObject, on the bytes still to be read. */
  function Scan(s: string, depth: int, expectKey: bool): Verdict
    decreases |s|
  {
    if s == "" then Accepted
    else if s[0] == '{' || s[0] == '[' then Scan(s[1..], depth + 1, s[0] == '{' && depth + 1 == 1)
    else if s[0] == '}' || s[0] == ']' then Scan(s[1..], depth - 1, expectKey)
    else if s[0] == ',' then Scan(s[1..], depth, depth == 1)
    else if s[0] == '\"' then
      match ScanLiteral(s[1..])
      case Refused => Rejected
      case Overrun => Overran
      case Closed(rest) =>
        if depth == 1 && expectKey then
          var key := Unquote(s[..|s| - |rest|]);
          if key.None? || key.value == DEAD_LETTER then Rejected else Scan(rest, depth, false)
        else Scan(rest, depth, expectKey)
    else Scan(s[1..], depth, expectKey)
  }

  // ---------- The scanner on printed trees ----------

  lemma ScanItem(it: StrItem, rest: string)
    requires ItemOk(it) && !IsHighItem(it)
    ensures ScanLiteral(ItemText(it) + rest) == if IsLowItem(it) then Refused else ScanLiteral(rest)
  {
    var s := ItemText(it) + rest;
    Cut(ItemText(it), rest);
    if it.Unicode? {
      assert s[2..6] == it.hex;
    }
  }

  lemma ScanPair(high: StrItem, low: StrItem, rest: string)
    requires IsHighItem(high) && IsLowItem(low)
    ensures ScanLiteral(ItemText(high) + (ItemText(low) + rest)) == ScanLiteral(rest)
  {
    var t := ItemText(low) + rest;
    var s := ItemText(high) + t;
    assert t[2..6] == low.hex;
    assert s[2..6] == high.hex;
    assert s[6..] == t;
    assert s[12..] == t[6..] == rest;
  }

  lemma ScanUnpaired(high: StrItem, rest: string)
    requires IsHighItem(high) && !LowAt(rest)
    ensures ScanLiteral(ItemText(high) + rest) == Refused
  {
    var s := ItemText(high) + rest;
    assert s[2..6] == high.hex;
    assert s[6..] == rest;
  }

  lemma {:induction false} ScanLiteralThen(items: seq<StrItem>, rest: string)
    requires ItemsOk(items)
    ensures ScanLiteral(ItemsThen(items, ['\"'] + rest)) == if Paired(items) then Closed(rest) else Refused
  {
    var close := ['\"'] + rest;
    if items == [] {
      assert close[1..] == rest;
    } else if !IsHighItem(items[0]) {
      ScanItem(items[0], ItemsThen(items[1..], close));
      ScanLiteralThen(items[1..], rest);
    } else if |items| > 1 && IsLowItem(items[1]) {
      assert items[1..][0] == items[1] && items[1..][1..] == items[2..];
      ScanPair(items[0], items[1], ItemsThen(items[2..], close));
      ScanLiteralThen(items[2..], rest);
    } else {
      var next := ItemsThen(items[1..], close);
      NextItem(items[1..], rest);
      ScanUnpaired(items[0], next);
    }
  }

  lemma NextItem(items: seq<StrItem>, rest: string)
    requires ItemsOk(items)
    requires items == [] || !IsLowItem(items[0])
    ensures !LowAt(ItemsThen(items, ['\"'] + rest))
  {
    if items != [] && items[0].Unicode? {
      assert ItemsThen(items, ['\"'] + rest)[2..6] == items[0].hex;
    }
  }

  lemma {:induction false} ItemsThenSplit(items: seq<StrItem>, a: string, rest: string)
    ensures ItemsThen(items, a + rest) == ItemsThen(items, a) + rest
  {
    if items != [] {
      ItemsThenSplit(items[1..], a, rest);
    }
  }

  lemma QuotedSplit(items: seq<StrItem>, rest: string)
    ensures QuotedThen(items, rest) == QuotedThen(items, "") + rest
  {
    ItemsThenSplit(items, ['\"'], rest);
    assert ['\"'] + "" == ['\"'];
  }

  /** One literal: its surrogates are checked, and at a top-level key its name too. */
  /** The loop at a string literal that ends before `rest`. */
  lemma ScanClosed(s: string, rest: string, depth: int, expectKey: bool)
    requires s != "" && s[0] == '\"' && ScanLiteral(s[1..]) == Closed(rest)
    ensures |rest| <= |s| && Scan(s, depth, expectKey) ==
      if depth == 1 && expectKey then
        var key := Unquote(s[..|s| - |rest|]);
        if key.None? || key.value == DEAD_LETTER then Rejected else Scan(rest, depth, false)
      else Scan(rest, depth, expectKey)
  {
    hide ScanLiteral, Unquote;
  }

  lemma QuotedParts(items: seq<StrItem>, rest: string)
    ensures var s := QuotedThen(items, rest);
      && s[0] == '\"' && s[1..] == ItemsThen(items, ['\"'] + rest) && |rest| <= |s|
      && s[..|s| - |rest|] == QuotedThen(items, "")
  {
    QuotedSplit(items, rest);
    Cut(QuotedThen(items, ""), rest);
  }

  /** The loop at a string literal that is refused, or that runs over the end. */
  lemma ScanUnclosed(s: string, depth: int, expectKey: bool)
    requires s != "" && s[0] == '\"'
    ensures ScanLiteral(s[1..]) == Refused ==> Scan(s, depth, expectKey) == Rejected
    ensures ScanLiteral(s[1..]) == Overrun ==> Scan(s, depth, expectKey) == Overran
  {
    hide ScanLiteral, Unquote;
  }

  lemma ScanQuoted(items: seq<StrItem>, rest: string, depth: int, expectKey: bool)
    requires ItemsOk(items)
    ensures Scan(QuotedThen(items, rest), depth, expectKey) ==
            if !Paired(items) then Rejected
            else if depth == 1 && expectKey then
              if Meaning(items) == DEAD_LETTER then Rejected else Scan(rest, depth, false)
            else Scan(rest, depth, expectKey)
  {
    assert StandsFor(QuotedThen(items, ""), Meaning(items));
    hide *;
    QuotedParts(items, rest);
    ScanLiteralThen(items, rest);
    UnquoteIs(QuotedThen(items, ""), Meaning(items));
    if Paired(items) {
      ScanClosed(QuotedThen(items, rest), rest, depth, expectKey);
    } else {
      ScanUnclosed(QuotedThen(items, rest), depth, expectKey);
    }
  }

  predicate IsFlat(c: char) { c != '{' && c != '[' && c != '}' && c != ']' && c != ',' && c != '\"' }

  lemma {:induction false} ScanFlat(t: string, rest: string, depth: int, expectKey: bool)
    requires forall i | 0 <= i < |t| :: IsFlat(t[i])
    ensures Scan(t + rest, depth, expectKey) == Scan(rest, depth, expectKey)
  {
    if t == "" {
      assert t + rest == rest;
    } else {
      assert (t + rest)[1..] == t[1..] + rest;
      ScanFlat(t[1..], rest, depth, expectKey);
    }
  }

  lemma ScanNumber(n: Number, rest: string, depth: int, expectKey: bool)
    requires NumberOk(n)
    ensures Scan(NumberThen(n, rest), depth, expectKey) == Scan(rest, depth, expectKey)
  {
    var x := ExponentThen(n.exponent, rest);
    if n.exponent.Some? {
      var y := n.exponent.value;
      ScanFlat([y.e], y.sign + (y.digits + rest), depth, expectKey);
      ScanFlat(y.sign, y.digits + rest, depth, expectKey);
      ScanFlat(y.digits, rest, depth, expectKey);
    }
    ScanFlat(['.'], n.fraction + x, depth, expectKey);
    ScanFlat(n.fraction, x, depth, expectKey);
    ScanFlat(n.whole, FractionThen(n.fraction, x), depth, expectKey);
    ScanFlat(['-'], WholeThen(n, rest), depth, expectKey);
  }

  lemma ScanScalar(v: Value, rest: string, depth: int, expectKey: bool)
    requires ValueOk(v) && (v.Literal? || v.Numeric?)
    ensures Scan(ValueThen(v, rest), depth, expectKey) == Scan(rest, depth, expectKey)
  {
    match v
    case Literal(w) => ScanFlat(w, rest, depth, expectKey);
    case Numeric(n) => ScanNumber(n, rest, depth, expectKey);
  }

  lemma ScanOpen(b: Bracket, rest: string, depth: int, expectKey: bool)
    ensures Scan([Open(b)] + rest, depth, expectKey) == Scan(rest, depth + 1, b.Curly? && depth == 0)
  {
    assert ([Open(b)] + rest)[1..] == rest;
  }

  lemma ScanClose(b: Bracket, rest: string, depth: int, expectKey: bool)
    ensures Scan([Close(b)] + rest, depth, expectKey) == Scan(rest, depth - 1, expectKey)
  {
    assert ([Close(b)] + rest)[1..] == rest;
  }

  lemma ScanComma(rest: string, depth: int, expectKey: bool)
    ensures Scan([','] + rest, depth, expectKey) == Scan(rest, depth, depth == 1)
  {
    assert ([','] + rest)[1..] == rest;
  }

  lemma ScanColon(rest: string, depth: int, expectKey: bool)
    ensures Scan([':'] + rest, depth, expectKey) == Scan(rest, depth, expectKey)
  {
    ScanFlat([':'], rest, depth, expectKey);
  }

  /** Whatever is scanned below the top level, or as a value there, only its surrogates matter. */
  lemma {:induction false} ScanValue(v: Value, rest: string, depth: int)
    requires ValueOk(v) && depth >= 1
    decreases v, 0
    ensures Scan(ValueThen(v, rest), depth, false) == if ValuePaired(v) then Scan(rest, depth, false) else Rejected
  {
    match v
    case Literal(_) => ScanScalar(v, rest, depth, false);
    case Numeric(_) => ScanScalar(v, rest, depth, false);
    case Text(items) => ScanQuoted(items, rest, depth, false);
    case Empty(b, blank) =>
      var u := [Close(b)] + rest;
      ScanOpen(b, blank + u, depth, false);
      ScanFlat(blank, u, depth + 1, false);
      ScanClose(b, rest, depth + 1, false);
    case Group(b, es) =>
      var u := [Close(b)] + rest;
      ScanOpen(b, EntriesThen(es, u), depth, false);
      ScanEntries(es, b, u, depth + 1);
      ScanClose(b, rest, depth + 1, false);
  }

  lemma ScanName(n: Option<Name>, b: Bracket, rest: string, depth: int, expectKey: bool)
    requires NameOk(n, b)
    requires depth == 1 && expectKey ==> b.Curly?
    ensures Scan(NameThen(n, rest), depth, expectKey) ==
            if n.Some? && !Paired(n.value.items) then Rejected
            else if depth == 1 && expectKey then
              if Meaning(n.value.items) == DEAD_LETTER then Rejected else Scan(rest, depth, false)
            else Scan(rest, depth, expectKey)
  {
    match n
    case None =>
    case Some(m) =>
      var c := m.after + ([':'] + rest);
      ScanFlat(m.before, QuotedThen(m.items, c), depth, expectKey);
      ScanQuoted(m.items, c, depth, expectKey);
      var k := expectKey && depth != 1;
      ScanFlat(m.after, [':'] + rest, depth, k);
      ScanColon(rest, depth, k);
  }

  lemma {:induction false} ScanEntry(e: Entry, b: Bracket, rest: string, depth: int, expectKey: bool)
    requires EntryOk(e, b) && depth >= 1
    requires expectKey ==> depth == 1 && b.Curly?
    decreases e, 1
    ensures Scan(EntryThen(e, rest), depth, expectKey) ==
            if EntryPaired(e) && (expectKey ==> EntryMember(e).name != DEAD_LETTER) then Scan(rest, depth, false)
            else Rejected
  {
    var w := ValueThen(e.value, e.after + rest);
    ScanName(e.name, b, e.before + w, depth, expectKey);
    ScanFlat(e.before, w, depth, false);
    ScanValue(e.value, e.after + rest, depth);
    ScanFlat(e.after, rest, depth, false);
  }

  lemma {:induction false} ScanEntries(es: Entries, b: Bracket, rest: string, depth: int)
    requires EntriesOk(es, b) && depth >= 2
    decreases es, 2
    ensures Scan(EntriesThen(es, rest), depth, false) ==
      if EntriesPaired(es) then Scan(rest, depth, false) else Rejected
  {
    match es
    case Single(e) => ScanEntry(e, b, rest, depth, false);
    case Series(e, more) =>
      var u := EntriesThen(more, rest);
      ScanEntry(e, b, [','] + u, depth, false);
      ScanComma(u, depth, false);
      ScanEntries(more, b, rest, depth);
  }

  /** At the top level the name of every member is looked at as well. */
  lemma {:induction false} ScanTopEntries(es: Entries, rest: string)
    requires EntriesOk(es, Curly)
    ensures Scan(EntriesThen(es, rest), 1, true) ==
            if EntriesPaired(es) && !HasName(EntriesMembers(es), DEAD_LETTER) then Scan(rest, 1, false) else Rejected
  {
    match es
    case Single(e) =>
      ScanEntry(e, Curly, rest, 1, true);
      assert EntriesMembers(es)[0] == EntryMember(e);
    case Series(e, more) =>
      var u := EntriesThen(more, rest);
      ScanEntry(e, Curly, [','] + u, 1, true);
      ScanComma(u, 1, false);
      ScanTopEntries(more, rest);
      HasNameCons(EntryMember(e), EntriesMembers(more), DEAD_LETTER);
  }

  lemma HasNameCons(m: Member, ms: seq<Member>, name: string)
    ensures HasName([m] + ms, name) <==> m.name == name || HasName(ms, name)
  {
    if HasName(ms, name) {
      var i :| 0 <= i < |ms| && ms[i].name == name;
      assert ([m] + ms)[i + 1].name == name;
    }
    assert ([m] + ms)[0] == m;
  }

  /** The scanner, started at the opening brace of a JSON object, never runs past the end of the body
      and accepts exactly the objects that can be spliced. */
  lemma ScanObject(v: Value, after: string)
    requires ValueOk(v) && IsObject(v) && IsBlank(after)
    ensures Scan(ValueThen(v, after), 0, false) == if CanSplice(v) then Accepted else Rejected
  {
    var u := [Close(Curly)] + after;
    match v
    case Empty(b, blank) =>
      ScanOpen(b, blank + u, 0, false);
      ScanFlat(blank, u, 1, true);
      ScanClose(b, after, 1, true);
      ScanBlank(after, 0, true);
    case Group(b, es) =>
      ScanOpen(b, EntriesThen(es, u), 0, false);
      ScanTopEntries(es, u);
      ScanClose(b, after, 1, false);
      ScanBlank(after, 0, false);
  }

  lemma ScanBlank(t: string, depth: int, expectKey: bool)
    requires IsBlank(t)
    ensures Scan(t, depth, expectKey) == Accepted
  {
    ScanFlat(t, "", depth, expectKey);
    assert t + "" == t;
  }

  // ---------- The loops of the source ----------

  /** parseHex4: four hexadecimal digits at index `at`, or a refusal. */
  method ParseHex4(s: string, at: nat) returns (cp: nat, ok: bool)
    ensures ok <==> at + 4 <= |s| && IsHex4(s[at..at + 4])
    ensures ok ==> cp == Hex4Value(s[at..at + 4])
  {
    cp := 0;
    if at + 4 > |s| {
      return 0, false;
    }
    var h := s[at..at + 4];
    for k := 0 to 4
      invariant forall i | 0 <= i < k :: IsHex(h[i])
      invariant k == 0 ==> cp == 0
      invariant k == 1 ==> cp == HexValue(h[0])
      invariant k == 2 ==> cp == 0x10 * HexValue(h[0]) + HexValue(h[1])
      invariant k == 3 ==> cp == 0x100 * HexValue(h[0]) + 0x10 * HexValue(h[1]) + HexValue(h[2])
      invariant k == 4 ==> cp == Hex4Value(h)
    {
      var c := h[k];
      if '0' <= c <= '9' {
        cp := cp * 16 + (c as int - '0' as int);
      } else if 'a' <= c <= 'f' {
        cp := cp * 16 + (c as int - 'a' as int + 10);
      } else if 'A' <= c <= 'F' {
        cp := cp * 16 + (c as int - 'A' as int + 10);
      } else {
        return 0, false;
      }
    }
    ok := true;
  }

  /** What the bytes from index `i` on look like from there. */
  lemma Window(s: string, i: nat)
    requires i < |s|
    ensures s[i..][0] == s[i] && s[i..][1..] == s[i + 1..]
    ensures i + 1 < |s| ==> s[i..][1] == s[i + 1]
    ensures i + 2 <= |s| ==> s[i..][2..] == s[i + 2..]
    ensures i + 6 <= |s| ==> s[i..][2..6] == s[i + 2..i + 6] && s[i..][6..] == s[i + 6..]
    ensures i + 12 <= |s| ==> s[i..][12..] == s[i + 12..]
  {
  }

  /** The look-ahead for the second half of a surrogate pair. */
  method LowSurrogateAt(s: string, i: nat) returns (ok: bool)
    requires i <= |s|
    ensures ok <==> LowAt(s[i..])
  {
    if i + 1 >= |s| {
      return false;
    }
    Window(s, i);
    if s[i] != '\\' || s[i + 1] != 'u' {
      return false;
    }
    var lo, good := ParseHex4(s, i + 2);
    return good && 0xDC00 <= lo <= 0xDFFF;
  }

  /** One step of ScanLiteral, at index `i` of `s`. */
  lemma LiteralStep(s: string, i: nat)
    requires i < |s|
    ensures s[i] == '\"' ==> ScanLiteral(s[i..]) == Closed(s[i + 1..])
    ensures s[i] != '\"' && s[i] != '\\' ==> ScanLiteral(s[i..]) == ScanLiteral(s[i + 1..])
    ensures s[i] == '\\' && i + 1 == |s| ==> ScanLiteral(s[i..]) == Overrun
    ensures s[i] == '\\' && i + 1 < |s| && s[i + 1] != 'u' ==> ScanLiteral(s[i..]) == ScanLiteral(s[i + 2..])
  {
    Window(s, i);
  }

  lemma LiteralEscape(s: string, i: nat)
    requires i + 1 < |s| && s[i] == '\\' && s[i + 1] == 'u'
    ensures i + 6 > |s| || !IsHex4(s[i + 2..i + 6]) ==> ScanLiteral(s[i..]) == Refused
    ensures i + 6 <= |s| && IsHex4(s[i + 2..i + 6]) ==>
              var u := Hex4Value(s[i + 2..i + 6]);
              ScanLiteral(s[i..]) ==
              if IsHigh(u) then if LowAt(s[i + 6..]) then ScanLiteral(s[i + 12..]) else Refused
              else if IsLow(u) then Refused
              else ScanLiteral(s[i + 6..])
  {
    Window(s, i);
  }

  /** One \u escape at index `i`, and the pair it may open: the index past it. */
  method SkipEscape(s: string, i: nat) returns (next: nat, ok: bool)
    requires i + 1 < |s| && s[i] == '\\' && s[i + 1] == 'u'
    ensures !ok ==> ScanLiteral(s[i..]) == Refused
    ensures ok ==> i < next <= |s| && ScanLiteral(s[i..]) == ScanLiteral(s[next..])
  {
    LiteralEscape(s, i);
    var cp, good := ParseHex4(s, i + 2);
    if !good {
      return 0, false;
    }
    if 0xD800 <= cp <= 0xDBFF {
      ok := LowSurrogateAt(s, i + 6);
      return i + 12, ok;
    } else if 0xDC00 <= cp <= 0xDFFF {
      return 0, false;
    }
    return i + 6, true;
  }

  /** scanJSONString: the index past the closing quote of the literal that starts at `start`. The
      look-ahead at i+1 carries no bounds check; the requires excludes the bodies it would overrun. */
  method ScanJsonString(s: string, start: nat) returns (end: nat, ok: bool)
    requires start < |s| && ScanLiteral(s[start + 1..]) != Overrun
    ensures ok <==> ScanLiteral(s[start + 1..]).Closed?
    ensures ok ==> start < end <= |s| && ScanLiteral(s[start + 1..]) == Closed(s[end..])
  {
    hide ScanLiteral;
    ghost var goal := ScanLiteral(s[start + 1..]);
    var i := start + 1;
    while i < |s|
      invariant start < i <= |s|
      invariant ScanLiteral(s[i..]) == goal
    {
      LiteralStep(s, i);
      if s[i] == '\"' {
        return i + 1, true;
      } else if s[i] == '\\' {
        if s[i + 1] != 'u' {
          i := i + 2;
          continue;
        }
        i, ok := SkipEscape(s, i);
        if !ok {
          return 0, false;
        }
      } else {
        i := i + 1;
      }
    }
    return 0, false;
  }

  /** One step of Scan outside a string literal. */
  lemma ScanStep(s: string, i: nat, depth: int, expectKey: bool)
    requires i < |s| && s[i] != '\"'
    ensures Scan(s[i..], depth, expectKey) ==
            if s[i] == '{' || s[i] == '[' then Scan(s[i + 1..], depth + 1, s[i] == '{' && depth + 1 == 1)
            else if s[i] == '}' || s[i] == ']' then Scan(s[i + 1..], depth - 1, expectKey)
            else if s[i] == ',' then Scan(s[i + 1..], depth, depth == 1)
            else Scan(s[i + 1..], depth, expectKey)
  {
    Window(s, i);
  }

  /** A string literal met by Scan at index `i` that has no closing quote or an unpaired surrogate. */
  lemma ScanBadLiteral(s: string, i: nat, depth: int, expectKey: bool)
    requires i < |s| && s[i] == '\"'
    ensures ScanLiteral(s[i + 1..]) == Refused ==> Scan(s[i..], depth, expectKey) == Rejected
    ensures ScanLiteral(s[i + 1..]) == Overrun ==> Scan(s[i..], depth, expectKey) == Overran
  {
    hide *;
    Opening(s, i);
    ScanUnclosed(s[i..], depth, expectKey);
  }

  lemma Opening(s: string, i: nat)
    requires i < |s|
    ensures s[i..] != "" && s[i..][0] == s[i] && s[i..][1..] == s[i + 1..]
  {
  }

  lemma Between(s: string, i: nat, next: nat)
    requires i <= next <= |s|
    ensures s[i..][..|s[i..]| - |s[next..]|] == s[i..next]
  {
  }

  /** A string literal met by Scan at index `i` that ends before index `next`. */
  lemma ScanGoodLiteral(s: string, i: nat, next: nat, depth: int, expectKey: bool)
    requires i < next <= |s| && s[i] == '\"' && ScanLiteral(s[i + 1..]) == Closed(s[next..])
    ensures !(depth == 1 && expectKey) ==> Scan(s[i..], depth, expectKey) == Scan(s[next..], depth, expectKey)
    ensures depth == 1 && expectKey ==>
              var key := Unquote(s[i..next]);
              Scan(s[i..], depth, expectKey) ==
              if key.None? || key.value == DEAD_LETTER then Rejected else Scan(s[next..], depth, false)
  {
    hide *;
    Opening(s, i);
    Between(s, i, next);
    ScanClosed(s[i..], s[next..], depth, expectKey);
  }

  /** A string literal at index `i`: the index past it, or a refusal (an unpaired surrogate, or a
      top-level key that reads dead_letter). */
  method CheckLiteral(body: string, i: nat, depth: int, expectKey: bool) returns (next: nat, ok: bool)
    requires i < |body| && body[i] == '\"'
    requires Scan(body[i..], depth, expectKey) != Overran
    ensures !ok ==> Scan(body[i..], depth, expectKey) == Rejected
    ensures ok ==> i < next <= |body|
                   && Scan(body[i..], depth, expectKey) == Scan(body[next..], depth, expectKey && depth != 1)
  {
    ScanBadLiteral(body, i, depth, expectKey);
    next, ok := ScanJsonString(body, i);
    if !ok {
      return;
    }
    ScanGoodLiteral(body, i, next, depth, expectKey);
    if depth == 1 && expectKey {
      var key := Unquote(body[i..next]);
      ok := key.Some? && key.value != DEAD_LETTER;
    }
  }

  /** The main loop: brackets and commas move the depth and the key flag, string literals are checked. */
  method ScanBody(body: string, start: nat) returns (ok: bool)
    requires start <= |body| && Scan(body[start..], 0, false) != Overran
    ensures ok <==> Scan(body[start..], 0, false) == Accepted
  {
    ghost var goal := Scan(body[start..], 0, false);
    var i := start;
    var depth := 0;
    var expectKey := false;
    while i < |body|
      invariant 0 <= i <= |body|
      invariant Scan(body[i..], depth, expectKey) == goal
    {
      var c := body[i];
      if c == '\"' {
        i, ok := CheckLiteral(body, i, depth, expectKey);
        if !ok {
          return;
        }
        expectKey := expectKey && depth != 1;
        continue;
      }
      ScanStep(body, i, depth, expectKey);
      if c == '{' || c == '[' {
        depth := depth + 1;
        expectKey := c == '{' && depth == 1;
      } else if c == '}' || c == ']' {
        depth := depth - 1;
      } else if c == ',' {
        expectKey := depth == 1;
      }
      i := i + 1;
    }
    return true;
  }

  /** The part of isSpliceableObject after the library checks: skip white space, look for the opening
      brace, scan. */
  method ScanFromBrace(body: string, ghost d: Doc) returns (ok: bool)
    requires Reads(d, body)
    ensures ok <==> CanSplice(d.value)
  {
    hide ValueThen, ValuePaired, Scan, CanSplice, Members;
    var i := 0;
    while i < |body| && IsSpace(body[i])
      invariant 0 <= i <= |body|
      invariant IsBlank(body[..i])
    {
      i := i + 1;
    }
    AtValue(d, body, i);
    BraceIsObject(d.value, d.after);
    if i >= |body| || body[i] != '{' {
      return false;
    }
    ScanObject(d.value, d.after);
    ok := ScanBody(body, i);
  }

  /** isSpliceableObject. */
  method IsSpliceableObject(body: string) returns (ok: bool)
    ensures ok <==> Spliceable(body)
  {
    if !ValidUtf8(body) || !JsonValid(body) {
      return false;
    }
    ghost var d: Doc :| Reads(d, body);
    SpliceableMeans(d, body);
    ok := ScanFromBrace(body, d);
  }

  lemma AtValue(d: Doc, body: string, i: nat)
    requires Reads(d, body)
    requires i <= |body| && IsBlank(body[..i]) && (i < |body| ==> !IsSpace(body[i]))
    ensures i < |body| && body[i..] == ValueThen(d.value, d.after) && body[i] == ValueThen(d.value, d.after)[0]
  {
    assert body == body[..i] + body[i..];
    SkipSpaceIs(body[..i], body[i..]);
    ValueStart(d.value, d.after);
    SkipSpaceIs(d.before, ValueThen(d.value, d.after));
  }

  lemma BraceIsObject(v: Value, rest: string)
    requires ValueOk(v)
    ensures ValueThen(v, rest) != ""
    ensures IsObject(v) <==> ValueThen(v, rest)[0] == '{'
    ensures CanSplice(v) ==> IsObject(v)
  {
    ValueStart(v, rest);
    match v
    case Literal(w) => assert ValueThen(v, rest)[0] == w[0];
    case Numeric(n) => NumberStart(n, rest);
    case _ =>
  }
}
