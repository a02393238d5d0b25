/**
  A recursive-descent reader of the JSON grammar, standing for encoding/json's validity check. Its
  contracts say that what it reads is in the grammar; the lemmas below that it reads all of the
  grammar, each text in one way only.
 */
module JsonParser {
  import opened Wrappers
  import opened JsonGrammar

  /** The length of the longest prefix of `s` whose characters all satisfy `p`. */
  function RunLength(p: char -> bool, s: string): (n: nat)
    ensures n <= |s|
    ensures forall i | 0 <= i < n :: p(s[i])
    ensures n < |s| ==> !p(s[n])
  {
    if s == "" || !p(s[0]) then 0 else 1 + RunLength(p, s[1..])
  }

  lemma {:induction false} RunLengthIs(p: char -> bool, a: string, rest: string)
    requires forall i | 0 <= i < |a| :: p(a[i])
    requires rest == "" || !p(rest[0])
    ensures RunLength(p, a + rest) == |a|
  {
    if a == "" {
      assert a + rest == rest;
    } else {
      assert (a + rest)[1..] == a[1..] + rest;
      RunLengthIs(p, a[1..], rest);
    }
  }

  lemma Cut(a: string, rest: string)
    ensures (a + rest)[..|a|] == a && (a + rest)[|a|..] == rest
  {
  }

  // ---------- Numbers ----------

  function SignOf(s: string): (sign: string)
    ensures (sign == "" || sign == "+" || sign == "-") && |sign| <= |s| && s == sign + s[|sign|..]
  {
    if s != "" && (s[0] == '+' || s[0] == '-') then s[..1] else ""
  }

  /** One digit or more. */
  function TakeDigits(s: string): (r: Option<(string, string)>)
    ensures r.Some? ==> r.value.0 != "" && AreDigits(r.value.0) && s == r.value.0 + r.value.1
  {
    var n := RunLength(IsDigit, s);
    if n == 0 then None else Some((s[..n], s[n..]))
  }

  lemma ExponentIs(s: string, sign: string, digits: string, rest: string)
    requires s != "" && s[1..] == sign + (digits + rest)
    ensures s == [s[0]] + (sign + (digits + rest))
  {
  }

  function ParseExponent(s: string): (r: Option<(Option<Exponent>, string)>)
    ensures r.Some? ==>
              && (r.value.0.Some? ==> ExponentOk(r.value.0.value))
              && s == ExponentThen(r.value.0, r.value.1)
  {
    if s == "" || (s[0] != 'e' && s[0] != 'E') then Some((None, s))
    else
      var sign := SignOf(s[1..]);
      match TakeDigits(s[1..][|sign|..])
      case None => None
      case Some((digits, rest)) =>
        ExponentIs(s, sign, digits, rest);
        Some((Some(Exponent(s[0], sign, digits)), rest))
  }

  function ParseFraction(s: string): (r: Option<(string, string)>)
    ensures r.Some? ==> AreDigits(r.value.0) && s == FractionThen(r.value.0, r.value.1)
  {
    if s == "" || s[0] != '.' then Some(("", s)) else TakeDigits(s[1..])
  }

  lemma WholeIs(s: string, n: nat, fraction: string, exponent: Option<Exponent>, rest: string)
    requires 0 < n <= |s| && (forall i :: 0 <= i < n ==> IsDigit(s[i])) && (s[0] == '0' ==> n == 1)
    requires AreDigits(fraction) && (exponent.Some? ==> ExponentOk(exponent.value))
    requires s[n..] == FractionThen(fraction, ExponentThen(exponent, rest))
    ensures var w := Number(false, s[..n], fraction, exponent); NumberOk(w) && s == WholeThen(w, rest)
  {
    hide FractionThen, ExponentThen, ExponentOk;
    assert s == s[..n] + s[n..];
  }

  /** Reads an unsigned number; the sign is added by ParseNumber. */
  function ParseWhole(s: string): (r: Option<(Number, string)>)
    ensures r.Some? ==> NumberOk(r.value.0) && !r.value.0.minus && s == WholeThen(r.value.0, r.value.1)
  {
    var n := if s != "" && s[0] == '0' then 1 else RunLength(IsDigit, s);
    if n == 0 then None
    else
      match ParseFraction(s[n..])
      case None => None
      case Some((fraction, u)) =>
        match ParseExponent(u)
        case None => None
        case Some((exponent, rest)) =>
          WholeIs(s, n, fraction, exponent, rest);
          Some((Number(false, s[..n], fraction, exponent), rest))
  }

  function ParseNumber(s: string): (r: Option<(Number, string)>)
    ensures r.Some? ==> NumberOk(r.value.0) && s == NumberThen(r.value.0, r.value.1)
  {
    if s != "" && s[0] == '-' then
      match ParseWhole(s[1..])
      case None => None
      case Some((n, rest)) => Some((n.(minus := true), rest))
    else ParseWhole(s)
  }

  /** `rest` cannot continue a number: every text that follows a value in the grammar is like this. */
  predicate EndsNumber(rest: string) {
    rest == "" || !(IsDigit(rest[0]) || rest[0] == '.' || rest[0] == 'e' || rest[0] == 'E')
  }

  lemma SignOfIs(sign: string, t: string)
    requires (sign == "" || sign == "+" || sign == "-") && t != "" && IsDigit(t[0])
    ensures SignOf(sign + t) == sign && (sign + t)[|sign|..] == t
  {
    if sign == "" {
      assert sign + t == t;
    } else {
      assert (sign + t)[0] == sign[0];
    }
  }

  lemma TakeDigitsIs(digits: string, rest: string)
    requires digits != "" && AreDigits(digits) && (rest == "" || !IsDigit(rest[0]))
    ensures TakeDigits(digits + rest) == Some((digits, rest))
  {
    RunLengthIs(IsDigit, digits, rest);
    Cut(digits, rest);
  }

  lemma ParseExponentComplete(x: Option<Exponent>, rest: string)
    requires x.Some? ==> ExponentOk(x.value)
    requires EndsNumber(rest)
    ensures ParseExponent(ExponentThen(x, rest)) == Some((x, rest))
  {
    if x.Some? {
      var y := x.value;
      assert (y.digits + rest)[0] == y.digits[0];
      SignOfIs(y.sign, y.digits + rest);
      TailOf(y.e, y.sign + (y.digits + rest));
      TakeDigitsIs(y.digits, rest);
    }
    hide SignOf, AreDigits, TakeDigits;
  }

  lemma TailOf(c: char, s: string)
    ensures ([c] + s)[0] == c && ([c] + s)[1..] == s
  {
  }

  lemma ParseFractionComplete(f: string, rest: string)
    requires AreDigits(f)
    requires rest == "" || !(IsDigit(rest[0]) || rest[0] == '.')
    ensures ParseFraction(FractionThen(f, rest)) == Some((f, rest))
  {
    if f != "" {
      TailOf('.', f + rest);
      TakeDigitsIs(f, rest);
    }
    hide AreDigits, TakeDigits;
  }

  lemma ParseWholeComplete(n: Number, rest: string)
    requires NumberOk(n) && EndsNumber(rest)
    ensures ParseWhole(WholeThen(n, rest)) == Some((n.(minus := false), rest))
  {
    var tail := ExponentThen(n.exponent, rest);
    var mid := FractionThen(n.fraction, tail);
    assert mid == "" || !IsDigit(mid[0]);
    RunLengthIs(IsDigit, n.whole, mid);
    assert (n.whole + mid)[0] == n.whole[0];
    Cut(n.whole, mid);
    ParseFractionComplete(n.fraction, tail);
    ParseExponentComplete(n.exponent, rest);
  }

  lemma ParseNumberComplete(n: Number, rest: string)
    requires NumberOk(n) && EndsNumber(rest)
    ensures ParseNumber(NumberThen(n, rest)) == Some((n, rest))
  {
    ParseWholeComplete(n, rest);
    var s := WholeThen(n, rest);
    assert s[0] == n.whole[0];
    assert n.minus ==> NumberThen(n, rest)[1..] == s;
  }

  // ---------- Strings ----------

  function ParseItem(s: string): (r: Option<StrItem>)
    requires s != "" && s[0] != '\"'
    ensures r.Some? ==>
      ItemOk(r.value) && 0 < |ItemText(r.value)| <= |s| && s == ItemText(r.value) + s[|ItemText(r.value)|..]
  {
    if s[0] != '\\' then
      if s[0] >= ' ' then Some(Plain(s[0])) else None
    else if |s| < 2 then None
    else if s[1] == 'u' then
      if |s| >= 6 && IsHex4(s[2..6]) then Some(Unicode(s[2..6])) else None
    else if IsShortEscape(s[1]) then Some(Short(s[1]))
    else None
  }

  /** Reads the pieces of a string literal up to and including its closing quote. */
  function ParseItems(s: string): (r: Option<(seq<StrItem>, string)>)
    ensures r.Some? ==>
              && ItemsOk(r.value.0)
              && s == ItemsThen(r.value.0, ['\"'] + r.value.1)
  {
    if s == "" then None
    else if s[0] == '\"' then Some(([], s[1..]))
    else
      match ParseItem(s)
      case None => None
      case Some(it) =>
        match ParseItems(s[|ItemText(it)|..])
        case None => None
        case Some((items, rest)) =>
          assert ([it] + items)[1..] == items;
          Some(([it] + items, rest))
  }

  lemma ParseItemComplete(it: StrItem, rest: string)
    requires ItemOk(it)
    ensures ItemText(it) != "" && ItemText(it)[0] != '\"'
    ensures ParseItem(ItemText(it) + rest) == Some(it)
  {
    if it.Unicode? {
      assert (ItemText(it) + rest)[2..6] == it.hex;
    }
  }

  lemma {:induction false} ParseItemsComplete(items: seq<StrItem>, rest: string)
    requires ItemsOk(items)
    ensures ParseItems(ItemsThen(items, ['\"'] + rest)) == Some((items, rest))
  {
    if items != [] {
      var t := ItemsThen(items[1..], ['\"'] + rest);
      ParseItemComplete(items[0], t);
      Cut(ItemText(items[0]), t);
      ParseItemsComplete(items[1..], rest);
      assert [items[0]] + items[1..] == items;
    }
  }

  // ---------- Values ----------

  /** Drops leading white space: the blank prefix and what follows it. */
  function SkipSpace(s: string): (r: (string, string))
    ensures IsBlank(r.0) && s == r.0 + r.1 && |r.1| <= |s|
    ensures r.1 == "" || !IsSpace(r.1[0])
  {
    var n := RunLength(IsSpace, s);
    (s[..n], s[n..])
  }

  lemma SkipSpaceIs(w: string, rest: string)
    requires IsBlank(w)
    requires rest == "" || !IsSpace(rest[0])
    ensures SkipSpace(w + rest) == (w, rest)
  {
    RunLengthIs(IsSpace, w, rest);
    Cut(w, rest);
  }

  /** Drops one expected character. */
  function Expect(c: char, s: string): (r: Option<string>)
    ensures r.Some? ==> s == [c] + r.value
  {
    if s != "" && s[0] == c then Some(s[1..]) else None
  }

  lemma ExpectIs(c: char, rest: string)
    ensures Expect(c, [c] + rest) == Some(rest)
  {
  }

  /** Reads the name and colon of a member; an array element has neither. */
  function ParseName(s: string, b: Bracket): (r: Option<(Option<Name>, string)>)
    ensures r.Some? ==>
              && NameOk(r.value.0, b)
              && s == NameThen(r.value.0, r.value.1)
  {
    if b.Square? then Some((None, s))
    else
      var (before, q) := SkipSpace(s);
      match Expect('\"', q)
      case None => None
      case Some(u) =>
        match ParseItems(u)
        case None => None
        case Some((items, t)) =>
          var (after, c) := SkipSpace(t);
          match Expect(':', c)
          case None => None
          case Some(rest) => Some((Some(Name(before, items, after)), rest))
  }

  lemma NameThenLength(n: Option<Name>, rest: string)
    ensures |NameThen(n, rest)| >= |rest|
  {
    if n.Some? {
      ItemsThenLength(n.value.items, ['\"'] + (n.value.after + ([':'] + rest)));
    }
  }

  lemma ItemsThenLength(items: seq<StrItem>, rest: string)
    ensures |ItemsThen(items, rest)| >= |rest|
  {
  }

  /** Reads one entry of a container, whose values may nest `d` deep. */
  function ParseEntry(s: string, b: Bracket, d: nat): (r: Option<(Entry, string)>)
    decreases |s|, 2
    ensures r.Some? ==>
              && EntryOk(r.value.0, b) && ValueDepth(r.value.0.value) <= d
              && s == EntryThen(r.value.0, r.value.1) && |r.value.1| < |s|
  {
    match ParseName(s, b)
    case None => None
    case Some((name, t)) =>
      NameThenLength(name, t);
      var (before, w) := SkipSpace(t);
      match ParseValue(w, d)
      case None => None
      case Some((v, u)) =>
        var (after, rest) := SkipSpace(u);
        Some((Entry(name, before, v, after), rest))
  }

  /** Reads the entries of a container up to and including its closing bracket. */
  function ParseEntries(s: string, b: Bracket, d: nat): (r: Option<(Entries, string)>)
    decreases |s|, 3
    ensures r.Some? ==>
              && EntriesOk(r.value.0, b) && EntriesDepth(r.value.0) <= d
              && s == EntriesThen(r.value.0, [Close(b)] + r.value.1) && |r.value.1| < |s|
  {
    match ParseEntry(s, b, d)
    case None => None
    case Some((e, t)) =>
      match (Expect(Close(b), t), Expect(',', t))
      case (Some(rest), _) => Some((Single(e), rest))
      case (None, None) => None
      case (None, Some(u)) =>
        match ParseEntries(u, b, d)
        case None => None
        case Some((es, rest)) => Some((Series(e, es), rest))
  }

  /** Reads one value that nests at most `d` deep. */
  function ParseValue(s: string, d: nat): (r: Option<(Value, string)>)
    decreases |s|, 1
    ensures r.Some? ==>
              && ValueOk(r.value.0) && ValueDepth(r.value.0) <= d
              && s == ValueThen(r.value.0, r.value.1) && |r.value.1| < |s|
  {
    if s == "" then None
    else if s[0] == '\"' then ParseText(s)
    else if s[0] == '{' then ParseContainer(s, Curly, d)
    else if s[0] == '[' then ParseContainer(s, Square, d)
    else ParseScalar(s)
  }

  function ParseText(s: string): (r: Option<(Value, string)>)
    requires s != "" && s[0] == '\"'
    ensures r.Some? ==>
      r.value.0.Text? && ValueOk(r.value.0) && s == ValueThen(r.value.0, r.value.1) && |r.value.1| < |s|
  {
    match ParseItems(s[1..])
    case None => None
    case Some((items, rest)) =>
      ItemsThenLength(items, ['\"'] + rest);
      assert s == ['\"'] + s[1..];
      Some((Text(items), rest))
  }

  function ParseScalar(s: string): (r: Option<(Value, string)>)
    ensures r.Some? ==>
              && (r.value.0.Literal? || r.value.0.Numeric?) && ValueOk(r.value.0)
              && s == ValueThen(r.value.0, r.value.1) && |r.value.1| < |s|
  {
    if "true" <= s then Some((Literal("true"), s[4..]))
    else if "false" <= s then Some((Literal("false"), s[5..]))
    else if "null" <= s then Some((Literal("null"), s[4..]))
    else
      match ParseNumber(s)
      case None => None
      case Some((n, rest)) =>
        NumberThenLength(n, rest);
        Some((Numeric(n), rest))
  }

  lemma NumberThenLength(n: Number, rest: string)
    requires NumberOk(n)
    ensures |NumberThen(n, rest)| > |rest|
  {
    var t := ExponentThen(n.exponent, rest);
    assert |t| >= |rest|;
    assert |FractionThen(n.fraction, t)| >= |t|;
  }

  function ParseContainer(s: string, b: Bracket, d: nat): (r: Option<(Value, string)>)
    requires s != "" && s[0] == Open(b)
    decreases |s|, 0
    ensures r.Some? ==>
              && ValueOk(r.value.0) && ValueDepth(r.value.0) <= d
              && s == ValueThen(r.value.0, r.value.1) && |r.value.1| < |s|
  {
    var t := s[1..];
    assert s == [Open(b)] + t;
    var (blank, u) := SkipSpace(t);
    if d == 0 then None
    else
      match Expect(Close(b), u)
      case Some(rest) => Some((Empty(b, blank), rest))
      case None =>
        match ParseEntries(t, b, d - 1)
        case None => None
        case Some((es, rest)) => Some((Group(b, es), rest))
  }

  /** Reads a whole JSON text. */
  function ParseDoc(s: string): (r: Option<Doc>)
    ensures r.Some? ==> Reads(r.value, s)
  {
    var (before, t) := SkipSpace(s);
    match ParseValue(t, MAX_NESTING_DEPTH)
    case None => None
    case Some((v, after)) => if IsBlank(after) then Some(Doc(before, v, after)) else None
  }

  // ---------- Completeness ----------

  /** What may follow a value: the end, white space, a comma or a closing bracket. */
  predicate Follows(rest: string) {
    rest == "" || IsSpace(rest[0]) || rest[0] == ',' || rest[0] == '}' || rest[0] == ']'
  }

  predicate StartsValue(c: char) {
    c == '{' || c == '[' || c == '\"' || c == '-' || c == 't' || c == 'f' || c == 'n' || IsDigit(c)
  }

  lemma ValueStart(v: Value, rest: string)
    requires ValueOk(v)
    ensures ValueThen(v, rest) != "" && StartsValue(ValueThen(v, rest)[0])
  {
    if v.Numeric? {
      assert WholeThen(v.number, rest)[0] == v.number.whole[0];
    }
  }

  lemma EntryStart(e: Entry, b: Bracket, rest: string)
    requires EntryOk(e, b)
    ensures SkipSpace(EntryThen(e, rest)).1 != "" && StartsValue(SkipSpace(EntryThen(e, rest)).1[0])
  {
    var u := ValueThen(e.value, e.after + rest);
    ValueStart(e.value, e.after + rest);
    match e.name
    case None => SkipSpaceIs(e.before, u);
    case Some(m) => SkipSpaceIs(m.before, QuotedThen(m.items, m.after + ([':'] + (e.before + u))));
  }

  lemma ParseNameComplete(n: Option<Name>, b: Bracket, rest: string)
    requires NameOk(n, b)
    ensures ParseName(NameThen(n, rest), b) == Some((n, rest))
  {
    if n.Some? {
      var m := n.value;
      var c := [':'] + rest;
      SkipSpaceIs(m.after, c);
      ParseItemsComplete(m.items, m.after + c);
      var u := ItemsThen(m.items, ['\"'] + (m.after + c));
      SkipSpaceIs(m.before, ['\"'] + u);
      ExpectIs('\"', u);
      ExpectIs(':', rest);
    }
  }

  lemma ParseLiteralComplete(w: string, rest: string)
    requires ValueOk(Literal(w))
    ensures ParseScalar(w + rest) == Some((Literal(w), rest))
  {
    Cut(w, rest);
    assert (w + rest)[0] == w[0];
  }

  lemma NumberStart(n: Number, rest: string)
    requires NumberOk(n)
    ensures NumberThen(n, rest) != "" && (NumberThen(n, rest)[0] == '-' || IsDigit(NumberThen(n, rest)[0]))
  {
    assert WholeThen(n, rest)[0] == n.whole[0];
  }

  lemma NotALiteral(s: string)
    requires s != "" && (s[0] == '-' || IsDigit(s[0]))
    ensures !("true" <= s) && !("false" <= s) && !("null" <= s)
  {
    assert "true"[0] == 't' && "false"[0] == 'f' && "null"[0] == 'n';
  }

  lemma ParseNumericComplete(n: Number, rest: string)
    requires NumberOk(n) && EndsNumber(rest)
    ensures ParseScalar(NumberThen(n, rest)) == Some((Numeric(n), rest))
  {
    NumberStart(n, rest);
    NotALiteral(NumberThen(n, rest));
    ParseNumberComplete(n, rest);
  }

  lemma ParseTextComplete(items: seq<StrItem>, rest: string)
    requires ItemsOk(items)
    ensures ParseText(QuotedThen(items, rest)) == Some((Text(items), rest))
  {
    assert QuotedThen(items, rest)[1..] == ItemsThen(items, ['\"'] + rest);
    ParseItemsComplete(items, rest);
  }

  lemma ParseEmptyComplete(b: Bracket, blank: string, d: nat, rest: string)
    requires IsBlank(blank) && d > 0
    ensures ParseContainer([Open(b)] + (blank + ([Close(b)] + rest)), b, d) == Some((Empty(b, blank), rest))
  {
    var u := [Close(b)] + rest;
    assert ([Open(b)] + (blank + u))[1..] == blank + u;
    SkipSpaceIs(blank, u);
    ExpectIs(Close(b), rest);
  }

  lemma ParseGroupComplete(b: Bracket, es: Entries, d: nat, rest: string)
    requires EntriesOk(es, b) && d > 0
    requires ParseEntries(EntriesThen(es, [Close(b)] + rest), b, d - 1) == Some((es, rest))
    ensures ParseContainer([Open(b)] + EntriesThen(es, [Close(b)] + rest), b, d) == Some((Group(b, es), rest))
  {
    var t := EntriesThen(es, [Close(b)] + rest);
    assert ([Open(b)] + t)[1..] == t;
    EntriesStart(es, b, [Close(b)] + rest);
    assert Expect(Close(b), SkipSpace(t).1) == None;
  }

  /** The first character selects how a value is read. */
  lemma ParseValueByStart(s: string, d: nat)
    requires s != ""
    ensures s[0] == '\"' ==> ParseValue(s, d) == ParseText(s)
    ensures s[0] == '{' ==> ParseValue(s, d) == ParseContainer(s, Curly, d)
    ensures s[0] == '[' ==> ParseValue(s, d) == ParseContainer(s, Square, d)
    ensures s[0] != '\"' && s[0] != '{' && s[0] != '[' ==> ParseValue(s, d) == ParseScalar(s)
  {
  }

  lemma {:induction false} ParseValueComplete(v: Value, d: nat, rest: string)
    requires ValueOk(v) && ValueDepth(v) <= d && Follows(rest)
    decreases v, 0
    ensures ParseValue(ValueThen(v, rest), d) == Some((v, rest))
  {
    hide ParseValue, ParseText, ParseScalar, ParseContainer, ParseEntries;
    var s := ValueThen(v, rest);
    ValueStart(v, rest);
    ParseValueByStart(s, d);
    match v
    case Literal(w) =>
      assert s[0] == w[0];
      ParseLiteralComplete(w, rest);
    case Numeric(n) =>
      NumberStart(n, rest);
      ParseNumericComplete(n, rest);
    case Text(items) =>
      assert s[0] == '\"';
      ParseTextComplete(items, rest);
    case Empty(b, blank) =>
      assert s[0] == Open(b);
      ParseEmptyComplete(b, blank, d, rest);
    case Group(b, es) =>
      assert s[0] == Open(b);
      ParseEntriesComplete(es, b, d - 1, rest);
      ParseGroupComplete(b, es, d, rest);
  }

  lemma EntriesStart(es: Entries, b: Bracket, rest: string)
    requires EntriesOk(es, b)
    ensures SkipSpace(EntriesThen(es, rest)).1 != "" && StartsValue(SkipSpace(EntriesThen(es, rest)).1[0])
  {
    match es
    case Single(e) => EntryStart(e, b, rest);
    case Series(e, more) => EntryStart(e, b, [','] + EntriesThen(more, rest));
  }

  lemma {:induction false} ParseEntryComplete(e: Entry, b: Bracket, d: nat, rest: string)
    requires EntryOk(e, b) && ValueDepth(e.value) <= d
    requires rest != "" && (rest[0] == ',' || rest[0] == '}' || rest[0] == ']')
    decreases e, 1
    ensures ParseEntry(EntryThen(e, rest), b, d) == Some((e, rest))
  {
    var u := e.after + rest;
    assert Follows(u) by { assert u[0] == if e.after == "" then rest[0] else e.after[0]; }
    ParseValueComplete(e.value, d, u);
    ParseEntryFrom(e, b, d, rest);
  }

  lemma ParseEntryFrom(e: Entry, b: Bracket, d: nat, rest: string)
    requires EntryOk(e, b)
    requires rest != "" && !IsSpace(rest[0])
    requires ParseValue(ValueThen(e.value, e.after + rest), d) == Some((e.value, e.after + rest))
    ensures ParseEntry(EntryThen(e, rest), b, d) == Some((e, rest))
  {
    var w := ValueThen(e.value, e.after + rest);
    EntryParts(e, b, rest);
    ValueStart(e.value, e.after + rest);
    NoSpaceStarts(w);
    hide *;
    ParseNameComplete(e.name, b, e.before + w);
    SkipSpaceIs(e.before, w);
    SkipSpaceIs(e.after, rest);
    ParseEntryIs(EntryThen(e, rest), b, d, e, e.before + w, w, e.after + rest, rest);
  }

  lemma EntryParts(e: Entry, b: Bracket, rest: string)
    requires EntryOk(e, b)
    ensures NameOk(e.name, b) && IsBlank(e.before) && ValueOk(e.value) && IsBlank(e.after)
    ensures EntryThen(e, rest) == NameThen(e.name, e.before + ValueThen(e.value, e.after + rest))
  {
    hide NameOk, IsBlank, ValueOk, NameThen, ValueThen;
  }

  lemma NoSpaceStarts(s: string)
    requires s != "" && StartsValue(s[0])
    ensures !IsSpace(s[0])
  {
  }

  lemma ParseEntryIs(s: string, b: Bracket, d: nat, e: Entry, t: string, w: string, u: string, rest: string)
    requires ParseName(s, b) == Some((e.name, t)) && SkipSpace(t) == (e.before, w)
    requires ParseValue(w, d) == Some((e.value, u)) && SkipSpace(u) == (e.after, rest)
    ensures ParseEntry(s, b, d) == Some((e, rest))
  {
    hide ParseValue, ParseName, SkipSpace;
  }

  lemma {:induction false} ParseEntriesComplete(es: Entries, b: Bracket, d: nat, rest: string)
    requires EntriesOk(es, b) && EntriesDepth(es) <= d
    decreases es, 2
    ensures ParseEntries(EntriesThen(es, [Close(b)] + rest), b, d) == Some((es, rest))
  {
    hide ParseEntry, EntryThen, EntryOk, ValueDepth;
    match es
    case Single(e) =>
      ParseEntryComplete(e, b, d, [Close(b)] + rest);
      ExpectIs(Close(b), rest);
    case Series(e, more) =>
      var u := EntriesThen(more, [Close(b)] + rest);
      ParseEntryComplete(e, b, d, [','] + u);
      ExpectIs(',', u);
      ParseEntriesComplete(more, b, d, rest);
  }

  /** Every reading of `s` is the one ParseDoc finds: JSON validity is decided, and is unambiguous. */
  lemma ReadingIsUnique(d: Doc, s: string)
    requires Reads(d, s)
    ensures ParseDoc(s) == Some(d)
  {
    var t := ValueThen(d.value, d.after);
    ValueStart(d.value, d.after);
    SkipSpaceIs(d.before, t);
    ParseValueComplete(d.value, MAX_NESTING_DEPTH, d.after);
  }

  /** encoding/json's Valid: `s` is a JSON text. */
  predicate JsonValid(s: string)
    ensures JsonValid(s) <==> exists d :: Reads(d, s)
  {
    forall d | Reads(d, s) ensures ParseDoc(s).Some? { ReadingIsUnique(d, s); }
    ParseDoc(s).Some?
  }
}
