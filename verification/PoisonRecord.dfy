/**
  The dead-letter record of a poison body (poison_record.go). A spliceable body keeps every byte and gains one
  member; any other body is carried whole inside a wrapper object, as text or as base64. Both are strict JSON
  objects with exactly one top-level dead_letter, and from both the body can be had again.
 */
module PoisonRecord {
  import opened Wrappers
  import opened Arithmetic
  import opened JsonGrammar
  import opened JsonParser
  import opened JsonStrings
  import opened PoisonScanner
  import opened Utf8
  import Base64

  // ---------- Encoding a string as a JSON literal (marshalJSONString) ----------

  function Plains(t: string): (items: seq<StrItem>)
    ensures |items| == |t| && forall i | 0 <= i < |t| :: items[i] == Plain(t[i])
  {
    seq(|t|, i requires 0 <= i < |t| => Plain(t[i]))
  }

  function HexDigit(v: nat): (c: char)
    requires v < 16
    ensures IsHex(c) && HexValue(c) == v && c != '\"' && c != '\\' && c >= ' ' && c as int < 0x80
  {
    if v < 10 then ('0' as int + v) as char else ('a' as int + (v - 10)) as char
  }

  /** One ASCII byte: quotes, backslashes and control characters are escaped. */
  function QuoteAscii(c: char): (it: StrItem)
    requires c as int < 0x80
    ensures ItemOk(it) && !IsHighItem(it) && !IsLowItem(it)
  {
    if c == '\"' || c == '\\' then Short(c)
    else if c == '\U{0008}' then Short('b')
    else if c == '\U{000C}' then Short('f')
    else if c == '\n' then Short('n')
    else if c == '\r' then Short('r')
    else if c == '\t' then Short('t')
    else if c < ' ' then Unicode(['0', '0', HexDigit(c as int / 16), HexDigit(c as int % 16)])
    else Plain(c)
  }

  /** The pieces of one character, given by its bytes; U+2028 and U+2029 are escaped too. */
  function QuoteRune(r: string): (items: seq<StrItem>)
    requires RuneLength(r) == |r| > 0
    ensures ItemsOk(items)
  {
    if |r| == 1 then [QuoteAscii(r[0])]
    else if r == EncodeRune(0x2028) then [Unicode("2028")]
    else if r == EncodeRune(0x2029) then [Unicode("2029")]
    else Plains(r)
  }

  /** The pieces encoding/json writes for valid UTF-8. */
  function Quote(s: string): (items: seq<StrItem>)
    requires ValidUtf8(s)
    ensures ItemsOk(items)
  {
    if s == "" then []
    else
      FirstRune(s);
      QuoteRune(s[..RuneLength(s)]) + Quote(s[RuneLength(s)..])
  }

  /** The first character of a text is a text of one character. */
  lemma FirstRune(s: string)
    requires RuneLength(s) > 0
    ensures RuneLength(s[..RuneLength(s)]) == |s[..RuneLength(s)]| == RuneLength(s)
    ensures s == s[..RuneLength(s)] + s[RuneLength(s)..]
  {
  }

  function MarshalString(s: string): string
    requires ValidUtf8(s)
  {
    QuotedThen(Quote(s), "")
  }

  lemma {:induction false} MeaningPlains(t: string, items: seq<StrItem>)
    requires ItemsOk(items) && ItemsOk(Plains(t))
    ensures ItemsOk(Plains(t) + items) && Meaning(Plains(t) + items) == t + Meaning(items)
  {
    if t == "" {
      assert Plains(t) + items == items;
    } else {
      PlainsCons(t, items);
      MeaningPlains(t[1..], items);
      MeaningOne(Plain(t[0]), Plains(t[1..]) + items, [t[0]]);
      Assoc([t[0]], t[1..], Meaning(items));
      assert t == [t[0]] + t[1..];
    }
    hide Meaning;
  }

  lemma MeaningOne(it: StrItem, items: seq<StrItem>, t: string)
    requires ItemOk(it) && ItemsOk(items) && !IsHighItem(it) && !IsLowItem(it)
    requires t ==
      match it case Plain(c) => [c] case Short(e) => ShortMeaning(e) case Unicode(h) => EncodeRune(Hex4Value(h))
    ensures ItemsOk([it] + items) && Meaning([it] + items) == t + Meaning(items)
  {
    assert ([it] + items)[0] == it && ([it] + items)[1..] == items;
  }

  lemma QuoteAsciiMeaning(c: char)
    requires c as int < 0x80
    ensures [c] == match QuoteAscii(c)
                   case Plain(d) => [d]
                   case Short(e) => ShortMeaning(e)
                   case Unicode(h) => EncodeRune(Hex4Value(h))
  {
    if c < ' ' {
      assert c as int / 16 * 16 + c as int % 16 == c as int;
    }
  }

  lemma MeaningQuoteRune(r: string, items: seq<StrItem>)
    requires RuneLength(r) == |r| > 0 && ItemsOk(items)
    ensures Meaning(QuoteRune(r) + items) == r + Meaning(items)
  {
    if |r| == 1 {
      QuoteAsciiMeaning(r[0]);
      MeaningOne(QuoteAscii(r[0]), items, [r[0]]);
    } else if r == EncodeRune(0x2028) {
      assert Hex4Value("2028") == 0x2028;
      MeaningOne(Unicode("2028"), items, r);
    } else if r == EncodeRune(0x2029) {
      assert Hex4Value("2029") == 0x2029;
      MeaningOne(Unicode("2029"), items, r);
    } else {
      MeaningPlains(r, items);
    }
  }

  /** Unescaping the encoded literal gives the string back. */
  lemma {:induction false} MeaningQuote(s: string)
    requires ValidUtf8(s)
    ensures Meaning(Quote(s)) == s
  {
    if s != "" {
      FirstRune(s);
      MeaningQuote(s[RuneLength(s)..]);
      MeaningQuoteRune(s[..RuneLength(s)], Quote(s[RuneLength(s)..]));
    }
  }

  lemma ItemsThenOne(it: StrItem, items: seq<StrItem>, rest: string)
    ensures ItemsThen([it] + items, rest) == ItemText(it) + ItemsThen(items, rest)
  {
    assert ([it] + items)[1..] == items;
  }

  lemma PlainsCons(t: string, items: seq<StrItem>)
    requires t != ""
    ensures Plains(t) + items == [Plain(t[0])] + (Plains(t[1..]) + items)
  {
  }

  lemma {:induction false} ItemsThenPlains(t: string, items: seq<StrItem>, rest: string)
    ensures ItemsThen(Plains(t) + items, rest) == t + ItemsThen(items, rest)
  {
    if t == "" {
      assert Plains(t) + items == items;
    } else {
      PlainsCons(t, items);
      ItemsThenOne(Plain(t[0]), Plains(t[1..]) + items, rest);
      ItemsThenPlains(t[1..], items, rest);
      Assoc([t[0]], t[1..], ItemsThen(items, rest));
      assert t == [t[0]] + t[1..];
    }
    hide ItemsThen;
  }

  lemma QuoteAsciiText(c: char)
    requires c as int < 0x80
    ensures ValidUtf8(ItemText(QuoteAscii(c)))
  {
    AsciiIsValid(ItemText(QuoteAscii(c)));
  }

  lemma OneIsUtf8(it: StrItem, items: seq<StrItem>, rest: string)
    requires ValidUtf8(ItemText(it)) && ValidUtf8(ItemsThen(items, rest))
    ensures ValidUtf8(ItemsThen([it] + items, rest))
  {
    ItemsThenOne(it, items, rest);
    ValidUtf8Concat(ItemText(it), ItemsThen(items, rest));
    hide ValidUtf8, ItemsThen, ItemText;
  }

  lemma QuoteRuneIsUtf8(r: string, items: seq<StrItem>, rest: string)
    requires RuneLength(r) == |r| > 0 && ValidUtf8(ItemsThen(items, rest))
    ensures ValidUtf8(ItemsThen(QuoteRune(r) + items, rest))
  {
    if |r| > 1 && r != EncodeRune(0x2028) && r != EncodeRune(0x2029) {
      ItemsThenPlains(r, items, rest);
      assert r[|r|..] == "";
      ValidUtf8Concat(r, ItemsThen(items, rest));
    } else {
      if |r| == 1 {
        QuoteAsciiText(r[0]);
      } else {
        AsciiIsValid(ItemText(QuoteRune(r)[0]));
      }
      OneIsUtf8(QuoteRune(r)[0], items, rest);
      assert QuoteRune(r) == [QuoteRune(r)[0]];
    }
    hide ItemsThen;
  }

  /** The encoded literal is valid UTF-8. */
  lemma {:induction false} QuoteIsUtf8(s: string, rest: string)
    requires ValidUtf8(s) && ValidUtf8(rest)
    ensures ValidUtf8(ItemsThen(Quote(s), rest))
  {
    if s != "" {
      FirstRune(s);
      QuoteIsUtf8(s[RuneLength(s)..], rest);
      QuoteRuneIsUtf8(s[..RuneLength(s)], Quote(s[RuneLength(s)..]), rest);
    }
  }

  // ---------- Trimming ----------

  function TrimRight(s: string): string {
    if s != "" && IsSpace(s[|s| - 1]) then TrimRight(s[..|s| - 1]) else s
  }

  /** strings.Trim with JSON's white space as the cutset. */
  function Trim(s: string): string { TrimRight(SkipSpace(s).1) }

  lemma {:induction false} TrimRightIs(t: string, after: string)
    requires IsBlank(after)
    requires t == "" || !IsSpace(t[|t| - 1])
    ensures TrimRight(t + after) == t
  {
    if after == "" {
      assert t + after == t;
    } else {
      assert (t + after)[..|t + after| - 1] == t + after[..|after| - 1];
      TrimRightIs(t, after[..|after| - 1]);
    }
  }

  lemma TrimIs(before: string, t: string, after: string)
    requires IsBlank(before) && IsBlank(after)
    requires t != "" && !IsSpace(t[0]) && !IsSpace(t[|t| - 1])
    ensures Trim(before + (t + after)) == t
  {
    assert (t + after)[0] == t[0];
    SkipSpaceIs(before, t + after);
    TrimRightIs(t, after);
  }

  /** Only a blank text trims to nothing. */
  lemma TrimToNothing(s: string)
    ensures Trim(s) == "" <==> IsBlank(s)
  {
    var (w, u) := SkipSpace(s);
    if IsBlank(s) {
      assert s + "" == s;
      SkipSpaceIs(s, "");
    } else {
      assert u == "" ==> s == w;
      TrimRightKeeps(u);
    }
  }

  lemma {:induction false} TrimRightKeeps(s: string)
    requires s != "" && !IsSpace(s[0])
    ensures TrimRight(s) != ""
  {
    if IsSpace(s[|s| - 1]) {
      TrimRightKeeps(s[..|s| - 1]);
    }
  }

  // ---------- Editing trees ----------

  function Append(es: Entries, e: Entry): (r: Entries) {
    match es
    case Single(x) => Series(x, Single(e))
    case Series(x, more) => Series(x, Append(more, e))
  }

  lemma {:induction false} AppendThen(es: Entries, e: Entry, rest: string)
    ensures EntriesThen(Append(es, e), rest) == EntriesThen(es, [','] + EntryThen(e, rest))
  {
    if es.Series? {
      AppendThen(es.rest, e, rest);
    }
  }

  lemma {:induction false} AppendOk(es: Entries, e: Entry)
    requires EntriesOk(es, Curly) && EntryOk(e, Curly)
    ensures EntriesOk(Append(es, e), Curly)
    ensures EntriesMembers(Append(es, e)) == EntriesMembers(es) + [EntryMember(e)]
    ensures EntriesDepth(Append(es, e)) == Max(EntriesDepth(es), ValueDepth(e.value))
  {
    if es.Series? {
      AppendOk(es.rest, e);
    }
  }

  lemma {:induction false} ValueSplit(v: Value, a: string, rest: string)
    decreases v, 0
    ensures ValueThen(v, a + rest) == ValueThen(v, a) + rest
  {
    match v
    case Literal(w) =>
    case Numeric(n) => NumberSplit(n, a, rest);
    case Text(items) =>
      assert ['\"'] + (a + rest) == (['\"'] + a) + rest;
      ItemsThenSplit(items, ['\"'] + a, rest);
    case Empty(b, blank) =>
      assert [Open(b)] + (blank + ([Close(b)] + (a + rest))) == ([Open(b)] + (blank + ([Close(b)] + a))) + rest;
    case Group(b, es) =>
      assert [Close(b)] + (a + rest) == ([Close(b)] + a) + rest;
      EntriesSplit(es, [Close(b)] + a, rest);
  }

  lemma NumberSplit(n: Number, a: string, rest: string)
    ensures NumberThen(n, a + rest) == NumberThen(n, a) + rest
  {
    assert ExponentThen(n.exponent, a + rest) == ExponentThen(n.exponent, a) + rest;
    var x := ExponentThen(n.exponent, a);
    assert FractionThen(n.fraction, x + rest) == FractionThen(n.fraction, x) + rest;
  }

  lemma {:induction false} EntrySplit(e: Entry, a: string, rest: string)
    decreases e, 1
    ensures EntryThen(e, a + rest) == EntryThen(e, a) + rest
  {
    assert e.after + (a + rest) == (e.after + a) + rest;
    ValueSplit(e.value, e.after + a, rest);
    var w := ValueThen(e.value, e.after + a);
    assert e.before + (w + rest) == (e.before + w) + rest;
    NameSplit(e.name, e.before + w, rest);
  }

  lemma NameSplit(n: Option<Name>, a: string, rest: string)
    ensures NameThen(n, a + rest) == NameThen(n, a) + rest
  {
    if n.Some? {
      var m := n.value;
      var u := ['\"'] + (m.after + ([':'] + a));
      assert ['\"'] + (m.after + ([':'] + (a + rest))) == u + rest;
      ItemsThenSplit(m.items, u, rest);
    }
  }

  lemma {:induction false} EntriesSplit(es: Entries, a: string, rest: string)
    decreases es, 2
    ensures EntriesThen(es, a + rest) == EntriesThen(es, a) + rest
  {
    match es
    case Single(e) => EntrySplit(e, a, rest);
    case Series(e, more) =>
      EntriesSplit(more, a, rest);
      assert [','] + (EntriesThen(more, a) + rest) == ([','] + EntriesThen(more, a)) + rest;
      EntrySplit(e, [','] + EntriesThen(more, a), rest);
  }

  // ---------- The record ----------

  const RAW: string := "raw"
  const RAW_ENCODING: string := "raw_encoding"
  const BASE64: string := "base64"

  function NamedEntry(name: string, before: string, v: Value, after: string): Entry {
    Entry(Some(Name("", Plains(name), "")), before, v, after)
  }

  predicate IsPlainName(name: string) { forall i | 0 <= i < |name| :: ItemOk(Plain(name[i])) && name[i] as int < 0x80 }

  /** `name` as a literal. */
  function LiteralText(name: string): string { ['\"'] + (name + ['\"']) }

  /** `name` as the name of a member, colon included. */
  function Label(name: string): string { LiteralText(name) + [':'] }

  lemma PlainLiteral(name: string, rest: string)
    ensures QuotedThen(Plains(name), rest) == LiteralText(name) + rest
  {
    assert Plains(name) + [] == Plains(name);
    ItemsThenPlains(name, [], ['\"'] + rest);
    assert ['\"'] + (name + (['\"'] + rest)) == LiteralText(name) + rest;
  }

  lemma PlainMeaning(name: string)
    requires IsPlainName(name)
    ensures ItemsOk(Plains(name)) && Meaning(Plains(name)) == name
  {
    assert Plains(name) + [] == Plains(name);
    MeaningPlains(name, []);
  }

  lemma NamedEntryThen(name: string, before: string, v: Value, after: string, rest: string)
    ensures EntryThen(NamedEntry(name, before, v, after), rest) == Label(name) + (before + ValueThen(v, after + rest))
  {
    var w := before + ValueThen(v, after + rest);
    PlainLiteral(name, "" + ([':'] + w));
    EmptyPrefix(QuotedThen(Plains(name), "" + ([':'] + w)));
    EmptyPrefix([':'] + w);
    Assoc(LiteralText(name), [':'], w);
  }

  lemma Assoc(a: string, b: string, c: string)
    ensures (a + b) + c == a + (b + c)
  {
  }

  lemma EmptyPrefix(s: string)
    ensures "" + s == s && s + "" == s
  {
  }

  /** The member `"dead_letter": block`, where `dl` reads the block. */
  function DeadLetterEntry(dl: Doc): Entry { NamedEntry(DEAD_LETTER, dl.before, dl.value, dl.after) }

  /** The tree of a spliced record: the body's object with one member more. */
  function SplicedTree(v: Value, dl: Doc): Value
    requires IsObject(v)
  {
    match v
    case Empty(_, _) => Group(Curly, Single(DeadLetterEntry(dl)))
    case Group(_, es) => Group(Curly, Append(es, DeadLetterEntry(dl)))
  }

  /** The tree of a wrapper: the body in `raw`, its encoding when it is not text, and the block. */
  function WrappedTree(items: seq<StrItem>, encoded: bool, dl: Doc): Value {
    Group(Curly, Series(NamedEntry(RAW, "", Text(items), ""), WrapperTail(encoded, dl)))
  }

  function WrapperTail(encoded: bool, dl: Doc): Entries {
    var last := Single(DeadLetterEntry(dl));
    if encoded then Series(EncodingEntry(), last) else last
  }

  function EncodingEntry(): Entry { NamedEntry(RAW_ENCODING, "", Text(Plains(BASE64)), "") }

  /** A dead_letter block that can be embedded: one JSON text, valid UTF-8, leaving room for the
      object around it. */
  ghost predicate IsBlock(dl: Doc, deadLetter: string) {
    Reads(dl, deadLetter) && ValidUtf8(deadLetter) && ValueDepth(dl.value) < MAX_NESTING_DEPTH
  }

  /** What the members of the record `v` of `body` must be. */
  ghost predicate HoldsBody(v: Value, body: string, dl: Doc)
    requires ValueOk(v)
  {
    IsObject(v) && if Spliceable(body) then ExtendsBody(Members(v), body, dl) else WrapsBody(Members(v), body, dl)
  }

  /** The members are the body's own, in order, and one dead_letter member. */
  ghost predicate ExtendsBody(ms: seq<Member>, body: string, dl: Doc) {
    exists d :: Reads(d, body) && IsObject(d.value) && ms == Members(d.value) + [Member(DEAD_LETTER, dl.value)]
  }

  /** The text of `raw`: the body itself when it is valid UTF-8, else its standard base64, which decodes to it. */
  ghost predicate IsRaw(text: string, body: string) {
    if ValidUtf8(body) then text == body
    else IsBytes(body) && Base64.IsStandard(text, body) && Base64.Decode(text) == Some(body)
  }

  /** The member `raw` gives the body back exactly. */
  ghost predicate WrapsBody(ms: seq<Member>, body: string, dl: Doc) {
    exists items | ItemsOk(items) ::
      IsRaw(Meaning(items), body) && ms == WrapperMembers(items, !ValidUtf8(body), dl)
  }

  function WrapperMembers(items: seq<StrItem>, encoded: bool, dl: Doc): seq<Member> {
    [Member(RAW, Text(items))]
    + ((if encoded then [Member(RAW_ENCODING, Text(Plains(BASE64)))] else []) + [Member(DEAD_LETTER, dl.value)])
  }

  /** The dead_letter member and the brace that ends the record. */
  function RecordTail(deadLetter: string): string { Label(DEAD_LETTER) + (deadLetter + ['}']) }

  lemma RecordTailIs(dl: Doc)
    ensures EntryThen(DeadLetterEntry(dl), ['}']) == RecordTail(DocText(dl))
  {
    NamedEntryThen(DEAD_LETTER, dl.before, dl.value, dl.after, ['}']);
    ValueSplit(dl.value, dl.after, ['}']);
    Assoc(dl.before, ValueThen(dl.value, dl.after), ['}']);
  }

  // ---------- Splicing ----------

  /** The bytes of a spliced record. */
  function SplicedText(trimmed: string, deadLetter: string): string
    requires |trimmed| >= 2
  {
    if Trim(trimmed[1..|trimmed| - 1]) == "" then ['{'] + RecordTail(deadLetter)
    else trimmed[..|trimmed| - 1] + ([','] + RecordTail(deadLetter))
  }

  /** The bytes between the braces of an object. */
  function InnerText(v: Value): string
    requires IsObject(v)
  {
    match v
    case Empty(_, blank) => blank
    case Group(_, es) => EntriesThen(es, "")
  }

  lemma ObjectText(v: Value, rest: string)
    requires IsObject(v)
    ensures ValueThen(v, rest) == ['{'] + (InnerText(v) + (['}'] + rest))
  {
    if v.Group? {
      EntriesSplit(v.entries, "", ['}'] + rest);
      EmptyPrefix(['}'] + rest);
    }
  }

  lemma InnerIsBlank(v: Value)
    requires IsObject(v) && ValueOk(v)
    ensures Trim(InnerText(v)) == "" <==> v.Empty?
  {
    TrimToNothing(InnerText(v));
    if v.Group? {
      EntriesStart(v.entries, Curly, "");
      NotBlank(InnerText(v));
    }
  }

  lemma NotBlank(u: string)
    requires SkipSpace(u).1 != ""
    ensures !IsBlank(u)
  {
    EmptyPrefix(u);
    if IsBlank(u) {
      SkipSpaceIs(u, "");
    }
  }

  /** Trimming an object's text leaves its braces and what is between them. */
  lemma TrimDoc(d: Doc, body: string)
    requires Reads(d, body) && IsObject(d.value)
    ensures Trim(body) == ['{'] + (InnerText(d.value) + ['}'])
  {
    var u := InnerText(d.value);
    var t := ['{'] + (u + ['}']);
    ObjectText(d.value, d.after);
    Assoc(u, ['}'], d.after);
    Assoc(['{'], u + ['}'], d.after);
    TrimIs(d.before, t, d.after);
  }

  lemma Braces(u: string)
    ensures var t := ['{'] + (u + ['}']); |t| >= 2 && t[1..|t| - 1] == u && t[..|t| - 1] == ['{'] + u
  {
  }

  lemma EmptySplicedText(v: Value, dl: Doc)
    requires v.Empty? && IsObject(v)
    ensures ValueThen(SplicedTree(v, dl), "") == ['{'] + RecordTail(DocText(dl))
  {
    RecordTailIs(dl);
    EmptyPrefix(['}']);
    hide EntryThen, DeadLetterEntry, RecordTail, DocText;
  }

  lemma GroupSplicedText(v: Value, dl: Doc)
    requires v.Group? && IsObject(v)
    ensures ValueThen(SplicedTree(v, dl), "") == (['{'] + InnerText(v)) + ([','] + RecordTail(DocText(dl)))
  {
    var tail := RecordTail(DocText(dl));
    RecordTailIs(dl);
    EmptyPrefix(['}']);
    EmptyPrefix([','] + tail);
    AppendThen(v.entries, DeadLetterEntry(dl), ['}']);
    EntriesSplit(v.entries, "", [','] + tail);
    Assoc(['{'], InnerText(v), [','] + tail);
    hide EntryThen, EntriesThen, DeadLetterEntry, RecordTail, DocText, Append;
  }

  lemma SplicedBetween(u: string, deadLetter: string)
    ensures SplicedText(['{'] + (u + ['}']), deadLetter) ==
      if Trim(u) == "" then ['{'] + RecordTail(deadLetter) else (['{'] + u) + ([','] + RecordTail(deadLetter))
  {
    Braces(u);
    hide Trim, RecordTail;
  }

  /** The spliced bytes are the printed spliced tree. */
  lemma SplicedTextIs(v: Value, dl: Doc)
    requires IsObject(v) && ValueOk(v)
    ensures SplicedText(['{'] + (InnerText(v) + ['}']), DocText(dl)) == ValueThen(SplicedTree(v, dl), "")
  {
    SplicedBetween(InnerText(v), DocText(dl));
    InnerIsBlank(v);
    if v.Empty? {
      EmptySplicedText(v, dl);
    } else {
      GroupSplicedText(v, dl);
    }
    hide SplicedText, ValueThen, SplicedTree, RecordTail, DocText, InnerText, Trim, ValueOk;
  }

  lemma DeadLetterEntryOk(dl: Doc)
    requires DocOk(dl)
    ensures EntryOk(DeadLetterEntry(dl), Curly)
    ensures EntryMember(DeadLetterEntry(dl)) == Member(DEAD_LETTER, dl.value)
  {
    PlainMeaning(DEAD_LETTER);
  }

  lemma SplicedTreeOk(v: Value, dl: Doc)
    requires ValueOk(v) && IsObject(v) && ValueDepth(v) <= MAX_NESTING_DEPTH
    requires DocOk(dl) && ValueDepth(dl.value) < MAX_NESTING_DEPTH
    ensures var r := SplicedTree(v, dl);
            ValueOk(r) && ValueDepth(r) <= MAX_NESTING_DEPTH && IsObject(r)
            && Members(r) == Members(v) + [Member(DEAD_LETTER, dl.value)]
  {
    DeadLetterEntryOk(dl);
    if v.Group? {
      AppendOk(v.entries, DeadLetterEntry(dl));
    }
  }

  lemma LabelIsUtf8(name: string)
    requires IsPlainName(name)
    ensures ValidUtf8(Label(name)) && ValidUtf8(LiteralText(name))
  {
    AsciiIsValid(Label(name));
    AsciiIsValid(LiteralText(name));
  }

  lemma TailIsUtf8(deadLetter: string)
    requires ValidUtf8(deadLetter)
    ensures ValidUtf8([','] + RecordTail(deadLetter)) && ValidUtf8(['{'] + RecordTail(deadLetter))
  {
    LabelIsUtf8(DEAD_LETTER);
    AsciiIsValid(['}']);
    AsciiIsValid([',']);
    AsciiIsValid(['{']);
    ValidUtf8Concat(deadLetter, ['}']);
    ValidUtf8Concat(Label(DEAD_LETTER), deadLetter + ['}']);
    ValidUtf8Concat([','], RecordTail(deadLetter));
    ValidUtf8Concat(['{'], RecordTail(deadLetter));
  }

  /** Cutting white space and the closing brace off valid UTF-8 leaves valid UTF-8. */
  lemma InnerIsUtf8(d: Doc, body: string)
    requires Reads(d, body) && IsObject(d.value) && ValidUtf8(body)
    ensures ValidUtf8(['{'] + InnerText(d.value))
  {
    var u := InnerText(d.value);
    ObjectText(d.value, d.after);
    AsciiIsValid(d.before);
    ValidUtf8Concat(d.before, ValueThen(d.value, d.after));
    Assoc(['{'], u, ['}'] + d.after);
    ValidUtf8Cut(['{'] + u, '}', d.after);
  }

  lemma SplicedIsUtf8(d: Doc, body: string, deadLetter: string)
    requires Reads(d, body) && IsObject(d.value) && ValidUtf8(body) && ValidUtf8(deadLetter)
    ensures ValidUtf8(SplicedText(['{'] + (InnerText(d.value) + ['}']), deadLetter))
  {
    Braces(InnerText(d.value));
    InnerIsUtf8(d, body);
    TailIsUtf8(deadLetter);
    ValidUtf8Concat(['{'] + InnerText(d.value), [','] + RecordTail(deadLetter));
  }

  lemma SplicedRecord(body: string, d: Doc, dl: Doc, deadLetter: string)
    requires Reads(d, body) && CanSplice(d.value) && ValidUtf8(body) && IsBlock(dl, deadLetter)
    ensures |Trim(body)| >= 2
    ensures IsRecord(SplicedText(Trim(body), deadLetter), body, dl)
  {
    TrimDoc(d, body);
    SplicedTextIs(d.value, dl);
    SplicedIsUtf8(d, body, deadLetter);
    SplicedTreeOk(d.value, dl);
    var v := SplicedTree(d.value, dl);
    assert Spliceable(body) && ExtendsBody(Members(v), body, dl);
    TreeIsRecord(v, body, dl);
  }

  // ---------- Wrapping ----------

  /** The bytes of a wrapper around the literal `quoted`. */
  function WrappedText(quoted: string, encoded: bool, deadLetter: string): string {
    ['{'] + (Label(RAW) + (quoted + WrappedTail(encoded, deadLetter)))
  }

  function WrappedTail(encoded: bool, deadLetter: string): string {
    if encoded then [','] + (Label(RAW_ENCODING) + (LiteralText(BASE64) + ([','] + RecordTail(deadLetter))))
    else [','] + RecordTail(deadLetter)
  }

  lemma NamedTextOk(name: string, items: seq<StrItem>)
    requires IsPlainName(name) && ItemsOk(items)
    ensures var e := NamedEntry(name, "", Text(items), "");
            EntryOk(e, Curly) && EntryMember(e) == Member(name, Text(items)) && ValueDepth(e.value) == 0
  {
    PlainMeaning(name);
  }

  /** Putting a string member before other members. */
  lemma PrependOk(e: Entry, es: Entries)
    requires EntryOk(e, Curly) && ValueDepth(e.value) == 0 && EntriesOk(es, Curly)
    ensures EntriesOk(Series(e, es), Curly) && EntriesDepth(Series(e, es)) == EntriesDepth(es)
    ensures EntriesMembers(Series(e, es)) == [EntryMember(e)] + EntriesMembers(es)
  {
  }

  lemma LastMember(dl: Doc)
    requires DocOk(dl)
    ensures var last := Single(DeadLetterEntry(dl));
      && EntriesOk(last, Curly) && EntriesDepth(last) == ValueDepth(dl.value)
      && EntriesMembers(last) == [Member(DEAD_LETTER, dl.value)]
  {
    DeadLetterEntryOk(dl);
  }

  lemma WrapperTailOk(encoded: bool, dl: Doc)
    requires DocOk(dl)
    ensures var tail := WrapperTail(encoded, dl);
      && EntriesOk(tail, Curly) && EntriesDepth(tail) == ValueDepth(dl.value)
      && EntriesMembers(tail) ==
        (if encoded then [Member(RAW_ENCODING, Text(Plains(BASE64)))] else []) + [Member(DEAD_LETTER, dl.value)]
  {
    LastMember(dl);
    PlainMeaning(BASE64);
    NamedTextOk(RAW_ENCODING, Plains(BASE64));
    hide EntryOk, EntriesOk, EntriesDepth, EntriesMembers, EntryMember, NamedEntry, DeadLetterEntry, ItemsOk, DocOk,
      Meaning, Plains;
    PrependOk(EncodingEntry(), Single(DeadLetterEntry(dl)));
  }

  lemma WrappedTreeOk(items: seq<StrItem>, encoded: bool, dl: Doc)
    requires ItemsOk(items) && DocOk(dl) && ValueDepth(dl.value) < MAX_NESTING_DEPTH
    ensures var r := WrappedTree(items, encoded, dl);
            && ValueOk(r) && ValueDepth(r) <= MAX_NESTING_DEPTH && IsObject(r)
            && Members(r) == WrapperMembers(items, encoded, dl)
  {
    WrapperTailOk(encoded, dl);
    NamedTextOk(RAW, items);
    hide EntryOk, EntriesOk, EntriesDepth, EntriesMembers, EntryMember, NamedEntry, ItemsOk, DocOk, WrapperTail,
      Plains;
    PrependOk(NamedEntry(RAW, "", Text(items), ""), WrapperTail(encoded, dl));
  }

  lemma EncodingEntryThen(rest: string)
    ensures EntryThen(EncodingEntry(), rest) == Label(RAW_ENCODING) + (LiteralText(BASE64) + rest)
  {
    NamedEntryThen(RAW_ENCODING, "", Text(Plains(BASE64)), "", rest);
    EmptyPrefix(rest);
    PlainLiteral(BASE64, rest);
    EmptyPrefix(LiteralText(BASE64) + rest);
  }

  lemma WrappedTextIs(items: seq<StrItem>, encoded: bool, dl: Doc)
    ensures WrappedText(QuotedThen(items, ""), encoded, DocText(dl)) == ValueThen(WrappedTree(items, encoded, dl), "")
  {
    var tail := [','] + RecordTail(DocText(dl));
    var more := WrappedTail(encoded, DocText(dl));
    RecordTailIs(dl);
    EmptyPrefix(['}']);
    EncodingEntryThen(tail);
    NamedEntryThen(RAW, "", Text(items), "", more);
    EmptyPrefix(more);
    QuotedSplit(items, more);
    EmptyPrefix(QuotedThen(items, more));
    var last := Single(DeadLetterEntry(dl));
    assert EntriesThen(last, ['}']) == RecordTail(DocText(dl));
    assert EntriesThen(Series(EncodingEntry(), last), ['}']) == EntryThen(EncodingEntry(), tail);
  }

  lemma QuotedIsUtf8(text: string)
    requires ValidUtf8(text)
    ensures ValidUtf8(MarshalString(text))
  {
    AsciiIsValid(['\"']);
    EmptyPrefix(['\"']);
    QuoteIsUtf8(text, ['\"']);
    ValidUtf8Concat(['\"'], ItemsThen(Quote(text), ['\"']));
  }

  lemma WrappedIsUtf8(quoted: string, encoded: bool, deadLetter: string)
    requires ValidUtf8(quoted) && ValidUtf8(deadLetter)
    ensures ValidUtf8(WrappedText(quoted, encoded, deadLetter))
  {
    var tail := [','] + RecordTail(deadLetter);
    var more := WrappedTail(encoded, deadLetter);
    TailIsUtf8(deadLetter);
    LabelIsUtf8(RAW);
    LabelIsUtf8(RAW_ENCODING);
    LabelIsUtf8(BASE64);
    AsciiIsValid([',']);
    AsciiIsValid(['{']);
    ValidUtf8Concat(LiteralText(BASE64), tail);
    ValidUtf8Concat(Label(RAW_ENCODING), LiteralText(BASE64) + tail);
    ValidUtf8Concat([','], Label(RAW_ENCODING) + (LiteralText(BASE64) + tail));
    ValidUtf8Concat(quoted, more);
    ValidUtf8Concat(Label(RAW), quoted + more);
    ValidUtf8Concat(['{'], Label(RAW) + (quoted + more));
  }

  lemma WrappedRecord(body: string, text: string, encoded: bool, dl: Doc, deadLetter: string)
    requires !Spliceable(body) && IsBlock(dl, deadLetter) && ValidUtf8(text)
    requires encoded == !ValidUtf8(body) && IsRaw(text, body)
    ensures IsRecord(WrappedText(MarshalString(text), encoded, deadLetter), body, dl)
  {
    WrappedTextIs(Quote(text), encoded, dl);
    QuotedIsUtf8(text);
    WrappedIsUtf8(MarshalString(text), encoded, deadLetter);
    WrappedTreeOk(Quote(text), encoded, dl);
    MeaningQuote(text);
    var v := WrappedTree(Quote(text), encoded, dl);
    assert WrapsBody(Members(v), body, dl);
    TreeIsRecord(v, body, dl);
  }

  lemma TreeIsRecord(v: Value, body: string, dl: Doc)
    requires ValueOk(v) && ValueDepth(v) <= MAX_NESTING_DEPTH && ValidUtf8(ValueThen(v, "")) && HoldsBody(v, body, dl)
    ensures IsRecord(ValueThen(v, ""), body, dl)
  {
    OnlyReading(v);
  }

  /** A printed tree is read back as itself and as nothing else. */
  lemma OnlyReading(v: Value)
    requires ValueOk(v) && ValueDepth(v) <= MAX_NESTING_DEPTH
    ensures JsonValid(ValueThen(v, ""))
    ensures forall r | Reads(r, ValueThen(v, "")) :: r.value == v
  {
    var d := Doc("", v, "");
    EmptyPrefix(ValueThen(v, ""));
    assert Reads(d, ValueThen(v, ""));
    ReadingIsUnique(d, ValueThen(v, ""));
    forall r | Reads(r, ValueThen(v, "")) ensures r.value == v { ReadingIsUnique(r, ValueThen(v, "")); }
  }

  // ---------- buildPoisonRecord ----------

  /** `record` is strict JSON and valid UTF-8, and however it is read it holds the body and the block. */
  ghost predicate IsRecord(record: string, body: string, dl: Doc) {
    ValidUtf8(record) && JsonValid(record) && forall r | Reads(r, record) :: HoldsBody(r.value, body, dl)
  }

  /** The string constants of the source, piece by piece. */
  lemma Constants()
    ensures "{\"dead_letter\":" == ['{'] + Label(DEAD_LETTER)
    ensures ",\"dead_letter\":" == [','] + Label(DEAD_LETTER)
    ensures "{\"raw\":" == ['{'] + Label(RAW)
    ensures ",\"raw_encoding\":\"base64\"" == [','] + (Label(RAW_ENCODING) + LiteralText(BASE64))
  {
    EncodingConstant();
    hide LiteralText;
    LiteralConstants();
  }

  lemma LiteralConstants()
    ensures "\"dead_letter\"" == LiteralText(DEAD_LETTER) && "\"raw\"" == LiteralText(RAW)
  {
  }

  lemma EncodingConstant()
    ensures ",\"raw_encoding\":\"base64\"" == [','] + (Label(RAW_ENCODING) + LiteralText(BASE64))
  {
    assert "\"raw_encoding\"" == LiteralText(RAW_ENCODING);
    assert "\"base64\"" == LiteralText(BASE64);
    hide LiteralText;
  }

  lemma Regroup(head: string, mark: string, name: string, deadLetter: string)
    ensures head + (mark + name) + deadLetter + ['}'] == head + (mark + (name + (deadLetter + ['}'])))
  {
  }

  /** The splice branch: trim, cut the closing brace, append the member. */
  method Splice(body: string, deadLetter: string) returns (buf: string)
    requires |Trim(body)| >= 2
    ensures buf == SplicedText(Trim(body), deadLetter)
  {
    buf := "";
    var trimmed := Trim(body);
    var inner := Trim(trimmed[1..|trimmed| - 1]);
    Constants();
    EmptyPrefix("{\"dead_letter\":");
    EmptyPrefix(trimmed[..|trimmed| - 1]);
    if inner == "" {
      buf := buf + "{\"dead_letter\":";
      Regroup("", ['{'], Label(DEAD_LETTER), deadLetter);
    } else {
      buf := buf + trimmed[..|trimmed| - 1];
      buf := buf + ",\"dead_letter\":";
      Regroup(trimmed[..|trimmed| - 1], [','], Label(DEAD_LETTER), deadLetter);
    }
    buf := buf + deadLetter;
    buf := buf + ['}'];
  }

  /** The wrapper branch: the body as text, or as base64 when it is not valid UTF-8. */
  method Wrap(body: string, deadLetter: string) returns (buf: string)
    requires IsBytes(body)
    ensures ValidUtf8(body) ==> buf == WrappedText(MarshalString(body), false, deadLetter)
    ensures !ValidUtf8(body) ==>
              && ValidUtf8(Base64.Encode(body)) && Base64.IsStandard(Base64.Encode(body), body)
              && buf == WrappedText(MarshalString(Base64.Encode(body)), true, deadLetter)
  {
    Constants();
    buf := "{\"raw\":";
    if ValidUtf8(body) {
      var quoted := MarshalString(body);
      buf := buf + quoted;
      RegroupText(quoted, deadLetter);
    } else {
      var text := Base64.Encode(body);
      Base64.EncodeIs(body);
      AsciiIsValid(text);
      var quoted := MarshalString(text);
      buf := buf + quoted;
      buf := buf + ",\"raw_encoding\":\"base64\"";
      RegroupEncoded(quoted, deadLetter);
    }
    buf := buf + ",\"dead_letter\":";
    buf := buf + deadLetter;
    buf := buf + ['}'];
  }

  lemma RegroupText(quoted: string, deadLetter: string)
    ensures ['{'] + Label(RAW) + quoted + ([','] + Label(DEAD_LETTER)) + deadLetter + ['}']
         == WrappedText(quoted, false, deadLetter)
  {
    Regroup(['{'] + Label(RAW) + quoted, [','], Label(DEAD_LETTER), deadLetter);
    RegroupHead(Label(RAW), quoted, [','] + RecordTail(deadLetter));
  }

  lemma RegroupEncoded(quoted: string, deadLetter: string)
    ensures ['{'] + Label(RAW) + quoted + ([','] + (Label(RAW_ENCODING) + LiteralText(BASE64)))
            + ([','] + Label(DEAD_LETTER)) + deadLetter + ['}']
         == WrappedText(quoted, true, deadLetter)
  {
    var e := [','] + (Label(RAW_ENCODING) + LiteralText(BASE64));
    var tail := [','] + RecordTail(deadLetter);
    Regroup(['{'] + Label(RAW) + quoted + e, [','], Label(DEAD_LETTER), deadLetter);
    Assoc(['{'] + Label(RAW) + quoted, e, tail);
    Assoc([','], Label(RAW_ENCODING) + LiteralText(BASE64), tail);
    Assoc(Label(RAW_ENCODING), LiteralText(BASE64), tail);
    RegroupHead(Label(RAW), quoted, e + tail);
  }

  lemma RegroupHead(name: string, quoted: string, rest: string)
    ensures ['{'] + name + quoted + rest == ['{'] + (name + (quoted + rest))
  {
  }

  /** buildPoisonRecord: the dead-letter record of `body`, with `deadLetter` as its last member. When
      the body is spliced, every byte of its object stays, in place. */
  method BuildPoisonRecord(body: string, deadLetter: string, ghost dl: Doc) returns (record: string)
    requires IsBytes(body) && IsBlock(dl, deadLetter)
    ensures IsRecord(record, body, dl)
    ensures Spliceable(body) ==> |Trim(body)| >= 2 && record == SplicedText(Trim(body), deadLetter)
  {
    var spliceable := IsSpliceableObject(body);
    if spliceable {
      ghost var d :| Reads(d, body) && CanSplice(d.value);
      SplicedRecord(body, d, dl, deadLetter);
      record := Splice(body, deadLetter);
    } else {
      record := Wrap(body, deadLetter);
      if ValidUtf8(body) {
        WrappedRecord(body, body, false, dl, deadLetter);
      } else {
        Base64.DecodeEncode(body);
        WrappedRecord(body, Base64.Encode(body), true, dl, deadLetter);
      }
    }
  }

  /** A record has exactly one top-level dead_letter member, the last one. */
  lemma RecordHasOneDeadLetter(v: Value, body: string, dl: Doc)
    requires ValueOk(v) && HoldsBody(v, body, dl)
    ensures var ms := Members(v);
            && ms != [] && ms[|ms| - 1] == Member(DEAD_LETTER, dl.value)
            && forall i | 0 <= i < |ms| - 1 :: ms[i].name != DEAD_LETTER
  {
    if Spliceable(body) {
      var d :| Reads(d, body) && IsObject(d.value) && Members(v) == Members(d.value) + [Member(DEAD_LETTER, dl.value)];
      SpliceableMeans(d, body);
    }
  }

  /** So a record that comes back as a poison body is wrapped, never spliced a second time. */
  lemma RecordIsNotSpliceable(record: string, body: string, dl: Doc)
    requires IsRecord(record, body, dl)
    ensures !Spliceable(record)
  {
    forall r | Reads(r, record) ensures !CanSplice(r.value) {
      RecordHasOneDeadLetter(r.value, body, dl);
      var ms := Members(r.value);
      assert ms[|ms| - 1].name == DEAD_LETTER;
    }
  }
}
