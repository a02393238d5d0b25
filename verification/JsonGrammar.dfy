/**
  The JSON grammar of RFC 8259 as concrete-syntax trees: a tree keeps every byte of the text it
  stands for, white space included, so printing a tree gives back exactly one text. Bytes are
  modelled as characters below 256.
 */
module JsonGrammar {
  import opened Wrappers
  import opened Arithmetic

  /** The deepest nesting Go's encoding/json accepts (RFC 8259 section 9 allows such a limit). */
  const MAX_NESTING_DEPTH: nat := 10000

  // ---------- Characters ----------

  predicate IsSpace(c: char) { c == ' ' || c == '\t' || c == '\r' || c == '\n' }

  predicate IsDigit(c: char) { '0' <= c <= '9' }

  predicate IsHex(c: char) { IsDigit(c) || 'a' <= c <= 'f' || 'A' <= c <= 'F' }

  predicate IsBlank(s: string) { forall i | 0 <= i < |s| :: IsSpace(s[i]) }

  predicate AreDigits(s: string) { forall i | 0 <= i < |s| :: IsDigit(s[i]) }

  function HexValue(c: char): (v: nat)
    requires IsHex(c)
    ensures v < 16
  {
    if IsDigit(c) then c as int - '0' as int
    else if 'a' <= c <= 'f' then c as int - 'a' as int + 10
    else c as int - 'A' as int + 10
  }

  predicate IsHex4(h: string) { |h| == 4 && IsHex(h[0]) && IsHex(h[1]) && IsHex(h[2]) && IsHex(h[3]) }

  function Hex4Value(h: string): (v: nat)
    requires IsHex4(h)
    ensures v < 0x1_0000
  {
    0x1000 * HexValue(h[0]) + 0x100 * HexValue(h[1]) + 0x10 * HexValue(h[2]) + HexValue(h[3])
  }

  // ---------- Strings (RFC 8259 section 7) ----------

  /** One piece of a string literal: a byte as it is, a two-character escape or a \uXXXX escape. */
  datatype StrItem = Plain(c: char) | Short(e: char) | Unicode(hex: string)

  predicate IsShortEscape(e: char) {
    e == '\"' || e == '\\' || e == '/' || e == 'b' || e == 'f' || e == 'n' || e == 'r' || e == 't'
  }

  predicate ItemOk(it: StrItem) {
    match it
    case Plain(c) => c >= ' ' && c != '\"' && c != '\\'
    case Short(e) => IsShortEscape(e)
    case Unicode(h) => IsHex4(h)
  }

  predicate ItemsOk(items: seq<StrItem>) { forall i | 0 <= i < |items| :: ItemOk(items[i]) }

  function ItemText(it: StrItem): string {
    match it
    case Plain(c) => [c]
    case Short(e) => ['\\', e]
    case Unicode(h) => ['\\', 'u'] + h
  }

  /** The pieces of a string literal, followed by `rest`. */
  function ItemsThen(items: seq<StrItem>, rest: string): string {
    if items == [] then rest else ItemText(items[0]) + ItemsThen(items[1..], rest)
  }

  function QuotedThen(items: seq<StrItem>, rest: string): string {
    ['\"'] + ItemsThen(items, ['\"'] + rest)
  }

  // ---------- Numbers (RFC 8259 section 6) ----------

  datatype Exponent = Exponent(e: char, sign: string, digits: string)

  /** `fraction` is "" when there is no fraction, otherwise its digits without the point. */
  datatype Number = Number(minus: bool, whole: string, fraction: string, exponent: Option<Exponent>)

  predicate ExponentOk(x: Exponent) {
    (x.e == 'e' || x.e == 'E') && (x.sign == "" || x.sign == "+" || x.sign == "-") && x.digits != ""
      && AreDigits(x.digits)
  }

  predicate NumberOk(n: Number) {
    && n.whole != "" && AreDigits(n.whole) && (n.whole[0] == '0' ==> |n.whole| == 1)
    && AreDigits(n.fraction)
    && (n.exponent.Some? ==> ExponentOk(n.exponent.value))
  }

  function ExponentThen(x: Option<Exponent>, rest: string): string {
    match x
    case None => rest
    case Some(y) => [y.e] + (y.sign + (y.digits + rest))
  }

  function FractionThen(f: string, rest: string): string { if f == "" then rest else ['.'] + (f + rest) }

  function WholeThen(n: Number, rest: string): string {
    n.whole + FractionThen(n.fraction, ExponentThen(n.exponent, rest))
  }

  function NumberThen(n: Number, rest: string): string {
    if n.minus then ['-'] + WholeThen(n, rest) else WholeThen(n, rest)
  }

  // ---------- Values (RFC 8259 sections 2 to 5) ----------

  datatype Bracket = Curly | Square

  datatype Name = Name(before: string, items: seq<StrItem>, after: string)

  /** An array element (no name) or an object member (with one), and the white space around it. */
  datatype Entry = Entry(name: Option<Name>, before: string, value: Value, after: string)

  datatype Entries = Single(entry: Entry) | Series(entry: Entry, rest: Entries)

  datatype Value =
    | Literal(word: string)
    | Numeric(number: Number)
    | Text(items: seq<StrItem>)
    | Empty(bracket: Bracket, blank: string)
    | Group(bracket: Bracket, entries: Entries)

  /** A JSON text: one value between white space (RFC 8259 section 2). */
  datatype Doc = Doc(before: string, value: Value, after: string)

  function Open(b: Bracket): char { if b.Curly? then '{' else '[' }

  function Close(b: Bracket): char { if b.Curly? then '}' else ']' }

  // Every text function below takes the text that follows, so that reading and printing meet
  // step by step: `ValueThen(v, rest)` is the text of `v` followed by `rest`.

  function NameThen(n: Option<Name>, rest: string): string {
    match n
    case None => rest
    case Some(m) => m.before + QuotedThen(m.items, m.after + ([':'] + rest))
  }

  function EntryThen(e: Entry, rest: string): string {
    NameThen(e.name, e.before + ValueThen(e.value, e.after + rest))
  }

  function EntriesThen(es: Entries, rest: string): string {
    match es
    case Single(e) => EntryThen(e, rest)
    case Series(e, more) => EntryThen(e, [','] + EntriesThen(more, rest))
  }

  function ValueThen(v: Value, rest: string): string {
    match v
    case Literal(w) => w + rest
    case Numeric(n) => NumberThen(n, rest)
    case Text(items) => QuotedThen(items, rest)
    case Empty(b, blank) => [Open(b)] + (blank + ([Close(b)] + rest))
    case Group(b, es) => [Open(b)] + EntriesThen(es, [Close(b)] + rest)
  }

  function DocText(d: Doc): string { d.before + ValueThen(d.value, d.after) }

  predicate NameOk(n: Option<Name>, b: Bracket) {
    match n
    case None => b.Square?
    case Some(m) => b.Curly? && IsBlank(m.before) && ItemsOk(m.items) && IsBlank(m.after)
  }

  predicate EntryOk(e: Entry, b: Bracket) {
    NameOk(e.name, b) && IsBlank(e.before) && ValueOk(e.value) && IsBlank(e.after)
  }

  predicate EntriesOk(es: Entries, b: Bracket) {
    match es
    case Single(e) => EntryOk(e, b)
    case Series(e, rest) => EntryOk(e, b) && EntriesOk(rest, b)
  }

  predicate ValueOk(v: Value) {
    match v
    case Literal(w) => w == "true" || w == "false" || w == "null"
    case Numeric(n) => NumberOk(n)
    case Text(items) => ItemsOk(items)
    case Empty(_, blank) => IsBlank(blank)
    case Group(b, es) => EntriesOk(es, b)
  }

  function EntriesDepth(es: Entries): nat {
    match es
    case Single(e) => ValueDepth(e.value)
    case Series(e, rest) => Max(ValueDepth(e.value), EntriesDepth(rest))
  }

  function ValueDepth(v: Value): nat {
    match v
    case Empty(_, _) => 1
    case Group(_, es) => 1 + EntriesDepth(es)
    case _ => 0
  }

  /** `d` is a JSON text that nests no deeper than encoding/json accepts. */
  predicate DocOk(d: Doc) {
    IsBlank(d.before) && ValueOk(d.value) && IsBlank(d.after) && ValueDepth(d.value) <= MAX_NESTING_DEPTH
  }

  /** `d` is a reading of `body` in the grammar. */
  ghost predicate Reads(d: Doc, body: string) { DocOk(d) && DocText(d) == body }
}
