/** What a JSON string literal means: its escapes resolved to bytes, and its surrogate pairs. */
module JsonStrings {
  import opened Wrappers
  import opened JsonGrammar
  import opened JsonParser
  import opened Utf8

  predicate IsHigh(u: nat) { 0xD800 <= u <= 0xDBFF }

  predicate IsLow(u: nat) { 0xDC00 <= u <= 0xDFFF }

  predicate IsHighItem(it: StrItem) { it.Unicode? && IsHex4(it.hex) && IsHigh(Hex4Value(it.hex)) }

  predicate IsLowItem(it: StrItem) { it.Unicode? && IsHex4(it.hex) && IsLow(Hex4Value(it.hex)) }

  /** No \u escape of the literal is an unpaired surrogate (RFC 8259 section 8.2). */
  predicate Paired(items: seq<StrItem>) {
    if items == [] then true
    else if IsHighItem(items[0]) then |items| > 1 && IsLowItem(items[1]) && Paired(items[2..])
    else !IsLowItem(items[0]) && Paired(items[1..])
  }

  function ShortMeaning(e: char): string {
    if e == 'b' then "\U{0008}" else if e == 'f' then "\U{000C}" else if e == 'n' then "\n"
    else if e == 'r' then "\r" else if e == 't' then "\t" else [e]
  }

  function JoinSurrogates(high: nat, low: nat): (cp: nat)
    requires IsHigh(high) && IsLow(low)
    ensures 0x1_0000 <= cp < 0x11_0000
  {
    0x1_0000 + (high - 0xD800) * 0x400 + (low - 0xDC00)
  }

  /** The bytes a literal stands for; an unpaired surrogate becomes U+FFFD, as in encoding/json. */
  function Meaning(items: seq<StrItem>): string
    requires ItemsOk(items)
  {
    if items == [] then ""
    else
      match items[0]
      case Plain(c) => [c] + Meaning(items[1..])
      case Short(e) => ShortMeaning(e) + Meaning(items[1..])
      case Unicode(h) =>
        var u := Hex4Value(h);
        if IsHigh(u) && |items| > 1 && IsLowItem(items[1]) then
          EncodeRune(JoinSurrogates(u, Hex4Value(items[1].hex))) + Meaning(items[2..])
        else (if IsHigh(u) || IsLow(u) then EncodeRune(0xFFFD) else EncodeRune(u)) + Meaning(items[1..])
  }

  /** json.Unmarshal of a string literal, quotes included. */
  function Unquote(literal: string): Option<string> {
    if literal == "" || literal[0] != '\"' then None
    else
      match ParseItems(literal[1..])
      case None => None
      case Some((items, rest)) => if rest == "" then Some(Meaning(items)) else None
  }

  /** The literal stands for this text. */
  ghost predicate StandsFor(literal: string, text: string) {
    exists items :: ItemsOk(items) && literal == QuotedThen(items, "") && text == Meaning(items)
  }

  lemma UnquoteIs(literal: string, text: string)
    ensures Unquote(literal) == Some(text) <==> StandsFor(literal, text)
  {
    if Unquote(literal) == Some(text) {
      var (items, rest) := ParseItems(literal[1..]).value;
      assert literal == ['\"'] + literal[1..];
      assert literal == QuotedThen(items, "");
    }
    if StandsFor(literal, text) {
      var items :| ItemsOk(items) && literal == QuotedThen(items, "") && text == Meaning(items);
      ParseItemsComplete(items, "");
      assert literal[1..] == ItemsThen(items, ['\"'] + "");
    }
  }

  /** Every string literal of the tree, names included, has only paired surrogate escapes. */
  predicate EntriesPaired(es: Entries) {
    match es
    case Single(e) => EntryPaired(e)
    case Series(e, rest) => EntryPaired(e) && EntriesPaired(rest)
  }

  predicate EntryPaired(e: Entry) {
    (e.name.Some? ==> Paired(e.name.value.items)) && ValuePaired(e.value)
  }

  predicate ValuePaired(v: Value) {
    match v
    case Text(items) => Paired(items)
    case Group(_, es) => EntriesPaired(es)
    case _ => true
  }

  /** One member of an object: its unescaped name and the tree of its value. */
  datatype Member = Member(name: string, value: Value)

  function EntryMember(e: Entry): Member
    requires EntryOk(e, Curly)
  {
    Member(Meaning(e.name.value.items), e.value)
  }

  /** The members of an object in document order, repeated names included. */
  function EntriesMembers(es: Entries): (ms: seq<Member>)
    requires EntriesOk(es, Curly)
    ensures ms != []
  {
    match es
    case Single(e) => [EntryMember(e)]
    case Series(e, rest) => [EntryMember(e)] + EntriesMembers(rest)
  }

  predicate IsObject(v: Value) { (v.Empty? || v.Group?) && v.bracket.Curly? }

  function Members(v: Value): seq<Member>
    requires ValueOk(v) && IsObject(v)
  {
    match v
    case Empty(_, _) => []
    case Group(_, es) => EntriesMembers(es)
  }

  predicate HasName(ms: seq<Member>, name: string) { exists i | 0 <= i < |ms| :: ms[i].name == name }

  // ---------- Surrogates ----------

  /** Two escapes with the surrogates of a character above U+FFFF stand for that character. */
  lemma PairMeans(high: string, low: string, cp: nat, items: seq<StrItem>)
    requires IsHex4(high) && IsHex4(low) && ItemsOk(items) && 0x1_0000 <= cp < 0x11_0000
    requires Hex4Value(high) == 0xD800 + (cp - 0x1_0000) / 0x400 && Hex4Value(low) == 0xDC00 + (cp - 0x1_0000) % 0x400
    ensures ItemsOk([Unicode(high), Unicode(low)] + items)
    ensures Meaning([Unicode(high), Unicode(low)] + items) == EncodeRune(cp) + Meaning(items)
  {
    var all := [Unicode(high), Unicode(low)] + items;
    assert all[2..] == items;
    assert JoinSurrogates(Hex4Value(high), Hex4Value(low)) == cp;
    hide EncodeRune, Hex4Value;
  }

  /** An escaped surrogate with no partner stands for U+FFFD. */
  lemma LoneMeans(h: string, items: seq<StrItem>)
    requires IsHex4(h) && ItemsOk(items) && 0xD800 <= Hex4Value(h) <= 0xDFFF
    requires Hex4Value(h) <= 0xDBFF && items != [] ==> !IsLowItem(items[0])
    ensures ItemsOk([Unicode(h)] + items)
    ensures Meaning([Unicode(h)] + items) == "\U{00EF}\U{00BF}\U{00BD}" + Meaning(items)
  {
    assert ([Unicode(h)] + items)[1..] == items;
    Replacement();
    hide Hex4Value, EncodeRune;
  }

  // ---------- What the escapes mean ----------

  /** The escapes of RFC 8259 section 7 and the characters they stand for. */
  lemma ShortMeanings(i: nat)
    requires i < 8
    ensures var escapes, characters := "\"\\/bfnrt", "\"\\/\U{0008}\U{000C}\n\r\t";
      IsShortEscape(escapes[i]) && ShortMeaning(escapes[i]) == [characters[i]]
  {
  }

  lemma ShortEscapes(e: char)
    ensures IsShortEscape(e) <==> e in "\"\\/bfnrt"
  {
  }

  /** The hexadecimal digits, of either case. */
  lemma HexDigits(c: char)
    ensures IsHex(c) <==> c in "0123456789abcdef" || c in "0123456789ABCDEF"
    ensures IsHex(c) ==> c == "0123456789abcdef"[HexValue(c)] || c == "0123456789ABCDEF"[HexValue(c)]
  {
  }
}
