/**
  json.Compact, byte by byte: white space outside string literals is dropped and every other byte is kept. On a text
  that is JSON this is what compacting its tree gives, so compacting keeps the value and touches no string.
 */
module JsonCompact {
  import opened Wrappers
  import opened JsonGrammar
  import opened EnvelopeFields

  function Squeeze(s: string): string {
    if s == "" then ""
    else if s[0] == '\"' then ['\"'] + InLiteral(s[1..])
    else if IsSpace(s[0]) then Squeeze(s[1..])
    else [s[0]] + Squeeze(s[1..])
  }

  /** Inside a string literal everything is kept, up to the quote that ends it. */
  function InLiteral(s: string): string {
    if s == "" then ""
    else if s[0] == '\"' then ['\"'] + Squeeze(s[1..])
    else if s[0] == '\\' && |s| > 1 then s[..2] + InLiteral(s[2..])
    else [s[0]] + InLiteral(s[1..])
  }

  predicate IsSolid(a: string) { forall i :: 0 <= i < |a| ==> !IsSpace(a[i]) && a[i] != '\"' }

  lemma {:induction false} SqueezeSolid(a: string, rest: string)
    requires IsSolid(a)
    ensures Squeeze(a + rest) == a + Squeeze(rest)
  {
    if a == "" {
      assert a + rest == rest;
    } else {
      assert (a + rest)[1..] == a[1..] + rest;
      SqueezeSolid(a[1..], rest);
    }
  }

  lemma {:induction false} SqueezeBlank(blank: string, rest: string)
    requires IsBlank(blank)
    ensures Squeeze(blank + rest) == Squeeze(rest)
  {
    if blank == "" {
      assert blank + rest == rest;
    } else {
      assert (blank + rest)[1..] == blank[1..] + rest;
      SqueezeBlank(blank[1..], rest);
    }
  }

  lemma {:induction false} KeptInLiteral(a: string, rest: string)
    requires forall i :: 0 <= i < |a| ==> a[i] != '\"' && a[i] != '\\'
    ensures InLiteral(a + rest) == a + InLiteral(rest)
  {
    if a == "" {
      assert a + rest == rest;
    } else {
      assert (a + rest)[1..] == a[1..] + rest;
      KeptInLiteral(a[1..], rest);
    }
  }

  lemma ItemIsKept(it: StrItem, rest: string)
    requires ItemOk(it)
    ensures InLiteral(ItemText(it) + rest) == ItemText(it) + InLiteral(rest)
  {
    match it
    case Plain(c) => KeptInLiteral([c], rest);
    case Short(e) => EscapeIsKept(e, rest);
    case Unicode(h) =>
      assert ItemText(it) + rest == ['\\', 'u'] + (h + rest);
      EscapeIsKept('u', h + rest);
      KeptInLiteral(h, rest);
  }

  lemma EscapeIsKept(c: char, rest: string)
    ensures InLiteral(['\\', c] + rest) == ['\\', c] + InLiteral(rest)
  {
    var s := ['\\', c] + rest;
    assert s[..2] == ['\\', c] && s[2..] == rest;
  }

  lemma {:induction false} ItemsAreKept(items: seq<StrItem>, rest: string)
    requires ItemsOk(items)
    ensures InLiteral(ItemsThen(items, ['\"'] + rest)) == ItemsThen(items, ['\"'] + Squeeze(rest))
  {
    if items == [] {
      assert (['\"'] + rest)[1..] == rest;
    } else {
      ItemIsKept(items[0], ItemsThen(items[1..], ['\"'] + rest));
      ItemsAreKept(items[1..], rest);
    }
  }

  lemma QuotedIsKept(items: seq<StrItem>, rest: string)
    requires ItemsOk(items)
    ensures Squeeze(QuotedThen(items, rest)) == QuotedThen(items, Squeeze(rest))
  {
    ItemsAreKept(items, rest);
    assert QuotedThen(items, rest)[1..] == ItemsThen(items, ['\"'] + rest);
    hide ItemsThen, InLiteral;
  }

  lemma NumberIsKept(n: Number, rest: string)
    requires NumberOk(n)
    ensures Squeeze(NumberThen(n, rest)) == NumberThen(n, Squeeze(rest))
  {
    var x := ExponentThen(n.exponent, rest);
    if n.exponent.Some? {
      var y := n.exponent.value;
      SqueezeSolid([y.e], y.sign + (y.digits + rest));
      SqueezeSolid(y.sign, y.digits + rest);
      SqueezeSolid(y.digits, rest);
    }
    SqueezeSolid(['.'], n.fraction + x);
    SqueezeSolid(n.fraction, x);
    SqueezeSolid(n.whole, FractionThen(n.fraction, x));
    SqueezeSolid(['-'], WholeThen(n, rest));
    hide Squeeze;
  }

  lemma MarkIsKept(c: char, rest: string)
    requires !IsSpace(c) && c != '\"'
    ensures Squeeze([c] + rest) == [c] + Squeeze(rest)
  {
    SqueezeSolid([c], rest);
  }

  /** Dropping white space outside strings from the text of a value gives the text of the compacted value. */
  lemma {:induction false} SqueezeIs(v: Value, rest: string)
    requires ValueOk(v)
    ensures Squeeze(ValueThen(v, rest)) == ValueThen(Compact(v), Squeeze(rest))
    decreases v, 0
  {
    match v
    case Literal(w) => SqueezeSolid(w, rest);
    case Numeric(n) => NumberIsKept(n, rest);
    case Text(items) => QuotedIsKept(items, rest);
    case Empty(b, blank) =>
      MarkIsKept(Open(b), blank + ([Close(b)] + rest));
      SqueezeBlank(blank, [Close(b)] + rest);
      MarkIsKept(Close(b), rest);
      NoBlank([Close(b)] + Squeeze(rest));
    case Group(b, es) =>
      MarkIsKept(Open(b), EntriesThen(es, [Close(b)] + rest));
      EntriesAreSqueezed(es, b, [Close(b)] + rest);
      MarkIsKept(Close(b), rest);
  }

  lemma NoBlank(s: string)
    ensures "" + s == s
  {
  }

  lemma NameIsSqueezed(n: Option<Name>, b: Bracket, rest: string)
    requires NameOk(n, b)
    ensures Squeeze(NameThen(n, rest)) == NameThen(CompactName(n), Squeeze(rest))
  {
    if n.Some? {
      var m := n.value;
      var c := m.after + ([':'] + rest);
      SqueezeBlank(m.before, QuotedThen(m.items, c));
      QuotedIsKept(m.items, c);
      SqueezeBlank(m.after, [':'] + rest);
      MarkIsKept(':', rest);
      NoBlank([':'] + Squeeze(rest));
      NoBlank(QuotedThen(m.items, [':'] + Squeeze(rest)));
    }
    hide Squeeze, QuotedThen;
  }

  lemma {:induction false} EntryIsSqueezed(e: Entry, b: Bracket, rest: string)
    requires EntryOk(e, b)
    ensures Squeeze(EntryThen(e, rest)) == EntryThen(CompactEntry(e), Squeeze(rest))
    decreases e, 1
  {
    var w := ValueThen(e.value, e.after + rest);
    NameIsSqueezed(e.name, b, e.before + w);
    SqueezeBlank(e.before, w);
    SqueezeIs(e.value, e.after + rest);
    SqueezeBlank(e.after, rest);
    NoBlank(Squeeze(rest));
    NoBlank(ValueThen(Compact(e.value), Squeeze(rest)));
    hide Squeeze, NameThen, ValueThen, Compact, CompactName;
  }

  lemma {:induction false} EntriesAreSqueezed(es: Entries, b: Bracket, rest: string)
    requires EntriesOk(es, b)
    ensures Squeeze(EntriesThen(es, rest)) == EntriesThen(CompactEntries(es), Squeeze(rest))
    decreases es, 2
  {
    match es
    case Single(e) => EntryIsSqueezed(e, b, rest);
    case Series(e, more) =>
      EntryIsSqueezed(e, b, [','] + EntriesThen(more, rest));
      MarkIsKept(',', EntriesThen(more, rest));
      EntriesAreSqueezed(more, b, rest);
  }

  /** And of a document the text of its compacted value, with nothing around it. */
  lemma CompactDocument(d: Doc)
    requires DocOk(d)
    ensures Squeeze(DocText(d)) == ValueThen(Compact(d.value), "")
  {
    SqueezeBlank(d.before, ValueThen(d.value, d.after));
    SqueezeIs(d.value, d.after);
    SqueezeBlank(d.after, "");
    assert d.after + "" == d.after;
    hide ValueThen, Compact;
  }
}
