/**
  How encoding/json reads and writes the members of an envelope: scalars by exact type, objects by their members,
  and raw values kept as they are up to insignificant white space. What is written here is read back unchanged.
 */
module EnvelopeFields {
  import opened Wrappers
  import opened JsonGrammar
  import opened JsonStrings
  import opened Utf8
  import opened Decimal
  import opened PoisonRecord

  const MIN_INT64: int := -0x8000_0000_0000_0000
  const MAX_INT64: int := 0x7FFF_FFFF_FFFF_FFFF

  predicate IsInt64(n: int) { MIN_INT64 <= n <= MAX_INT64 }

  // ---------- Reading ----------

  predicate IsNull(v: Value) { v == Literal("null") }

  /** The string a JSON string stands for. */
  function StringOf(v: Value): Option<string>
    requires ValueOk(v)
  {
    if v.Text? then Some(Coerce(Meaning(v.items))) else None
  }

  /** assignValue into a string: null is "", anything but a string fails. */
  function AssignString(v: Value): Option<string>
    requires ValueOk(v)
  {
    if IsNull(v) then Some("") else StringOf(v)
  }

  /** assignValue into an int64: only an integer literal in range. */
  function AssignInt(v: Value): (r: Option<int>)
    requires ValueOk(v)
    ensures r.Some? ==> IsInt64(r.value)
  {
    if IsNull(v) then Some(0)
    else if v.Numeric? && v.number.fraction == "" && v.number.exponent == None then
      var magnitude: int := DigitsValue(v.number.whole);
      var n := if v.number.minus then -magnitude else magnitude;
      if IsInt64(n) then Some(n) else None
    else None
  }

  /** assignValue into a *string. */
  function AssignPointer(v: Value): Option<Option<string>>
    requires ValueOk(v)
  {
    if IsNull(v) then Some(None)
    else match StringOf(v) case None => None case Some(s) => Some(Some(s))
  }

  /** The members forEachMember delivers, in document order, or None for anything but an object. */
  function MembersOf(v: Value): (ms: Option<seq<Member>>)
    requires ValueOk(v)
    ensures ms.Some? <==> IsObject(v)
  {
    if IsObject(v) then Some(Named(Members(v))) else None
  }

  function Named(ms: seq<Member>): (r: seq<Member>)
    ensures |r| == |ms| && forall i :: 0 <= i < |ms| ==> r[i] == Member(Coerce(ms[i].name), ms[i].value)
  {
    seq(|ms|, i requires 0 <= i < |ms| => Member(Coerce(ms[i].name), ms[i].value))
  }

  predicate MembersOk(ms: seq<Member>) { forall i :: 0 <= i < |ms| ==> ValidUtf8(ms[i].name) && ValueOk(ms[i].value) }

  lemma {:induction false} EntriesMembersOk(es: Entries)
    requires EntriesOk(es, Curly)
    ensures forall i :: 0 <= i < |EntriesMembers(es)| ==>
      ValueOk(EntriesMembers(es)[i].value) && ValueDepth(EntriesMembers(es)[i].value) <= EntriesDepth(es)
  {
    if es.Series? { EntriesMembersOk(es.rest); }
  }

  lemma MembersOfOk(v: Value)
    requires ValueOk(v) && IsObject(v)
    ensures MembersOk(MembersOf(v).value)
    ensures forall i :: 0 <= i < |MembersOf(v).value| ==> ValueDepth(MembersOf(v).value[i].value) < ValueDepth(v)
  {
    if v.Group? { EntriesMembersOk(v.entries); }
  }

  // ---------- Writing ----------

  function StringTree(s: string): (v: Value)
    requires ValidUtf8(s)
    ensures ValueOk(v)
  {
    Text(Quote(s))
  }

  function IntTree(n: int): (v: Value)
    ensures ValueOk(v)
  {
    Numeric(Number(n < 0, Digits(if n < 0 then -n else n), "", None))
  }

  function PointerTree(p: Option<string>): (v: Value)
    requires p.Some? ==> ValidUtf8(p.value)
    ensures ValueOk(v)
  {
    match p case None => Literal("null") case Some(s) => StringTree(s)
  }

  lemma StringRoundTrip(s: string)
    requires ValidUtf8(s)
    ensures StringOf(StringTree(s)) == AssignString(StringTree(s)) == Some(s)
    ensures AssignPointer(StringTree(s)) == Some(Some(s))
  {
    MeaningQuote(s);
    CoerceKeepsValid(s);
  }

  lemma IntRoundTrip(n: int)
    requires IsInt64(n)
    ensures AssignInt(IntTree(n)) == Some(n)
  {
    hide DigitsValue, Digits;
    ValueOfDigits(if n < 0 then -n else n);
  }

  function EntryOf(m: Member): Entry
    requires ValidUtf8(m.name)
  {
    Entry(Some(Name("", Quote(m.name), "")), "", m.value, "")
  }

  predicate NamesOk(ms: seq<Member>) { forall i :: 0 <= i < |ms| ==> ValidUtf8(ms[i].name) }

  function EntriesOf(ms: seq<Member>): Entries
    requires ms != [] && NamesOk(ms)
  {
    if |ms| == 1 then Single(EntryOf(ms[0])) else Series(EntryOf(ms[0]), EntriesOf(ms[1..]))
  }

  /** A compact object with these members. */
  function ObjectOf(ms: seq<Member>): (v: Value)
    requires NamesOk(ms)
    ensures IsObject(v)
  {
    if ms == [] then Empty(Curly, "") else Group(Curly, EntriesOf(ms))
  }

  lemma EntryOfOk(m: Member)
    requires ValidUtf8(m.name) && ValueOk(m.value)
    ensures EntryOk(EntryOf(m), Curly) && EntryMember(EntryOf(m)) == Member(m.name, m.value)
  {
    MeaningQuote(m.name);
  }

  lemma {:induction false} EntriesOfOk(ms: seq<Member>, depth: nat)
    requires ms != [] && MembersOk(ms) && forall i :: 0 <= i < |ms| ==> ValueDepth(ms[i].value) <= depth
    ensures EntriesOk(EntriesOf(ms), Curly) && EntriesDepth(EntriesOf(ms)) <= depth
    ensures |EntriesMembers(EntriesOf(ms))| == |ms|
    ensures forall i :: 0 <= i < |ms| ==> EntriesMembers(EntriesOf(ms))[i] == Member(ms[i].name, ms[i].value)
  {
    EntryOfOk(ms[0]);
    assert EntryOf(ms[0]).value == ms[0].value;
    hide EntryOk, EntryMember, EntryOf, ValueOk, ValidUtf8, ValueDepth;
    if |ms| > 1 {
      EntriesOfOk(ms[1..], depth);
    }
  }

  /** Reading a written object gives its members back. */
  lemma ObjectRoundTrip(ms: seq<Member>, depth: nat)
    requires MembersOk(ms) && forall i :: 0 <= i < |ms| ==> ValueDepth(ms[i].value) <= depth
    ensures ValueOk(ObjectOf(ms)) && MembersOf(ObjectOf(ms)) == Some(ms) && ValueDepth(ObjectOf(ms)) <= depth + 1
  {
    if ms != [] {
      EntriesOfOk(ms, depth);
    }
    forall i | 0 <= i < |ms| ensures Coerce(ms[i].name) == ms[i].name { CoerceKeepsValid(ms[i].name); }
    assert Named(Members(ObjectOf(ms))) == ms;
  }

  // ---------- Compacting ----------

  /** json.Compact: the same value without white space. */
  function Compact(v: Value): Value {
    match v
    case Empty(b, _) => Empty(b, "")
    case Group(b, es) => Group(b, CompactEntries(es))
    case _ => v
  }

  function CompactName(n: Option<Name>): Option<Name> {
    match n case None => None case Some(m) => Some(Name("", m.items, ""))
  }

  function CompactEntry(e: Entry): Entry { Entry(CompactName(e.name), "", Compact(e.value), "") }

  function CompactEntries(es: Entries): Entries {
    match es
    case Single(e) => Single(CompactEntry(e))
    case Series(e, rest) => Series(CompactEntry(e), CompactEntries(rest))
  }

  lemma {:induction false} CompactIs(v: Value)
    ensures ValueOk(v) ==> ValueOk(Compact(v))
    ensures ValueDepth(Compact(v)) == ValueDepth(v) && Compact(Compact(v)) == Compact(v)
    decreases v
  {
    match v
    case Group(b, es) => CompactEntriesIs(es, b);
    case _ =>
  }

  lemma {:induction false} CompactEntriesIs(es: Entries, b: Bracket)
    ensures EntriesOk(es, b) ==> EntriesOk(CompactEntries(es), b)
    ensures EntriesDepth(CompactEntries(es)) == EntriesDepth(es)
      && CompactEntries(CompactEntries(es)) == CompactEntries(es)
    decreases es
  {
    CompactIs(es.entry.value);
    CompactEntryOk(es.entry, b);
    if es.Series? { CompactEntriesIs(es.rest, b); }
  }

  lemma CompactEntryOk(e: Entry, b: Bracket)
    requires ValueOk(e.value) ==> ValueOk(Compact(e.value))
    ensures EntryOk(e, b) ==> EntryOk(CompactEntry(e), b)
  {
    hide Compact, ValueOk;
  }

  function CompactAll(m: map<string, Value>): map<string, Value> { map k | k in m :: Compact(m[k]) }
}
