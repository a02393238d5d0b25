/**
  The paths schema.go prints for the fields marked sensitive, and gdpr.go parses: for plain names parsing gives
  back what was printed.
 */
module SensitivePaths {
  import opened Wrappers
  import opened FieldPaths

  /** properties in the order the map is iterated in. */
  datatype Schema = Schema(marked: bool, properties: seq<Property>, items: Option<Schema>)
  datatype Property = Property(name: string, schema: Schema)

  // ---------- Printing ----------

  function Join(path: string, key: string): string { if path == "" then key else path + "." + key }

  /** collectSensitive. */
  function Collect(s: Schema, path: string): seq<string>
    decreases s, 1
  {
    (if s.marked then [path] else []) + CollectProperties(s.properties, path)
    + if s.items.Some? then Collect(s.items.value, path + "[]") else []
  }

  function CollectProperties(props: seq<Property>, path: string): seq<string>
    decreases props, 0
  {
    if props == [] then []
      else Collect(props[0].schema, Join(path, props[0].name)) + CollectProperties(props[1..], path)
  }

  /** The marked places as steps, in the same order. */
  function Marks(s: Schema): seq<Path>
    decreases s, 1
  {
    (if s.marked then [[]] else []) + PropertyMarks(s.properties)
    + if s.items.Some? then Prefixed(Each, Marks(s.items.value)) else []
  }

  function PropertyMarks(props: seq<Property>): seq<Path>
    decreases props, 0
  {
    if props == [] then [] else Prefixed(Key(props[0].name), Marks(props[0].schema)) + PropertyMarks(props[1..])
  }

  function Prefixed(step: Step, ps: seq<Path>): (r: seq<Path>)
    ensures |r| == |ps| && forall i :: 0 <= i < |ps| ==> r[i] == [step] + ps[i]
  {
    seq(|ps|, i requires 0 <= i < |ps| => [step] + ps[i])
  }

  /** The text of a path below one whose text is `text`. */
  function Print(text: string, p: Path): string
    decreases |p|
  {
    if p == [] then text
    else match p[0] case Key(k) => Print(Join(text, k), p[1..]) case Each => Print(text + "[]", p[1..])
  }

  /** A property is joined with a dot, an element step is a pair of brackets. */
  lemma PrintIs(text: string, k: string, rest: Path)
    requires text != ""
    ensures Print(text, [Key(k)] + rest) == Print(text + "." + k, rest)
    ensures Print("", [Key(k)] + rest) == Print(k, rest)
    ensures Print(text, [Each] + rest) == Print(text + "[]", rest) && Print(text, []) == text
  {
    assert ([Key(k)] + rest)[1..] == rest && ([Each] + rest)[1..] == rest;
  }

  function PrintAll(text: string, ps: seq<Path>): (r: seq<string>)
    ensures |r| == |ps| && forall i :: 0 <= i < |ps| ==> r[i] == Print(text, ps[i])
  {
    seq(|ps|, i requires 0 <= i < |ps| => Print(text, ps[i]))
  }

  lemma PrintPrefixed(text: string, step: Step, ps: seq<Path>)
    ensures PrintAll(text, Prefixed(step, ps)) ==
      PrintAll(match step case Key(k) => Join(text, k) case Each => text + "[]", ps)
  {
    forall i | 0 <= i < |ps| ensures ([step] + ps[i])[1..] == ps[i] {}
    hide Join;
  }

  lemma PrintConcat(text: string, a: seq<Path>, b: seq<Path>)
    ensures PrintAll(text, a + b) == PrintAll(text, a) + PrintAll(text, b)
  {
    hide Print;
  }

  /** What is collected are the printed marks. */
  lemma {:induction false} CollectPrints(s: Schema, path: string)
    ensures Collect(s, path) == PrintAll(path, Marks(s))
    decreases s, 1
  {
    var own: seq<Path> := if s.marked then [[]] else [];
    var items := if s.items.Some? then Prefixed(Each, Marks(s.items.value)) else [];
    CollectPropertiesPrints(s.properties, path);
    if s.items.Some? {
      CollectPrints(s.items.value, path + "[]");
      PrintPrefixed(path, Each, Marks(s.items.value));
    }
    PrintConcat(path, own, PropertyMarks(s.properties));
    PrintConcat(path, own + PropertyMarks(s.properties), items);
    assert PrintAll(path, own) == if s.marked then [path] else [];
    hide PropertyMarks, CollectProperties, Prefixed, PrintAll;
  }

  lemma {:induction false} CollectPropertiesPrints(props: seq<Property>, path: string)
    ensures CollectProperties(props, path) == PrintAll(path, PropertyMarks(props))
    decreases props, 0
  {
    if props != [] {
      CollectPrints(props[0].schema, Join(path, props[0].name));
      CollectPropertiesPrints(props[1..], path);
      PrintPrefixed(path, Key(props[0].name), Marks(props[0].schema));
      PrintConcat(path, Prefixed(Key(props[0].name), Marks(props[0].schema)), PropertyMarks(props[1..]));
    }
    hide Marks, Collect, Prefixed, Join;
  }

  // ---------- Parsing ----------

  datatype Segment = Segment(key: string, each: bool)

  predicate HasDot(s: string) { '.' in s }

  predicate NoDots(parts: seq<string>) { forall i :: 0 <= i < |parts| ==> !HasDot(parts[i]) }

  function JoinDots(parts: seq<string>): string
    requires parts != []
  {
    if |parts| == 1 then parts[0] else parts[0] + "." + JoinDots(parts[1..])
  }

  /** splitDots. */
  method SplitDots(path: string) returns (out: seq<string>)
    ensures out != [] && NoDots(out) && JoinDots(out) == path
  {
    out := [];
    var start := 0;
    for i := 0 to |path|
      invariant start <= i && NoDots(out) && !HasDot(path[start..i])
      invariant path[..start] == Dotted(out)
    {
      if path[i] == '.' {
        DottedSnoc(out, path[start..i]);
        assert path[..i + 1] == path[..start] + path[start..i] + ".";
        out := out + [path[start..i]];
        start := i + 1;
      } else {
        assert path[start..i + 1] == path[start..i] + [path[i]];
      }
    }
    JoinIsDotted(out, path[start..]);
    assert path == path[..start] + path[start..];
    assert path[start..|path|] == path[start..];
    out := out + [path[start..]];
  }

  /** The parts, each followed by a dot. */
  function Dotted(parts: seq<string>): string {
    if parts == [] then "" else parts[0] + "." + Dotted(parts[1..])
  }

  lemma {:induction false} DottedSnoc(parts: seq<string>, last: string)
    ensures Dotted(parts + [last]) == Dotted(parts) + last + "."
  {
    if parts != [] {
      DottedSnoc(parts[1..], last);
      assert (parts + [last])[1..] == parts[1..] + [last];
    } else {
      assert parts + [last] == [last];
    }
  }

  lemma {:induction false} JoinIsDotted(parts: seq<string>, last: string)
    ensures JoinDots(parts + [last]) == Dotted(parts) + last
  {
    if parts != [] {
      JoinIsDotted(parts[1..], last);
      assert (parts + [last])[1..] == parts[1..] + [last];
    } else {
      assert parts + [last] == [last];
    }
  }

  /** The first part ends at the first dot. */
  lemma FirstPart(parts: seq<string>)
    requires parts != [] && NoDots(parts)
    ensures var s := JoinDots(parts); var n := |parts[0]|;
      && n <= |s| && s[..n] == parts[0] && (forall k :: 0 <= k < n ==> s[k] != '.')
      && (|parts| > 1 <==> n < |s|) && (|parts| > 1 ==> s[n] == '.' && s[n + 1..] == JoinDots(parts[1..]))
  {
    assert !HasDot(parts[0]);
  }

  /** Parts without dots are what they join to. */
  lemma {:induction false} JoinIsInjective(a: seq<string>, b: seq<string>)
    requires a != [] && b != [] && NoDots(a) && NoDots(b) && JoinDots(a) == JoinDots(b)
    ensures a == b
  {
    FirstPart(a);
    FirstPart(b);
    hide JoinDots;
    assert |a[0]| == |b[0]|;
    if |a| > 1 {
      JoinIsInjective(a[1..], b[1..]);
    }
    assert a == [a[0]] + a[1..] && b == [b[0]] + b[1..];
  }

  predicate EndsInBrackets(s: string) { |s| >= 2 && s[|s| - 2..] == "[]" }

  function SegmentOf(part: string): Segment {
    if EndsInBrackets(part) then Segment(part[..|part| - 2], true) else Segment(part, false)
  }

  function SegmentsOf(parts: seq<string>): (segs: seq<Segment>)
    ensures |segs| == |parts| && forall i :: 0 <= i < |parts| ==> segs[i] == SegmentOf(parts[i])
  {
    seq(|parts|, i requires 0 <= i < |parts| => SegmentOf(parts[i]))
  }

  /** The parts of a path: the one list without dots that joins to it. */
  ghost predicate IsSplit(path: string, parts: seq<string>) { parts != [] && NoDots(parts) && JoinDots(parts) == path }

  /** parsePath. */
  method ParsePath(path: string) returns (segs: seq<Segment>)
    ensures path == "" ==> segs == []
    ensures path != "" ==> exists parts :: IsSplit(path, parts) && segs == SegmentsOf(parts)
  {
    if path == "" {
      return [];
    }
    segs := [];
    var parts := SplitDots(path);
    for k := 0 to |parts|
      invariant segs == SegmentsOf(parts[..k])
    {
      var part := parts[k];
      var n := |part|;
      assert SegmentsOf(parts[..k + 1]) == SegmentsOf(parts[..k]) + [SegmentOf(part)];
      segs := segs + [if n >= 2 && part[n - 2..] == "[]" then Segment(part[..n - 2], true) else Segment(part, false)];
    }
    assert parts[..|parts|] == parts;
    assert IsSplit(path, parts);
  }

  // ---------- Segments and steps ----------

  /** The steps a segment stands for. */
  function StepsOf(segs: seq<Segment>): Path {
    if segs == [] then []
    else (if segs[0].each then [Key(segs[0].key), Each] else [Key(segs[0].key)]) + StepsOf(segs[1..])
  }

  /** What parsing can give: names without dots, an element step only right after a name, and a name that ends in
      brackets only before one. */
  predicate IsParsed(p: Path) {
    p == [] || (
      && p[0].Key? && !HasDot(p[0].name)
      && (EndsInBrackets(p[0].name) ==> HasEach(p))
      && IsParsed(if HasEach(p) then p[2..] else p[1..]))
  }

  predicate HasEach(p: Path) { |p| > 1 && p[1].Each? }

  /** What is there again after printing and parsing. An empty first name is only seen by its brackets: printed
      alone it is the root, and before another name it leaves no dot. */
  predicate Survives(p: Path) { p != [] && IsParsed(p) && (p[0].name == "" ==> HasEach(p)) }

  /** The parts such a path is written with. */
  function PartsOf(p: Path): seq<string>
    requires IsParsed(p)
  {
    if p == [] then []
    else if HasEach(p) then [p[0].name + "[]"] + PartsOf(p[2..])
    else [p[0].name] + PartsOf(p[1..])
  }

  function PrintParts(text: string, parts: seq<string>): string
    decreases |parts|
  {
    if parts == [] then text else PrintParts(Join(text, parts[0]), parts[1..])
  }

  lemma {:induction false} PrintsParts(text: string, p: Path)
    requires IsParsed(p)
    ensures Print(text, p) == PrintParts(text, PartsOf(p))
    decreases |p|
  {
    if p != [] {
      var rest := if HasEach(p) then p[2..] else p[1..];
      var part := if HasEach(p) then p[0].name + "[]" else p[0].name;
      PrintsParts(Join(text, part), rest);
      assert ([part] + PartsOf(rest))[1..] == PartsOf(rest);
      if HasEach(p) {
        assert p[1..][1..] == p[2..];
        assert Join(text, p[0].name) + "[]" == Join(text, part);
      }
    }
  }

  lemma StepsOfCons(part: string, rest: seq<string>)
    ensures StepsOf(SegmentsOf([part] + rest)) ==
      (if EndsInBrackets(part) then [Key(part[..|part| - 2]), Each] else [Key(part)]) + StepsOf(SegmentsOf(rest))
  {
    assert SegmentsOf([part] + rest)[1..] == SegmentsOf(rest);
  }

  /** A parsed path is read from the parts it is written with. */
  lemma {:induction false} StepsOfParts(p: Path)
    requires IsParsed(p)
    ensures NoDots(PartsOf(p)) && StepsOf(SegmentsOf(PartsOf(p))) == p
    decreases |p|
  {
    hide StepsOf, SegmentsOf;
    if p == [] {
      NoSteps();
    } else if HasEach(p) {
      var part := p[0].name + "[]";
      StepsOfParts(p[2..]);
      StepsOfCons(part, PartsOf(p[2..]));
      assert part[|part| - 2..] == "[]" && part[..|part| - 2] == p[0].name;
      assert p == [p[0], p[1]] + p[2..];
      assert !HasDot(part);
    } else {
      StepsOfParts(p[1..]);
      StepsOfCons(p[0].name, PartsOf(p[1..]));
      assert p == [p[0]] + p[1..];
    }
  }

  /** And what is read from parts is a parsed path, written with them. */
  lemma {:induction false} PartsOfSteps(parts: seq<string>)
    requires NoDots(parts)
    ensures IsParsed(StepsOf(SegmentsOf(parts))) && PartsOf(StepsOf(SegmentsOf(parts))) == parts
    decreases |parts|
  {
    if parts == [] {
      NoSteps();
    } else {
      var part, rest := parts[0], parts[1..];
      assert parts == [part] + rest;
      PartsOfSteps(rest);
      StepsOfCons(part, rest);
      hide StepsOf, SegmentsOf;
      FirstStep(part, StepsOf(SegmentsOf(rest)));
    }
  }

  lemma FirstStep(part: string, p: Path)
    requires !HasDot(part) && IsParsed(p)
    ensures var q := (if EndsInBrackets(part) then [Key(part[..|part| - 2]), Each] else [Key(part)]) + p;
      IsParsed(q) && PartsOf(q) == [part] + PartsOf(p)
  {
    if EndsInBrackets(part) {
      assert part == part[..|part| - 2] + "[]";
      FirstEach(part[..|part| - 2], p);
    } else {
      FirstKey(part, p);
    }
    hide PartsOf, IsParsed;
  }

  lemma FirstEach(name: string, p: Path)
    requires !HasDot(name) && IsParsed(p)
    ensures IsParsed([Key(name), Each] + p) && PartsOf([Key(name), Each] + p) == [name + "[]"] + PartsOf(p)
  {
    var q := [Key(name), Each] + p;
    assert q[2..] == p && q[0] == Key(name) && HasEach(q);
  }

  lemma FirstKey(name: string, p: Path)
    requires !HasDot(name) && !EndsInBrackets(name) && IsParsed(p)
    ensures IsParsed([Key(name)] + p) && PartsOf([Key(name)] + p) == [name] + PartsOf(p)
  {
    var q := [Key(name)] + p;
    assert q[1..] == p && q[0] == Key(name) && !HasEach(q);
  }

  lemma NoSteps()
    ensures StepsOf(SegmentsOf([])) == []
  {
  }

  lemma {:induction false} PrintPartsJoins(text: string, parts: seq<string>)
    ensures text != "" ==> PrintParts(text, parts) == JoinDots([text] + parts)
    ensures text == "" && parts != [] && parts[0] != "" ==> PrintParts(text, parts) == JoinDots(parts)
    decreases |parts|
  {
    if parts != [] {
      PrintPartsJoins(Join(text, parts[0]), parts[1..]);
      assert parts == [parts[0]] + parts[1..];
      if text != "" {
        assert ([text] + parts)[1..] == parts;
        JoinMerges(text, parts);
      }
    } else {
      assert [text] + parts == [text];
    }
  }

  /** An empty first part is not seen: the text is shorter than the parts joined. */
  lemma {:induction false} EmptyPartIsLost(parts: seq<string>)
    requires parts != []
    ensures |PrintParts("", parts)| <= |JoinDots(parts)|
    ensures parts[0] == "" && |parts| > 1 ==> |PrintParts("", parts)| < |JoinDots(parts)|
    decreases |parts|
  {
    assert parts == [parts[0]] + parts[1..];
    if parts[0] != "" {
      PrintPartsJoins("", parts);
    } else if |parts| > 1 {
      EmptyPartIsLost(parts[1..]);
    }
  }

  lemma JoinCons(x: string, rest: seq<string>)
    ensures JoinDots([x] + rest) == if rest == [] then x else x + "." + JoinDots(rest)
  {
    assert ([x] + rest)[1..] == rest;
  }

  lemma Assoc(a: string, b: string, c: string)
    ensures a + "." + b + "." + c == a + "." + (b + "." + c)
  {
  }

  lemma JoinMerges(text: string, parts: seq<string>)
    requires parts != []
    ensures JoinDots([text + "." + parts[0]] + parts[1..]) == JoinDots([text] + parts)
  {
    var rest := parts[1..];
    assert parts == [parts[0]] + rest;
    JoinCons(text + "." + parts[0], rest);
    JoinCons(text, parts);
    JoinCons(parts[0], rest);
    if rest != [] {
      Assoc(text, parts[0], JoinDots(rest));
    }
    hide JoinDots;
  }

  /** Parsing what was printed gives the path back, exactly for the paths that survive; the root alone prints as
      the empty text, and that is not parsed. */
  lemma ParseUndoesPrintExactlyWhen(p: Path, parts: seq<string>)
    requires p != [] && IsSplit(Print("", p), parts)
    ensures Print("", p) != "" && StepsOf(SegmentsOf(parts)) == p <==> Survives(p)
  {
    hide StepsOf, SegmentsOf, Print, PrintParts, JoinDots, IsParsed, PartsOf;
    if StepsOf(SegmentsOf(parts)) == p {
      PartsOfSteps(parts);
      PrintsParts("", p);
      EmptyPartIsLost(parts);
      FirstPartOf(p);
    }
    if Survives(p) {
      PrintsParts("", p);
      StepsOfParts(p);
      FirstPartOf(p);
      PrintPartsJoins("", PartsOf(p));
      JoinIsInjective(parts, PartsOf(p));
      JoinIsNotEmpty(PartsOf(p));
    }
  }

  lemma FirstPartOf(p: Path)
    requires p != [] && IsParsed(p)
    ensures PartsOf(p) != [] && (PartsOf(p)[0] == "" <==> p[0].name == "" && !HasEach(p))
    ensures |PartsOf(p)| == 1 && PartsOf(p)[0] == "" ==> Print("", p) == ""
  {
  }

  lemma JoinIsNotEmpty(parts: seq<string>)
    requires parts != [] && parts[0] != ""
    ensures JoinDots(parts) != ""
  {
  }

  // ---------- Addressing ----------

  /** What a printed path is parsed as. */
  ghost predicate AddressesOne(text: string, p: Path) {
    text != "" && exists parts :: IsSplit(text, parts) && p == StepsOf(SegmentsOf(parts))
  }

  lemma {:induction false} SplitExists(text: string) returns (parts: seq<string>)
    ensures IsSplit(text, parts)
    decreases |text|
  {
    if !HasDot(text) {
      parts := [text];
    } else {
      var i :| 0 <= i < |text| && text[i] == '.' && !HasDot(text[..i]) by { FirstDotExists(text); }
      var rest := SplitExists(text[i + 1..]);
      parts := [text[..i]] + rest;
      assert text == text[..i] + "." + text[i + 1..];
      JoinCons(text[..i], rest);
    }
  }

  lemma {:induction false} FirstDotExists(text: string)
    requires HasDot(text)
    ensures exists i :: 0 <= i < |text| && text[i] == '.' && !HasDot(text[..i])
    decreases |text|
  {
    var n := |text| - 1;
    if HasDot(text[..n]) {
      FirstDotExists(text[..n]);
      var i :| 0 <= i < n && text[..n][i] == '.' && !HasDot(text[..n][..i]);
      assert text[..n][..i] == text[..i];
    } else {
      assert text == text[..n] + [text[n]];
    }
  }

  /** A printed path addresses its own place exactly when it survives, and then no other. */
  lemma AddressesItselfExactlyWhen(p: Path)
    requires p != []
    ensures AddressesOne(Print("", p), p) <==> Survives(p)
    ensures Survives(p) ==> forall q :: AddressesOne(Print("", p), q) ==> q == p
  {
    var parts := SplitExists(Print("", p));
    ParseUndoesPrintExactlyWhen(p, parts);
    hide StepsOf, SegmentsOf, Print, Survives;
    forall q | AddressesOne(Print("", p), q) ensures q == StepsOf(SegmentsOf(parts)) {
      var others :| IsSplit(Print("", p), others) && q == StepsOf(SegmentsOf(others));
      JoinIsInjective(parts, others);
    }
  }

  /** The text is the parts of what it addresses, joined. */
  lemma AddressedText(text: string, p: Path)
    requires AddressesOne(text, p)
    ensures p != [] && IsParsed(p) && PartsOf(p) != [] && text == JoinDots(PartsOf(p))
  {
    var parts :| IsSplit(text, parts) && p == StepsOf(SegmentsOf(parts));
    PartsOfSteps(parts);
  }

  /** What lies inside is written further on. */
  lemma {:induction false} PrefixPrints(q: Path, p: Path)
    requires q != [] && q < p && IsParsed(q) && IsParsed(p)
    ensures PartsOf(q) != [] && PartsOf(p) != [] && JoinDots(PartsOf(q)) < JoinDots(PartsOf(p))
    decreases |q|
  {
    var n := if HasEach(q) then 2 else 1;
    var part := if HasEach(q) then q[0].name + "[]" else q[0].name;
    var a := PartsOf(q[n..]);
    JoinCons(part, a);
    assert PartsOf(q) == [part] + a;
    if HasEach(p) == HasEach(q) {
      var b := PartsOf(p[n..]);
      assert PartsOf(p) == [part] + b && b != [];
      JoinCons(part, b);
      if |q| > n {
        assert q[n..] < p[n..];
        PrefixPrints(q[n..], p[n..]);
      }
    } else {
      assert |q| == 1 && HasEach(p) && a == [];
      var b := PartsOf(p[2..]);
      assert PartsOf(p) == [part + "[]"] + b;
      JoinCons(part + "[]", b);
    }
  }
}
