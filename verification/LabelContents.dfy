/** labelcomp.c, l_parse_encodings: what the conversion pass stores in the strings, byte by byte and in order. */
module LabelContents {

  import opened Machine
  import opened LabelScan
  import opened LabelWords
  import opened LabelAgreement
  import opened LabelConstraints
  import opened LabelPasses
  import opened LabelEncodings

  // ---------------------------------------------------------------- reading the strings

  /** What stands in the strings: a text with its NUL, a text with blanks for slashes and its NUL, cleared bytes, the
      byte that brings an address to an even one, or a short. */
  datatype Item = Str(text: string) | Unslash(text: string) | Zeros(n: nat) | Aligned | Short(index: int)

  function ItemEnd(base: nat, x: Item, at: nat): nat {
    match x
    case Str(text) => at + |text| + 1
    case Unslash(text) => at + |text| + 1
    case Zeros(n) => at + n
    case Aligned => at + (base + at) % 2
    case Short(index) => at + 2
  }

  predicate AllClear(area: seq<Cell>, at: nat, end: nat) {
    at <= end <= |area| && forall k :: at <= k < end ==> area[k] == Clear
  }

  predicate ItemStands(base: nat, x: Item, area: seq<Cell>, at: nat) {
    var end := ItemEnd(base, x, at);
    && end <= |area|
    && match x
       case Str(text) =>
         area[at + |text|] == Clear && forall k :: 0 <= k < |text| ==> area[at + k] == Text(text[k])
       case Unslash(text) =>
         && area[at + |text|] == Clear
         && forall k :: 0 <= k < |text| ==> area[at + k] == Text(if text[k] == '/' then ' ' else text[k])
       case Zeros(n) => AllClear(area, at, end)
       case Aligned => AllClear(area, at, end)
       case Short(index) => area[at] == Half(index) && area[at + 1] == Half(index)
  }

  predicate ItemsStand(base: nat, xs: seq<Item>, area: seq<Cell>, at: nat, end: nat) {
    if xs == [] then at == end
    else ItemStands(base, xs[0], area, at) && ItemsStand(base, xs[1..], area, ItemEnd(base, xs[0], at), end)
  }

  /** What was in the area stays, and behind it stand the items, up to the end. */
  predicate Adds(base: nat, xs: seq<Item>, area: seq<Cell>, more: seq<Cell>) {
    area <= more && ItemsStand(base, xs, more, |area|, |more|)
  }

  lemma StillStands(base: nat, x: Item, area: seq<Cell>, more: seq<Cell>, at: nat)
    requires area <= more && ItemStands(base, x, area, at)
    ensures ItemStands(base, x, more, at)
  {
    var end := ItemEnd(base, x, at);
    assert forall k :: 0 <= k < end ==> more[k] == area[k];
  }

  lemma {:induction false} StandThenStand(base: nat, xs: seq<Item>, ys: seq<Item>, area: seq<Cell>, more: seq<Cell>,
                                          at: nat, mid: nat, end: nat)
    requires area <= more && ItemsStand(base, xs, area, at, mid) && ItemsStand(base, ys, more, mid, end)
    ensures ItemsStand(base, xs + ys, more, at, end)
    decreases |xs|
  {
    if xs == [] {
      assert xs + ys == ys;
    } else {
      StillStands(base, xs[0], area, more, at);
      StandThenStand(base, xs[1..], ys, area, more, ItemEnd(base, xs[0], at), mid, end);
      assert (xs + ys)[1..] == xs[1..] + ys && (xs + ys)[0] == xs[0];
    }
  }

  lemma AddsThenAdds(base: nat, xs: seq<Item>, ys: seq<Item>, a: seq<Cell>, b: seq<Cell>, c: seq<Cell>)
    requires Adds(base, xs, a, b) && Adds(base, ys, b, c)
    ensures Adds(base, xs + ys, a, c)
  {
    StandThenStand(base, xs, ys, b, c, |a|, |b|, |c|);
  }

  lemma AddsNothing(base: nat, a: seq<Cell>)
    ensures Adds(base, [], a, a)
  {
  }

  lemma AddsOne(base: nat, x: Item, a: seq<Cell>, b: seq<Cell>)
    requires a <= b && ItemStands(base, x, b, |a|) && ItemEnd(base, x, |a|) == |b|
    ensures Adds(base, [x], a, b)
  {
    assert [x][1..] == [];
  }

  // ---------------------------------------------------------------- what each step stores

  lemma CopiedStands(base: nat, text: string, a: seq<Cell>)
    ensures Adds(base, [Str(text)], a, a + Copied(text))
  {
    AddsOne(base, Str(text), a, a + Copied(text));
  }

  lemma UnslashedStands(base: nat, text: string, a: seq<Cell>)
    ensures Adds(base, [Unslash(text)], a, a + Copied(Unslashed(text)))
  {
    AddsOne(base, Unslash(text), a, a + Copied(Unslashed(text)));
  }

  lemma ClearedStands(base: nat, n: nat, a: seq<Cell>)
    ensures Adds(base, [Zeros(n)], a, a + Cleared(n))
  {
    AddsOne(base, Zeros(n), a, a + Cleared(n));
  }

  lemma PadStands(base: nat, a: seq<Cell>)
    ensures Adds(base, [Aligned], a, Pad(base, a))
  {
    AddsOne(base, Aligned, a, Pad(base, a));
  }

  function ShortItems(list: seq<int>): seq<Item> {
    if list == [] then [] else [Short(list[0])] + ShortItems(list[1..])
  }

  lemma {:induction false} ShortsStand(base: nat, list: seq<int>, a: seq<Cell>)
    ensures Adds(base, ShortItems(list), a, a + Shorts(list))
    decreases |list|
  {
    if list == [] {
      assert a + [] == a;
    } else {
      var b := a + [Half(list[0]), Half(list[0])];
      AddsOne(base, Short(list[0]), a, b);
      ShortsStand(base, list[1..], b);
      AddsThenAdds(base, [Short(list[0])], ShortItems(list[1..]), a, b, b + Shorts(list[1..]));
      assert b + Shorts(list[1..]) == a + Shorts(list);
    }
  }

  // ---------------------------------------------------------------- words

  /** The name as it is written; the long name, where it is another; and the four masks of the word. */
  function NameItems(z: Sizes, outputOnly: bool, name: string): seq<Item> {
    [Str(name)] + (if !outputOnly && '/' in name then [Unslash(name)] else [])
    + [Aligned] + [Zeros(2 * z.compartments + 2 * z.markings)]
  }

  lemma NameStands(z: Sizes, base: nat, outputOnly: bool, name: string, a: seq<Cell>)
    ensures Adds(base, NameItems(z, outputOnly, name), a, StoreName(z, base, outputOnly, name, a))
  {
    var twice := if !outputOnly && '/' in name then [Unslash(name)] else [];
    var b := a + Copied(name);
    var c := b + if StoredTwice(outputOnly, name) then Copied(Unslashed(name)) else [];
    CopiedStands(base, name, a);
    if StoredTwice(outputOnly, name) {
      UnslashedStands(base, name, b);
    } else {
      assert c == b;
      AddsNothing(base, b);
    }
    AddsThenAdds(base, [Str(name)], twice, a, b, c);
    PadStands(base, c);
    AddsThenAdds(base, [Str(name)] + twice, [Aligned], a, c, Pad(base, c));
    var masks := 2 * z.compartments + 2 * z.markings;
    ClearedStands(base, masks, Pad(base, c));
    AddsThenAdds(base, [Str(name)] + twice + [Aligned], [Zeros(masks)], a, Pad(base, c), Pad(base, c) + Cleared(masks));
  }

  /** Behind a NAME, the short names. */
  function KeywordItems(next: KeywordScanner, sc: Scan): (r: (Scan, seq<Item>))
    ensures Left(r.0) <= Left(sc)
    decreases Left(sc)
  {
    var f := next(LABEL_KEYWORDS, sc);
    if f.keyword < 0 then (f.sc, [])
    else
      var (end, xs) := KeywordItems(next, f.sc);
      (end, (if f.keyword == SNAME then [Str(f.data)] else []) + xs)
  }

  function NamesItems(next: KeywordScanner, z: Sizes, outputOnly: bool, sc: Scan): (Scan, seq<Item>)
    decreases Left(sc)
  {
    var f := next(NAME, sc);
    if f.keyword < 0 then (f.sc, [])
    else
      var (at, xs) := KeywordItems(next, f.sc);
      var (end, ys) := NamesItems(next, z, outputOnly, at);
      (end, NameItems(z, outputOnly, f.data) + xs + ys)
  }

  /** A step of a pass over items: it ends where the items end, and adds just those. */
  predicate Stored(base: nat, r: (Scan, seq<Item>), area: seq<Cell>, v: (Scan, seq<Cell>)) {
    v.0 == r.0 && Adds(base, r.1, area, v.1)
  }

  lemma {:induction false} KeywordsStand(next: KeywordScanner, base: nat, sc: Scan, a: seq<Cell>)
    ensures Stored(base, KeywordItems(next, sc), a, StoreKeywords(next, sc, a))
    decreases Left(sc)
  {
    var f := next(LABEL_KEYWORDS, sc);
    if f.keyword < 0 {
      AddsNothing(base, a);
    } else if f.keyword == SNAME {
      var b := a + Copied(f.data);
      CopiedStands(base, f.data, a);
      KeywordsStand(next, base, f.sc, b);
      AddsThenAdds(base, [Str(f.data)], KeywordItems(next, f.sc).1, a, b, StoreKeywords(next, f.sc, b).1);
    } else {
      KeywordsStand(next, base, f.sc, a);
      assert [] + KeywordItems(next, f.sc).1 == KeywordItems(next, f.sc).1;
    }
  }

  /** The words of a section: every name stands there letter by letter, where it is to be stored twice also with blanks
      for its slashes, then its masks on an even address and its short names; and so on to the last word. Nothing that
      was there before changes. */
  lemma {:induction false} NamesStand(next: KeywordScanner, z: Sizes, base: nat, outputOnly: bool, sc: Scan,
                                      a: seq<Cell>)
    ensures Stored(base, NamesItems(next, z, outputOnly, sc), a, StoreNames(next, z, base, outputOnly, sc, a))
    decreases Left(sc)
  {
    var f := next(NAME, sc);
    if f.keyword < 0 {
      AddsNothing(base, a);
    } else {
      var b := StoreName(z, base, outputOnly, f.data, a);
      var r, v := KeywordItems(next, f.sc), StoreKeywords(next, f.sc, b);
      NameStands(z, base, outputOnly, f.data, a);
      KeywordsStand(next, base, f.sc, b);
      NamesStand(next, z, base, outputOnly, r.0, v.1);
      var xs := NameItems(z, outputOnly, f.data);
      AddsThenAdds(base, xs, r.1, a, b, v.1);
      AddsThenAdds(base, xs + r.1, NamesItems(next, z, outputOnly, r.0).1, a, v.1,
                   StoreNames(next, z, base, outputOnly, r.0, v.1).1);
    }
  }

  /** The names of the words of a section. */
  function NamesOf(next: KeywordScanner, sc: Scan): seq<string>
    decreases Left(sc)
  {
    var f := next(NAME, sc);
    if f.keyword < 0 then [] else [f.data] + NamesOf(next, CountKeywords(next, f.sc, 0).0)
  }

  lemma {:induction false} KeywordsEnd(next: KeywordScanner, sc: Scan, m: nat, n: nat)
    ensures CountKeywords(next, sc, m).0 == CountKeywords(next, sc, n).0
    decreases Left(sc)
  {
    var f := next(LABEL_KEYWORDS, sc);
    if f.keyword >= 0 {
      var more := if f.keyword == SNAME then |f.data| + 1 else 0;
      KeywordsEnd(next, f.sc, m + more, n + more);
    }
  }

  /** One word is counted for each name. */
  lemma {:induction false} WordsAreNames(next: KeywordScanner, z: Sizes, outputOnly: bool, t: Tally)
    ensures CountNames(next, z, outputOnly, t).words == t.words + |NamesOf(next, t.sc)|
    decreases Left(t.sc)
  {
    var f := next(NAME, t.sc);
    if f.keyword >= 0 {
      var strings := CountName(z, outputOnly, f.data, t.strings);
      var c := CountKeywords(next, f.sc, strings);
      KeywordsEnd(next, f.sc, 0, strings);
      WordsAreNames(next, z, outputOnly, Tally(c.0, t.tables + z.word, c.1, t.words + 1));
    }
  }

  // ---------------------------------------------------------------- classifications

  /** A name behind the masks of its classification, or a short name. */
  function ClassItem(z: Sizes, f: Found): seq<Item> {
    if f.keyword == CNAME then [Aligned] + [Zeros(z.compartments + z.markings)] + [Str(f.data)]
    else if f.keyword == CSNAME then [Str(f.data)]
    else []
  }

  lemma ClassStands(z: Sizes, base: nat, f: Found, a: seq<Cell>)
    ensures Adds(base, ClassItem(z, f), a, StoreClass(z, base, f, a))
  {
    if f.keyword == CNAME {
      var b, masks := Pad(base, a), z.compartments + z.markings;
      PadStands(base, a);
      ClearedStands(base, masks, b);
      AddsThenAdds(base, [Aligned], [Zeros(masks)], a, b, b + Cleared(masks));
      CopiedStands(base, f.data, b + Cleared(masks));
      AddsThenAdds(base, [Aligned] + [Zeros(masks)], [Str(f.data)], a, b + Cleared(masks),
                   b + Cleared(masks) + Copied(f.data));
    } else if f.keyword == CSNAME {
      CopiedStands(base, f.data, a);
    } else {
      AddsNothing(base, a);
    }
  }

  function ClassItems(next: KeywordScanner, z: Sizes, sc: Scan): (Scan, seq<Item>)
    decreases Left(sc)
  {
    var f := next(CLASS_KEYWORDS, sc);
    if f.keyword < 0 then (f.sc, [])
    else
      var (end, xs) := ClassItems(next, z, f.sc);
      (end, ClassItem(z, f) + xs)
  }

  /** The same for what may be refused. */
  predicate EndsStored(base: nat, r: (Scan, seq<Item>), area: seq<Cell>, v: Ended<seq<Cell>>) {
    v.EndedAt? ==> v.sc == r.0 && Adds(base, r.1, area, v.value)
  }

  lemma {:induction false} ClassesStand(next: KeywordScanner, z: Sizes, base: nat, sc: Scan, named: bool, a: seq<Cell>)
    ensures EndsStored(base, ClassItems(next, z, sc), a, StoreClasses(next, z, base, sc, named, a))
    decreases Left(sc)
  {
    var f := next(CLASS_KEYWORDS, sc);
    if f.keyword < 0 {
      AddsNothing(base, a);
    } else if named || f.keyword == CNAME {
      var b := StoreClass(z, base, f, a);
      var v := StoreClasses(next, z, base, f.sc, true, b);
      ClassStands(z, base, f, a);
      ClassesStand(next, z, base, f.sc, true, b);
      if v.EndedAt? {
        AddsThenAdds(base, ClassItem(z, f), ClassItems(next, z, f.sc).1, a, b, v.value);
      }
    }
  }

  /** The numbers behind the VALUE keywords. */
  function Values(next: KeywordScanner, valueOf: string -> Option<nat>, sc: Scan): seq<nat>
    decreases Left(sc)
  {
    var f := next(CLASS_KEYWORDS, sc);
    if f.keyword < 0 then []
    else
      (if f.keyword == CVALUE && valueOf(f.data).Some? then [valueOf(f.data).value] else [])
      + Values(next, valueOf, f.sc)
  }

  /** There is room for classifications up to the largest value. */
  lemma {:induction false} TopIsLargest(next: KeywordScanner, z: Sizes, valueOf: string -> Option<nat>, sc: Scan,
                                        c: Classes, d: Ended<Classes>)
    requires d == CountClasses(next, z, valueOf, sc, c) && d.EndedAt?
    ensures c.top <= d.value.top && (forall v :: v in Values(next, valueOf, sc) ==> v <= d.value.top)
    ensures d.value.top == c.top || d.value.top in Values(next, valueOf, sc)
    decreases Left(sc)
  {
    var f := next(CLASS_KEYWORDS, sc);
    if f.keyword >= 0 {
      TopIsLargest(next, z, valueOf, f.sc, CountClass(z, valueOf, f, c).value, d);
    }
  }

  // ---------------------------------------------------------------- accreditation range

  function LabelItems(next: KeywordScanner, z: Sizes, sc: Scan): (r: (Scan, seq<Item>))
    decreases Left(sc)
  {
    var f := next(MIN_CLEARANCE, sc);
    if f.keyword != -1 then (f.sc, [])
    else
      var (end, xs) := LabelItems(next, z, Scan("", f.sc.lines));
      (end, [Zeros(z.compartments)] + xs)
  }

  lemma {:induction false} LabelsStand(next: KeywordScanner, z: Sizes, base: nat, allValid: bool, sc: Scan,
                                        a: seq<Cell>)
    ensures EndsStored(base, LabelItems(next, z, sc), a, StoreLabels(next, z, allValid, sc, a))
    decreases Left(sc)
  {
    var f := next(MIN_CLEARANCE, sc);
    if f.keyword != -1 {
      AddsNothing(base, a);
    } else if !allValid {
      var b, at := a + Cleared(z.compartments), Scan("", f.sc.lines);
      var v := StoreLabels(next, z, allValid, at, b);
      ClearedStands(base, z.compartments, a);
      LabelsStand(next, z, base, allValid, at, b);
      if v.EndedAt? {
        AddsThenAdds(base, [Zeros(z.compartments)], LabelItems(next, z, at).1, a, b, v.value);
      }
    }
  }

  /** The classifications of the range, up to the MINIMUM CLEARANCE; what is refused does not matter. */
  function RangeItems(next: KeywordScanner, z: Sizes, sc: Scan): (Scan, seq<Item>)
    decreases Left(sc)
  {
    var f := next(AR_TYPES, sc);
    if f.keyword < 0 then (sc, [])
    else
      var labels := CountLabels(next, z, f.sc, 0);
      var xs := LabelItems(next, z, f.sc).1;
      if labels.EndedAt? && labels.keyword == 1 then
        var (end, ys) := RangeItems(next, z, labels.sc);
        (end, xs + ys)
      else (LabelItems(next, z, f.sc).0, xs)
  }

  lemma {:induction false} LabelsEnd(next: KeywordScanner, z: Sizes, allValid: bool, sc: Scan, n: nat, a: seq<Cell>)
    ensures var v, c := StoreLabels(next, z, allValid, sc, a), CountLabels(next, z, sc, n);
            v.EndedAt? ==> c.EndedAt? && c.keyword == v.keyword && c.sc == v.sc
    decreases Left(sc)
  {
    var f := next(MIN_CLEARANCE, sc);
    if f.keyword == -1 && !allValid {
      LabelsEnd(next, z, allValid, Scan("", f.sc.lines), n + z.compartments, a + Cleared(z.compartments));
    }
  }

  lemma {:induction false} RangeStands(next: KeywordScanner, z: Sizes, base: nat, sc: Scan, a: seq<Cell>)
    ensures EndsStored(base, RangeItems(next, z, sc), a, StoreRange(next, z, sc, a))
    decreases Left(sc)
  {
    var f := next(AR_TYPES, sc);
    if f.keyword >= 0 {
      var v := StoreLabels(next, z, f.keyword == ALL_VALID, f.sc, a);
      LabelsStand(next, z, base, f.keyword == ALL_VALID, f.sc, a);
      LabelsEnd(next, z, f.keyword == ALL_VALID, f.sc, 0, a);
      if v.EndedAt? && v.keyword == 1 {
        var w := StoreRange(next, z, v.sc, v.value);
        RangeStands(next, z, base, v.sc, v.value);
        if w.EndedAt? {
          AddsThenAdds(base, LabelItems(next, z, f.sc).1, RangeItems(next, z, v.sc).1, a, v.value, w.value);
        }
      }
    }
  }

  // ---------------------------------------------------------------- constraints

  /** Of every constraint the word indices in order, each a short, from an even address on. */
  function ConstraintItems(next: KeywordScanner, convert: Converter, keys: seq<Keyword>, sc: Scan): (Scan, seq<Item>)
    decreases |sc.lines|, |sc.rest|
  {
    var f := next(keys, sc);
    if f.keyword != -1 then (f.sc, [])
    else
      match convert(f.sc)
      case Failed(lost) => (sc, [])
      case Stored(list, second, onlyWith, at, goesOn) =>
        var (end, xs) := ConstraintItems(next, convert, keys, at);
        (end, [Aligned] + ShortItems(list) + xs)
  }

  predicate EndsStoredIn(base: nat, r: (Scan, seq<Item>), area: Area, v: Ended<Area>) {
    v.EndedAt? ==> v.sc == r.0 && Adds(base, r.1, area.strings, v.value.strings)
  }

  lemma ConstraintStands(z: Sizes, base: nat, advance: bool, a: Area, list: seq<int>)
    ensures Adds(base, [Aligned] + ShortItems(list), a.strings, NextArea(z, base, advance, a, list).strings)
  {
    var b := Pad(base, a.strings);
    PadStands(base, a.strings);
    ShortsStand(base, list, b);
    AddsThenAdds(base, [Aligned], ShortItems(list), a.strings, b, b + Shorts(list));
  }

  lemma {:induction false} ConstraintsStand(next: KeywordScanner, z: Sizes, base: nat, convert: Converter,
                                            advance: bool, keys: seq<Keyword>, sc: Scan, a: Area)
    ensures EndsStoredIn(base, ConstraintItems(next, convert, keys, sc), a,
                         StoreConstraints(next, z, base, convert, advance, keys, sc, a))
    decreases |sc.lines|, |sc.rest|
  {
    var f := next(keys, sc);
    if f.keyword != -1 {
      AddsNothing(base, a.strings);
    } else {
      var u := convert(f.sc);
      if u.Stored? {
        var b := NextArea(z, base, advance, a, u.list);
        var v := StoreConstraints(next, z, base, convert, advance, keys, u.sc, b);
        ConstraintStands(z, base, advance, a, u.list);
        ConstraintsStand(next, z, base, convert, advance, keys, u.sc, b);
        if v.EndedAt? {
          AddsThenAdds(base, [Aligned] + ShortItems(u.list), ConstraintItems(next, convert, keys, u.sc).1, a.strings,
                       b.strings, v.value.strings);
        }
      }
    }
  }

  /** Where the required combinations end, of which nothing is stored in the strings. */
  function PairsBehind(next: KeywordScanner, sc: Scan): Scan
    decreases Left(sc)
  {
    var f := next(COMBINATION_CONSTRAINTS, sc);
    if f.keyword != -1 then f.sc else PairsBehind(next, Scan("", f.sc.lines))
  }

  lemma {:induction false} PairsEndThere(next: KeywordScanner, z: Sizes, isPair: string -> bool, sc: Scan, tables: nat)
    ensures var v := StorePairs(next, z, isPair, sc, tables); v.EndedAt? ==> v.sc == PairsBehind(next, sc)
    decreases Left(sc)
  {
    var f := next(COMBINATION_CONSTRAINTS, sc);
    if f.keyword == -1 && isPair(f.sc.rest) {
      PairsEndThere(next, z, isPair, Scan("", f.sc.lines), tables + z.pair);
    }
  }

  function CombinationItems(u: Setup, words: seq<Word>, nextSection: seq<Keyword>, sc: Scan): (Scan, seq<Item>) {
    var f := (u.next)(REQUIRED_COMBINATIONS, sc);
    ConstraintItems(u.next, ConverterFor(words, ReaderFor(u.next, nextSection)), nextSection,
                    PairsBehind(u.next, f.sc))
  }

  lemma CombinationsStand(u: Setup, advance: bool, words: seq<Word>, nextSection: seq<Keyword>, q: Storing, q1: Storing)
    requires StoreCombinations(u, advance, words, nextSection, q) == Some(q1)
    ensures var r := CombinationItems(u, words, nextSection, q.sc);
            q1.sc == r.0 && Adds(u.base, r.1, q.strings, q1.strings)
  {
    var f := (u.next)(REQUIRED_COMBINATIONS, q.sc);
    var isPair := line => IsPair(words, line);
    var v := StorePairs(u.next, u.z, isPair, f.sc, q.tables);
    PairsEndThere(u.next, u.z, isPair, f.sc, q.tables);
    ConstraintsStand(u.next, u.z, u.base, ConverterFor(words, ReaderFor(u.next, nextSection)), advance, nextSection,
                     v.sc, Area(v.value, q.strings));
  }

  // ---------------------------------------------------------------- the whole file

  /** What a section leaves in the strings, told from the file. */
  function StageItems(u: Setup, stage: Stage, sc: Scan): (Scan, seq<Item>) {
    match stage
    case Version =>
      var f := (u.next)(VERSION, sc);
      (f.sc, [Str(f.data)])
    case Expect(keys) => ((u.next)(keys, sc).sc, [])
    case ClassNames => ClassItems(u.next, u.z, sc)
    case Names(outputOnly) => NamesItems(u.next, u.z, outputOnly, sc)
    case Combinations(section, nextSection) =>
      if section >= |u.tables| then (sc, []) else CombinationItems(u, u.tables[section], nextSection, sc)
    case Range =>
      var (end, xs) := RangeItems(u.next, u.z, (u.next)(CLASSIFICATION, sc).sc);
      (end, [Aligned] + xs)
    case EndOfFile => (sc, [])
  }

  predicate StageStored(u: Setup, r: (Scan, seq<Item>), q: Storing, q1: Storing) {
    q1.sc == r.0 && Adds(u.base, r.1, q.strings, q1.strings)
  }

  lemma RangeStageStands(u: Setup, q: Storing, q1: Storing)
    requires StoreStage(u, true, Range, q) == Some(q1)
    ensures StageStored(u, StageItems(u, Range, q.sc), q, q1)
  {
    var f, b := (u.next)(CLASSIFICATION, q.sc), Pad(u.base, q.strings);
    PadStands(u.base, q.strings);
    RangeStands(u.next, u.z, u.base, f.sc, b);
    AddsThenAdds(u.base, [Aligned], RangeItems(u.next, u.z, f.sc).1, q.strings, b, q1.strings);
  }

  lemma StageStands(u: Setup, advance: bool, stage: Stage, q: Storing, q1: Storing)
    requires StoreStage(u, advance, stage, q) == Some(q1)
    ensures StageStored(u, StageItems(u, stage, q.sc), q, q1)
  {
    AddsNothing(u.base, q.strings);
    match stage
    case Version => CopiedStands(u.base, (u.next)(VERSION, q.sc).data, q.strings);
    case Expect(keys) =>
    case ClassNames => ClassesStand(u.next, u.z, u.base, q.sc, false, q.strings);
    case Names(outputOnly) => NamesStand(u.next, u.z, u.base, outputOnly, q.sc, q.strings);
    case Combinations(section, nextSection) =>
      CombinationsStand(u, advance, u.tables[section], nextSection, q, q1);
    case Range => RangeStageStands(u, q, q1);
    case EndOfFile =>
  }

  function RunItems(u: Setup, stages: seq<Stage>, sc: Scan): seq<Item> {
    if stages == [] then []
    else
      var (at, xs) := StageItems(u, stages[0], sc);
      xs + RunItems(u, stages[1..], at)
  }

  lemma {:induction false} RunStands(u: Setup, advance: bool, stages: seq<Stage>, q: Storing, q1: Storing)
    requires RunStore(u, advance, stages, q) == Some(q1)
    ensures Adds(u.base, RunItems(u, stages, q.sc), q.strings, q1.strings)
    decreases |stages|
  {
    if stages == [] {
      AddsNothing(u.base, q.strings);
    } else {
      var q0 := StoreStage(u, advance, stages[0], q).value;
      var r := StageItems(u, stages[0], q.sc);
      StageStands(u, advance, stages[0], q, q0);
      RunStands(u, advance, stages[1..], q0, q1);
      AddsThenAdds(u.base, r.1, RunItems(u, stages[1..], r.0), q.strings, q0.strings, q1.strings);
    }
  }

  /** The strings behind the conversion of any file that gets through it, from the first byte to the last: the masks
      that are always there; the version; the classifications; of each section its words and its constraints; and the
      accreditation range. Each text stands letter by letter, each index as it was converted. */
  lemma StringsHoldFile(z: Sizes, valueOf: string -> Option<nat>, tables: seq<seq<Word>>, base: nat, advance: bool,
                        lines: seq<string>, sizes: Counting, stored: Storing)
    requires ConversionPass(Encodings(z, valueOf, tables, base), advance, ENCODINGS, lines, sizes) == Some(stored)
    ensures var u := Encodings(z, valueOf, tables, base);
            ItemsStand(base, [Zeros(FirstStrings(z))] + RunItems(u, ENCODINGS, Scan("", lines)), stored.strings, 0,
                       |stored.strings|)
  {
    var u := Encodings(z, valueOf, tables, base);
    var first := Cleared(FirstStrings(z));
    assert [] + first == first;
    ClearedStands(base, FirstStrings(z), []);
    RunStands(u, advance, ENCODINGS, Storing(Scan("", lines), Reserved(z, sizes), first), stored);
    AddsThenAdds(base, [Zeros(FirstStrings(z))], RunItems(u, ENCODINGS, Scan("", lines)), [], first, stored.strings);
  }
}
