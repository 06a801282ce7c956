/** labelcomp.c, l_parse_encodings: the sections of an encodings file, run through once to count and once
    to convert. */
module LabelEncodings {

  import opened Machine
  import opened LabelScan
  import opened LabelWords
  import opened LabelAgreement
  import opened LabelConstraints
  import opened LabelPasses

  // ---------------------------------------------------------------- CLASSIFICATIONS

  const CLASS_KEYWORDS: seq<Keyword> := ["VALUE=", "NAME=", "SNAME=", "INITIAL COMPARTMENTS=", "INITIAL MARKINGS="]
  const CVALUE := 0
  const CNAME := 1
  const CSNAME := 2

  /** size_strings, max_classification, and whether a name of some length was found. */
  datatype Classes = Classes(strings: nat, top: nat, named: bool)

  /** One keyword, counted; None where a VALUE is refused. valueOf reads a number within the limit. */
  function CountClass(z: Sizes, valueOf: string -> Option<nat>, f: Found, c: Classes): Option<Classes> {
    var name := |f.data| + 1;
    if f.keyword == CNAME then
      Some(c.(strings := Align(c.strings) + z.compartments + z.markings + name, named := c.named || f.data != ""))
    else if f.keyword == CSNAME then Some(c.(strings := c.strings + name, named := c.named || f.data != ""))
    else if f.keyword == CVALUE then
      match valueOf(f.data) {
        case None => None
        case Some(value) => Some(c.(top := if value > c.top then value else c.top))
      }
    else Some(c)
  }

  function CountClasses(next: KeywordScanner, z: Sizes, valueOf: string -> Option<nat>, sc: Scan,
                        c: Classes): Ended<Classes>
    decreases Left(sc)
  {
    var f := next(CLASS_KEYWORDS, sc);
    if f.keyword < 0 then EndedAt(f.keyword, f.sc, c)
    else match CountClass(z, valueOf, f, c)
         case None => Bad
         case Some(d) => CountClasses(next, z, valueOf, f.sc, d)
  }

  function StoreClass(z: Sizes, base: nat, f: Found, area: seq<Cell>): seq<Cell> {
    if f.keyword == CNAME then Pad(base, area) + Cleared(z.compartments + z.markings) + Copied(f.data)
    else if f.keyword == CSNAME then area + Copied(f.data)
    else area
  }

  /** Nothing may come before the first NAME. */
  function StoreClasses(next: KeywordScanner, z: Sizes, base: nat, sc: Scan, named: bool,
                        area: seq<Cell>): Ended<seq<Cell>>
    decreases Left(sc)
  {
    var f := next(CLASS_KEYWORDS, sc);
    if f.keyword < 0 then EndedAt(f.keyword, f.sc, area)
    else if !named && f.keyword != CNAME then Bad
    else StoreClasses(next, z, base, f.sc, true, StoreClass(z, base, f, area))
  }

  lemma ClassFits(z: Sizes, base: nat, valueOf: string -> Option<nat>, f: Found, c: Classes, area: seq<Cell>,
                  exact: bool, extra: nat)
    requires base % 2 == 0 && |area| <= c.strings + 2 * extra && (exact ==> |area| == c.strings + 2 * extra)
    requires CountClass(z, valueOf, f, c).Some?
    ensures var d, more := CountClass(z, valueOf, f, c).value, StoreClass(z, base, f, area);
            |more| <= d.strings + 2 * extra && (exact ==> |more| == d.strings + 2 * extra)
  {
    PadFits(base, area, c.strings, extra);
  }

  lemma {:induction false} ClassesFit(next: KeywordScanner, z: Sizes, base: nat, valueOf: string -> Option<nat>,
                                      sc: Scan, c: Classes, named: bool, area: seq<Cell>, exact: bool, extra: nat,
                                      d: Ended<Classes>, v: Ended<seq<Cell>>)
    requires base % 2 == 0 && Fits(sc, c.strings, area, exact, extra)
    requires d == CountClasses(next, z, valueOf, sc, c) && d.EndedAt?
    requires v == StoreClasses(next, z, base, sc, named, area) && v.EndedAt?
    ensures v.sc == d.sc && Fits(d.sc, d.value.strings, v.value, exact, extra)
    decreases Left(sc)
  {
    var f := next(CLASS_KEYWORDS, sc);
    if f.keyword >= 0 {
      ClassFits(z, base, valueOf, f, c, area, exact, extra);
      ClassesFit(next, z, base, valueOf, f.sc, CountClass(z, valueOf, f, c).value, true, StoreClass(z, base, f, area),
                 exact, extra, d, v);
    }
  }

  // ---------------------------------------------------------------- ACCREDITATION RANGE

  const CLASSIFICATION: seq<Keyword> := ["CLASSIFICATION="]
  const MIN_CLEARANCE: seq<Keyword> := ["MINIMUM CLEARANCE=", "CLASSIFICATION="]
  const VALID_EXCEPT: Keyword := "ALL COMPARTMENT COMBINATIONS VALID EXCEPT:"
  const VALID: Keyword := "ALL COMPARTMENT COMBINATIONS VALID"
  const ONLY_VALID: Keyword := "ONLY VALID COMPARTMENT COMBINATIONS:"
  const AR_TYPES: seq<Keyword> := [VALID_EXCEPT, VALID, ONLY_VALID]
  const ALL_VALID := 1

  /** The labels of one classification: each takes a set of compartments. */
  function CountLabels(next: KeywordScanner, z: Sizes, sc: Scan, strings: nat): (c: Ended<nat>)
    ensures c.EndedAt? ==> Left(c.sc) <= Left(sc) && -2 <= c.keyword < 2 && c.keyword != -1
    decreases Left(sc)
  {
    var f := next(MIN_CLEARANCE, sc);
    if f.keyword != -1 then EndedAt(f.keyword, f.sc, strings)
    else CountLabels(next, z, Scan("", f.sc.lines), strings + z.compartments)
  }

  function StoreLabels(next: KeywordScanner, z: Sizes, allValid: bool, sc: Scan, area: seq<Cell>): (v: Ended<seq<Cell>>)
    ensures v.EndedAt? ==> Left(v.sc) <= Left(sc) && -2 <= v.keyword < 2 && v.keyword != -1
    decreases Left(sc)
  {
    var f := next(MIN_CLEARANCE, sc);
    if f.keyword != -1 then EndedAt(f.keyword, f.sc, area)
    else if allValid then Bad
    else StoreLabels(next, z, allValid, Scan("", f.sc.lines), area + Cleared(z.compartments))
  }

  lemma {:induction false} LabelsFit(next: KeywordScanner, z: Sizes, allValid: bool, sc: Scan, strings: nat,
                                     area: seq<Cell>, exact: bool, extra: nat, c: Ended<nat>, v: Ended<seq<Cell>>)
    requires Fits(sc, strings, area, exact, extra)
    requires c == CountLabels(next, z, sc, strings) && c.EndedAt? && v == StoreLabels(next, z, allValid, sc, area)
    requires v.EndedAt?
    ensures v.sc == c.sc && v.keyword == c.keyword && Fits(c.sc, c.value, v.value, exact, extra)
    decreases Left(sc)
  {
    var f := next(MIN_CLEARANCE, sc);
    if f.keyword == -1 {
      LabelsFit(next, z, allValid, Scan("", f.sc.lines), strings + z.compartments, area + Cleared(z.compartments),
                exact, extra, c, v);
    }
  }

  /** The classifications of the range, up to the MINIMUM CLEARANCE. */
  function CountRange(next: KeywordScanner, z: Sizes, sc: Scan, strings: nat): Ended<nat>
    decreases Left(sc)
  {
    var f := next(AR_TYPES, sc);
    if f.keyword < 0 then Bad
    else match CountLabels(next, z, f.sc, strings)
         case Bad => Bad
         case EndedAt(keyword, end, more) =>
           if keyword == -2 then Bad
           else if keyword == 0 then EndedAt(0, end, more)
           else CountRange(next, z, end, more)
  }

  function StoreRange(next: KeywordScanner, z: Sizes, sc: Scan, area: seq<Cell>): Ended<seq<Cell>>
    decreases Left(sc)
  {
    var f := next(AR_TYPES, sc);
    if f.keyword < 0 then Bad
    else match StoreLabels(next, z, f.keyword == ALL_VALID, f.sc, area)
         case Bad => Bad
         case EndedAt(keyword, end, more) =>
           if keyword == -2 then Bad
           else if keyword == 0 then EndedAt(0, end, more)
           else StoreRange(next, z, end, more)
  }

  lemma {:induction false} RangeFits(next: KeywordScanner, z: Sizes, sc: Scan, strings: nat, area: seq<Cell>,
                                     exact: bool, extra: nat, c: Ended<nat>, v: Ended<seq<Cell>>)
    requires Fits(sc, strings, area, exact, extra)
    requires c == CountRange(next, z, sc, strings) && c.EndedAt? && v == StoreRange(next, z, sc, area) && v.EndedAt?
    ensures v.sc == c.sc && Fits(c.sc, c.value, v.value, exact, extra)
    decreases Left(sc)
  {
    var f := next(AR_TYPES, sc);
    var d, w := CountLabels(next, z, f.sc, strings), StoreLabels(next, z, f.keyword == ALL_VALID, f.sc, area);
    LabelsFit(next, z, f.keyword == ALL_VALID, f.sc, strings, area, exact, extra, d, w);
    if d.keyword == 1 {
      RangeFits(next, z, d.sc, d.value, w.value, exact, extra, c, v);
    }
  }

  // ---------------------------------------------------------------- the whole file

  /** What l_parse_encodings does next. The words of section k are looked up in table k. */
  datatype Stage =
    | Version
    | Expect(keys: seq<Keyword>)
    | ClassNames
    | Names(outputOnly: bool)
    | Combinations(section: nat, nextSection: seq<Keyword>)
    | Range
    | EndOfFile

  /** Everything that differs between installations and files but not between the passes. */
  datatype Setup = Setup(next: KeywordScanner, z: Sizes, valueOf: string -> Option<nat>, tables: seq<seq<Word>>,
                         base: nat)

  /** The state of the counting pass: the sizes, and the numbers of words and of classifications. */
  datatype Counting = Counting(sc: Scan, tables: nat, strings: nat, words: nat, classes: nat)

  /** The state of the conversion pass: how far tables has moved, and what strings has moved over. */
  datatype Storing = Storing(sc: Scan, tables: nat, strings: seq<Cell>)

  const VERSION: seq<Keyword> := ["VERSION="]

  function CountCombinations(u: Setup, nextSection: seq<Keyword>, p: Counting): Option<Counting> {
    match CombinationsRoom(u.next, u.z, CounterFor(ReaderFor(u.next, nextSection)), nextSection, p.sc,
                           Room(p.tables, p.strings))
    case None => None
    case Some((sc, room)) => Some(p.(sc := sc, tables := room.tables, strings := room.strings))
  }

  function StoreCombinations(u: Setup, advance: bool, words: seq<Word>, nextSection: seq<Keyword>,
                             q: Storing): Option<Storing> {
    match CombinationsArea(u.next, u.z, u.base, line => IsPair(words, line),
                           ConverterFor(words, ReaderFor(u.next, nextSection)), advance,
                           nextSection, q.sc, Area(q.tables, q.strings))
    case None => None
    case Some((sc, area)) => Some(Storing(sc, area.tables, area.strings))
  }

  function CountStage(u: Setup, stage: Stage, p: Counting): Option<Counting> {
    match stage
    case Version =>
      var f := (u.next)(VERSION, p.sc);
      if f.keyword < 0 then None else Some(p.(sc := f.sc, strings := p.strings + |f.data| + 1))
    case Expect(keys) =>
      var f := (u.next)(keys, p.sc);
      if f.keyword < 0 then None else Some(p.(sc := f.sc))
    case ClassNames =>
      (match CountClasses(u.next, u.z, u.valueOf, p.sc, Classes(p.strings, 0, false))
       case Bad => None
       case EndedAt(_, sc, c) =>
         if !c.named then None
         else Some(p.(sc := sc, tables := p.tables + (c.top + 1) * u.z.perClass, strings := c.strings,
                      classes := p.classes + c.top + 1)))
    case Names(outputOnly) =>
      var t := CountNames(u.next, u.z, outputOnly, Tally(p.sc, p.tables, p.strings, p.words));
      Some(p.(sc := t.sc, tables := t.tables, strings := t.strings, words := t.words))
    case Combinations(section, nextSection) => CountCombinations(u, nextSection, p)
    case Range =>
      var f := (u.next)(CLASSIFICATION, p.sc);
      if f.keyword < 0 then None
      else (match CountRange(u.next, u.z, f.sc, Align(p.strings))
            case Bad => None
            case EndedAt(_, sc, strings) => Some(p.(sc := sc, strings := strings)))
    case EndOfFile => if p.sc.lines != [] then None else Some(p)
  }

  function StoreStage(u: Setup, advance: bool, stage: Stage, q: Storing): Option<Storing> {
    match stage
    case Version =>
      var f := (u.next)(VERSION, q.sc);
      if f.keyword < 0 then None else Some(q.(sc := f.sc, strings := q.strings + Copied(f.data)))
    case Expect(keys) =>
      var f := (u.next)(keys, q.sc);
      if f.keyword < 0 then None else Some(q.(sc := f.sc))
    case ClassNames =>
      (match StoreClasses(u.next, u.z, u.base, q.sc, false, q.strings)
       case Bad => None
       case EndedAt(_, sc, area) => Some(q.(sc := sc, strings := area)))
    case Names(outputOnly) =>
      var (sc, area) := StoreNames(u.next, u.z, u.base, outputOnly, q.sc, q.strings);
      Some(q.(sc := sc, strings := area))
    case Combinations(section, nextSection) =>
      if section >= |u.tables| then None else StoreCombinations(u, advance, u.tables[section], nextSection, q)
    case Range =>
      var f := (u.next)(CLASSIFICATION, q.sc);
      if f.keyword < 0 then None
      else (match StoreRange(u.next, u.z, f.sc, Pad(u.base, q.strings))
            case Bad => None
            case EndedAt(_, sc, area) => Some(q.(sc := sc, strings := area)))
    case EndOfFile => if q.sc.lines != [] then None else Some(q)
  }

  // ---------------------------------------------------------------- the passes agree

  /** The tables that the conversion pass sets aside before it starts. */
  function Reserved(z: Sizes, p: Counting): nat {
    z.fixed + p.classes * z.perClass + p.words * z.word
  }

  predicate SameScan(p: Counting, q: Storing, exact: bool, extra: nat) {
    q.sc == p.sc && Fits(p.sc, p.strings, q.strings, exact, extra)
  }

  /** From p and q the passes have come to p1 and q1, over some lone backslashes: strings have moved by no more than was
      counted and a short for each of them, and tables by no more than was counted beyond what was set aside, or with
      tables advanced by just that and a constraint for each of them. */
  predicate Moved(z: Sizes, advance: bool, exact: bool, extra: nat, lones: nat, p: Counting, p1: Counting, q: Storing,
                  q1: Storing) {
    var counted := (p1.tables - Reserved(z, p1)) - (p.tables - Reserved(z, p));
    && SameScan(p1, q1, exact, extra + lones)
    && q.tables <= q1.tables
    && if advance then q1.tables == q.tables + counted + lones * z.constraint else q1.tables <= q.tables + counted
  }

  lemma NamesStage(u: Setup, advance: bool, exact: bool, extra: nat, outputOnly: bool, p: Counting, p1: Counting,
                   q: Storing, q1: Storing)
    requires u.base % 2 == 0 && SameScan(p, q, exact, extra)
    requires CountStage(u, Names(outputOnly), p) == Some(p1) && StoreStage(u, advance, Names(outputOnly), q) == Some(q1)
    ensures Moved(u.z, advance, exact, extra, 0, p, p1, q, q1)
  {
    var t := Tally(p.sc, p.tables, p.strings, p.words);
    NamesFit(u.next, u.z, u.base, outputOnly, t, q.strings, exact, extra, CountNames(u.next, u.z, outputOnly, t),
             StoreNames(u.next, u.z, u.base, outputOnly, q.sc, q.strings));
  }

  lemma Distributes(a: nat, b: nat, size: nat)
    ensures (a + b) * size == a * size + b * size
  {
  }

  lemma ClassesStage(u: Setup, advance: bool, exact: bool, extra: nat, p: Counting, p1: Counting, q: Storing,
                     q1: Storing)
    requires u.base % 2 == 0 && SameScan(p, q, exact, extra)
    requires CountStage(u, ClassNames, p) == Some(p1) && StoreStage(u, advance, ClassNames, q) == Some(q1)
    ensures Moved(u.z, advance, exact, extra, 0, p, p1, q, q1)
  {
    var c := Classes(p.strings, 0, false);
    var d := CountClasses(u.next, u.z, u.valueOf, p.sc, c);
    var v := StoreClasses(u.next, u.z, u.base, q.sc, false, q.strings);
    ClassesFit(u.next, u.z, u.base, u.valueOf, p.sc, c, false, q.strings, exact, extra, d, v);
    Distributes(p.classes, d.value.top + 1, u.z.perClass);
  }

  lemma CombinationsStage(u: Setup, advance: bool, exact: bool, extra: nat, words: seq<Word>,
                          nextSection: seq<Keyword>, p: Counting, p1: Counting, q: Storing, q1: Storing, lones: nat)
    requires u.base % 2 == 0 && SameScan(p, q, exact, extra)
    requires exact ==> PlainWords(words)
    requires lones == CombinationsLones(u.next, u.z, CounterFor(ReaderFor(u.next, nextSection)),
                                        LonesFor(ReaderFor(u.next, nextSection)), nextSection, p.sc, p.tables)
    requires CountCombinations(u, nextSection, p) == Some(p1)
    requires StoreCombinations(u, advance, words, nextSection, q) == Some(q1)
    ensures Moved(u.z, advance, exact, extra, lones, p, p1, q, q1)
  {
    var f := (u.next)(REQUIRED_COMBINATIONS, p.sc);
    var isPair := line => IsPair(words, line);
    var c, v := CountPairs(u.next, u.z, f.sc, p.tables), StorePairs(u.next, u.z, isPair, f.sc, q.tables);
    PairsEnd(u.next, u.z, f.sc, p.tables, c);
    PairsFit(u.next, u.z, isPair, f.sc, p.tables, q.tables, c, v);
    var room, area := Room(c.value, p.strings), Area(v.value, q.strings);
    var read := ReaderFor(u.next, nextSection);
    var count, convert, each := CounterFor(read), ConverterFor(words, read), LonesFor(read);
    PassesAgreeOnConstraints(u.next, nextSection, words, read, exact);
    ConstraintsFit(u.next, u.z, u.base, count, convert, each, advance, exact, extra, nextSection, c.sc, room, area,
                   CountConstraints(u.next, u.z, count, nextSection, c.sc, room),
                   StoreConstraints(u.next, u.z, u.base, convert, advance, nextSection, c.sc, area), lones);
  }

  lemma RangeStage(u: Setup, advance: bool, exact: bool, extra: nat, p: Counting, p1: Counting, q: Storing,
                   q1: Storing)
    requires u.base % 2 == 0 && SameScan(p, q, exact, extra)
    requires CountStage(u, Range, p) == Some(p1) && StoreStage(u, advance, Range, q) == Some(q1)
    ensures Moved(u.z, advance, exact, extra, 0, p, p1, q, q1)
  {
    var f := (u.next)(CLASSIFICATION, p.sc);
    PadFits(u.base, q.strings, p.strings, extra);
    RangeFits(u.next, u.z, f.sc, Align(p.strings), Pad(u.base, q.strings), exact, extra,
              CountRange(u.next, u.z, f.sc, Align(p.strings)), StoreRange(u.next, u.z, f.sc, Pad(u.base, q.strings)));
  }

  /** How many lone backslashes the constraints go on with that are counted in this stage. */
  function StageLones(u: Setup, stage: Stage, p: Counting): nat {
    match stage
    case Combinations(section, nextSection) =>
      var read := ReaderFor(u.next, nextSection);
      CombinationsLones(u.next, u.z, CounterFor(read), LonesFor(read), nextSection, p.sc, p.tables)
    case _ => 0
  }

  /** No word of any table holds a delimiter in its names. */
  predicate PlainTables(tables: seq<seq<Word>>) {
    forall k :: 0 <= k < |tables| ==> PlainWords(tables[k])
  }

  lemma StageFits(u: Setup, advance: bool, exact: bool, extra: nat, stage: Stage, p: Counting, p1: Counting,
                  q: Storing, q1: Storing)
    requires u.base % 2 == 0 && SameScan(p, q, exact, extra) && (exact ==> PlainTables(u.tables))
    requires CountStage(u, stage, p) == Some(p1) && StoreStage(u, advance, stage, q) == Some(q1)
    ensures Moved(u.z, advance, exact, extra, StageLones(u, stage, p), p, p1, q, q1)
  {
    match stage
    case Version =>
    case Expect(keys) =>
    case ClassNames => ClassesStage(u, advance, exact, extra, p, p1, q, q1);
    case Names(outputOnly) => NamesStage(u, advance, exact, extra, outputOnly, p, p1, q, q1);
    case Combinations(section, nextSection) =>
      CombinationsStage(u, advance, exact, extra, u.tables[section], nextSection, p, p1, q, q1,
                        StageLones(u, stage, p));
    case Range => RangeStage(u, advance, exact, extra, p, p1, q, q1);
    case EndOfFile =>
  }

  function RunCount(u: Setup, stages: seq<Stage>, p: Counting): Option<Counting> {
    if stages == [] then Some(p)
    else match CountStage(u, stages[0], p)
         case None => None
         case Some(p1) => RunCount(u, stages[1..], p1)
  }

  function RunStore(u: Setup, advance: bool, stages: seq<Stage>, q: Storing): Option<Storing> {
    if stages == [] then Some(q)
    else match StoreStage(u, advance, stages[0], q)
         case None => None
         case Some(q1) => RunStore(u, advance, stages[1..], q1)
  }

  /** How many lone backslashes the constraints go on with that are counted on the way. */
  function RunLones(u: Setup, stages: seq<Stage>, p: Counting): nat {
    if stages == [] then 0
    else
      StageLones(u, stages[0], p)
      + match CountStage(u, stages[0], p)
        case None => 0
        case Some(p1) => RunLones(u, stages[1..], p1)
  }

  lemma MovedOn(z: Sizes, advance: bool, exact: bool, extra: nat, m: nat, n: nat, lones: nat, p: Counting,
                p0: Counting, p1: Counting, q: Storing, q0: Storing, q1: Storing)
    requires Moved(z, advance, exact, extra, m, p, p0, q, q0) && Moved(z, advance, exact, extra + m, n, p0, p1, q0, q1)
    requires lones == m + n
    ensures Moved(z, advance, exact, extra, lones, p, p1, q, q1)
  {
    Distributes(m, n, z.constraint);
  }

  lemma NotMoved(u: Setup, advance: bool, exact: bool, extra: nat, p: Counting, q: Storing)
    requires SameScan(p, q, exact, extra)
    ensures Moved(u.z, advance, exact, extra, 0, p, p, q, q)
  {
  }

  lemma FirstStage(u: Setup, advance: bool, stages: seq<Stage>, p: Counting, p1: Counting, q: Storing, q1: Storing)
    returns (p0: Counting, q0: Storing)
    requires stages != [] && RunCount(u, stages, p) == Some(p1) && RunStore(u, advance, stages, q) == Some(q1)
    ensures CountStage(u, stages[0], p) == Some(p0) && StoreStage(u, advance, stages[0], q) == Some(q0)
    ensures RunCount(u, stages[1..], p0) == Some(p1) && RunStore(u, advance, stages[1..], q0) == Some(q1)
    ensures RunLones(u, stages, p) == StageLones(u, stages[0], p) + RunLones(u, stages[1..], p0)
  {
    p0, q0 := CountStage(u, stages[0], p).value, StoreStage(u, advance, stages[0], q).value;
  }

  lemma {:induction false} RunsFit(u: Setup, advance: bool, exact: bool, extra: nat, stages: seq<Stage>, p: Counting,
                                   p1: Counting, q: Storing, q1: Storing, lones: nat)
    requires u.base % 2 == 0 && SameScan(p, q, exact, extra) && (exact ==> PlainTables(u.tables))
    requires RunCount(u, stages, p) == Some(p1) && RunStore(u, advance, stages, q) == Some(q1)
    requires lones == RunLones(u, stages, p)
    ensures Moved(u.z, advance, exact, extra, lones, p, p1, q, q1)
    decreases |stages|
  {
    if stages == [] {
      NotMoved(u, advance, exact, extra, p, q);
    } else {
      var p0, q0 := FirstStage(u, advance, stages, p, p1, q, q1);
      var m, n := StageLones(u, stages[0], p), RunLones(u, stages[1..], p0);
      StageFits(u, advance, exact, extra, stages[0], p, p0, q, q0);
      RunsFit(u, advance, exact, extra + m, stages[1..], p0, p1, q0, q1, n);
      MovedOn(u.z, advance, exact, extra, m, n, lones, p, p0, p1, q, q0, q1);
    }
  }

  const SENSITIVITY_LABELS: seq<Keyword> := ["SENSITIVITY LABELS:"]
  const CLEARANCES: seq<Keyword> := ["CLEARANCES:"]
  const CHANNELS: seq<Keyword> := ["CHANNELS:"]

  /** l_parse_encodings, in order. A section's last loop reads the keyword of the next section. */
  const ENCODINGS: seq<Stage> := [
    Version, Expect(["CLASSIFICATIONS:"]), ClassNames,
    Expect(["INFORMATION LABELS:"]), Expect(WORDS), Names(false), Combinations(0, SENSITIVITY_LABELS),
    Expect(WORDS), Names(false), Combinations(1, CLEARANCES),
    Expect(WORDS), Names(false), Combinations(2, CHANNELS),
    Expect(WORDS), Names(true),
    Expect(["PRINTER BANNERS:"]), Expect(WORDS), Names(true),
    Expect(["ACCREDITATION RANGE:"]), Range,
    Expect(["MINIMUM SENSITIVITY LABEL="]), Expect(["MINIMUM PROTECT AS CLASSIFICATION="]), EndOfFile]

  /** Six sets of compartments and four of markings that are always there. */
  function FirstStrings(z: Sizes): nat {
    6 * z.compartments + 4 * z.markings
  }

  function CountingStart(u: Setup, lines: seq<string>): Counting {
    Counting(Scan("", lines), u.z.fixed, FirstStrings(u.z), 0, 0)
  }

  function CountingPass(u: Setup, stages: seq<Stage>, lines: seq<string>): Option<Counting> {
    RunCount(u, stages, CountingStart(u, lines))
  }

  /** The conversion pass starts when the sizes are known. */
  function ConversionPass(u: Setup, advance: bool, stages: seq<Stage>, lines: seq<string>,
                          sizes: Counting): Option<Storing> {
    RunStore(u, advance, stages, Storing(Scan("", lines), Reserved(u.z, sizes), Cleared(FirstStrings(u.z))))
  }

  function Encodings(z: Sizes, valueOf: string -> Option<nat>, tables: seq<seq<Word>>, base: nat): Setup {
    NextKeywordIsScanner();
    Setup(NextKeyword, z, valueOf, tables, base)
  }

  /** How many lone backslashes the constraints of a file go on with. */
  function FileLones(u: Setup, lines: seq<string>): nat {
    RunLones(u, ENCODINGS, CountingStart(u, lines))
  }

  /** The two passes over any file, with any word tables, where both get through it. They end at the same place. For
      each lone backslash that a constraint goes on with, the conversion moves strings at most a short further than the
      counting pass reserved, and just a short further if no name in the tables holds a delimiter; otherwise no further.
      So for such tables it overruns the strings if and only if there is a lone backslash, and fills them exactly if
      there is none. It never overruns the tables; with tables advanced past each constraint, it would by a constraint
      for each lone backslash. */
  lemma TwoPassesAgree(z: Sizes, valueOf: string -> Option<nat>, tables: seq<seq<Word>>, base: nat, advance: bool,
                       file: string, max: nat, notice: string, lines: seq<string>, sizes: Counting, stored: Storing)
    requires base % 2 == 0 && Normal(notice) && lines == Lines(file, "", true, max, notice)
    requires CountingPass(Encodings(z, valueOf, tables, base), ENCODINGS, lines) == Some(sizes)
    requires ConversionPass(Encodings(z, valueOf, tables, base), advance, ENCODINGS, lines, sizes) == Some(stored)
    ensures var lones := FileLones(Encodings(z, valueOf, tables, base), lines);
            && |stored.strings| <= sizes.strings + 2 * lones
            && (PlainTables(tables) ==> |stored.strings| == sizes.strings + 2 * lones)
            && if advance then stored.tables == sizes.tables + lones * z.constraint else stored.tables <= sizes.tables
    ensures stored.sc == sizes.sc
  {
    var u := Encodings(z, valueOf, tables, base);
    LinesAreNormal(file, "", true, max, notice);
    RunsFit(u, advance, PlainTables(tables), 0, ENCODINGS, CountingStart(u, lines), sizes,
            Storing(Scan("", lines), Reserved(z, sizes), Cleared(FirstStrings(z))), stored,
            FileLones(u, lines));
  }
}
