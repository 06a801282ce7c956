/** labelcomp.c, l_parse_encodings: which files the conversion pass gets through. */
module LabelAccepted {

  import opened Machine
  import opened LabelScan
  import opened LabelWords
  import opened LabelConstraints
  import opened LabelAgreement
  import opened LabelPasses
  import opened LabelEncodings
  import opened LabelContents

  // ---------------------------------------------------------------- the sections

  /** The keyword is there. */
  predicate Begins(u: Setup, keys: seq<Keyword>, sc: Scan) {
    (u.next)(keys, sc).keyword >= 0
  }

  /** The lines of the required combinations, up to the COMBINATION CONSTRAINTS or the end of the file. */
  function PairLines(next: KeywordScanner, sc: Scan): (r: (seq<string>, Found))
    decreases Left(sc)
  {
    var f := next(COMBINATION_CONSTRAINTS, sc);
    if f.keyword != -1 then ([], f)
    else
      var (lines, end) := PairLines(next, Scan("", f.sc.lines));
      ([f.sc.rest] + lines, end)
  }

  /** They are accepted exactly if each of them is one, and a record is stored for each and one behind the last. */
  lemma {:induction false} PairsAccepted(next: KeywordScanner, z: Sizes, isPair: string -> bool, sc: Scan, tables: nat)
    ensures var (lines, end) := PairLines(next, sc);
            StorePairs(next, z, isPair, sc, tables)
            == if forall line :: line in lines ==> isPair(line)
               then EndedAt(end.keyword, end.sc, tables + (|lines| + 1) * z.pair)
               else Bad
    decreases Left(sc)
  {
    var f := next(COMBINATION_CONSTRAINTS, sc);
    var lines := PairLines(next, sc).0;
    if f.keyword == -1 {
      var more := PairLines(next, Scan("", f.sc.lines)).0;
      assert lines[0] in lines && forall line :: line in lines <==> line == f.sc.rest || line in more;
      if isPair(f.sc.rest) {
        PairsAccepted(next, z, isPair, Scan("", f.sc.lines), tables + z.pair);
        OneMore(|more| + 1, z.pair);
      }
    } else {
      assert (0 + 1) * z.pair == z.pair;
    }
  }

  /** What the constraints up to the next section convert to, or up to the first that does not. */
  function Conversions(next: KeywordScanner, convert: Converter, keys: seq<Keyword>, sc: Scan): seq<Converted>
    decreases |sc.lines|, |sc.rest|
  {
    var f := next(keys, sc);
    if f.keyword != -1 then []
    else
      var v := convert(f.sc);
      [v] + if v.Stored? then Conversions(next, convert, keys, v.sc) else []
  }

  predicate AllStored(vs: seq<Converted>) {
    forall k :: 0 <= k < |vs| ==> vs[k].Stored?
  }

  /** They are accepted exactly if all of them convert. */
  lemma {:induction false} ConstraintsAccepted(next: KeywordScanner, z: Sizes, base: nat, convert: Converter,
                                               advance: bool, keys: seq<Keyword>, sc: Scan, area: Area)
    ensures StoreConstraints(next, z, base, convert, advance, keys, sc, area).EndedAt? <==>
            AllStored(Conversions(next, convert, keys, sc))
    decreases |sc.lines|, |sc.rest|
  {
    var f := next(keys, sc);
    if f.keyword == -1 {
      var v := convert(f.sc);
      var vs := Conversions(next, convert, keys, sc);
      assert vs[0] == v;
      if v.Stored? {
        ConstraintsAccepted(next, z, base, convert, advance, keys, v.sc, NextArea(z, base, advance, area, v.list));
        assert vs[1..] == Conversions(next, convert, keys, v.sc);
        assert forall k :: 0 < k < |vs| ==> vs[k] == vs[1..][k - 1];
      }
    }
  }

  /** A classification of the accreditation range: which of the three ways it has its labels in, or -1 for none of them;
      how many labels; and what ends it: 0 for the MINIMUM CLEARANCE, 1 for another classification, -2 for the end of
      the file. */
  datatype Part = Part(kind: int, labels: nat, end: int)

  function CountedLabels(next: KeywordScanner, sc: Scan): (r: (nat, Found))
    ensures Left(r.1.sc) <= Left(sc) && r.1.keyword != -1
    decreases Left(sc)
  {
    var f := next(MIN_CLEARANCE, sc);
    if f.keyword != -1 then (0, f)
    else
      var (n, end) := CountedLabels(next, Scan("", f.sc.lines));
      (n + 1, end)
  }

  function Parts(next: KeywordScanner, sc: Scan): seq<Part>
    decreases Left(sc)
  {
    var f := next(AR_TYPES, sc);
    if f.keyword < 0 then [Part(-1, 0, -2)]
    else
      var (n, end) := CountedLabels(next, f.sc);
      [Part(f.keyword, n, end.keyword)] + if end.keyword == 1 then Parts(next, end.sc) else []
  }

  /** It has its labels in one of the ways, none if all are valid, and the range goes on behind it. */
  predicate PartOk(p: Part) {
    p.kind >= 0 && p.end >= 0 && (p.kind == ALL_VALID ==> p.labels == 0)
  }

  lemma {:induction false} LabelsAccepted(next: KeywordScanner, z: Sizes, allValid: bool, sc: Scan, area: seq<Cell>)
    ensures var (n, end) := CountedLabels(next, sc);
            var v := StoreLabels(next, z, allValid, sc, area);
            if allValid && n > 0 then v.Bad? else v.EndedAt? && v.keyword == end.keyword && v.sc == end.sc
    decreases Left(sc)
  {
    var f := next(MIN_CLEARANCE, sc);
    if f.keyword == -1 && !allValid {
      LabelsAccepted(next, z, allValid, Scan("", f.sc.lines), area + Cleared(z.compartments));
    }
  }

  predicate AllPartsOk(parts: seq<Part>) {
    forall k :: 0 <= k < |parts| ==> PartOk(parts[k])
  }

  /** The range is accepted exactly if all its parts are. */
  lemma {:induction false} RangeAccepted(next: KeywordScanner, z: Sizes, sc: Scan, area: seq<Cell>)
    ensures StoreRange(next, z, sc, area).EndedAt? <==> AllPartsOk(Parts(next, sc))
    decreases Left(sc)
  {
    var f := next(AR_TYPES, sc);
    var parts := Parts(next, sc);
    if f.keyword < 0 {
      assert !PartOk(parts[0]);
    } else {
      var (n, end) := CountedLabels(next, f.sc);
      var v := StoreLabels(next, z, f.keyword == ALL_VALID, f.sc, area);
      LabelsAccepted(next, z, f.keyword == ALL_VALID, f.sc, area);
      assert parts[0] == Part(f.keyword, n, end.keyword);
      if v.EndedAt? && end.keyword == 1 {
        RangeAccepted(next, z, end.sc, v.value);
        assert parts[1..] == Parts(next, end.sc);
        assert forall k :: 0 < k < |parts| ==> parts[k] == parts[1..][k - 1];
      }
    }
  }

  // ---------------------------------------------------------------- the whole file

  /** What a section must have. */
  predicate StageAccepted(u: Setup, stage: Stage, sc: Scan) {
    match stage
    case Version => Begins(u, VERSION, sc)
    case Expect(keys) => Begins(u, keys, sc)
    case ClassNames =>
      var f := (u.next)(CLASS_KEYWORDS, sc);
      f.keyword < 0 || f.keyword == CNAME
    case Names(_) => true
    case Combinations(section, nextSection) =>
      && section < |u.tables| && Begins(u, REQUIRED_COMBINATIONS, sc)
      && var (lines, end) := PairLines(u.next, (u.next)(REQUIRED_COMBINATIONS, sc).sc);
         && (forall line :: line in lines ==> IsPair(u.tables[section], line)) && end.keyword == 0
         && AllStored(Conversions(u.next, ConverterFor(u.tables[section], ReaderFor(u.next, nextSection)), nextSection,
                                  end.sc))
    case Range => Begins(u, CLASSIFICATION, sc) && AllPartsOk(Parts(u.next, (u.next)(CLASSIFICATION, sc).sc))
    case EndOfFile => sc.lines == []
  }

  lemma {:induction false} LaterClassesAccepted(next: KeywordScanner, z: Sizes, base: nat, sc: Scan, area: seq<Cell>)
    ensures StoreClasses(next, z, base, sc, true, area).EndedAt?
    decreases Left(sc)
  {
    var f := next(CLASS_KEYWORDS, sc);
    if f.keyword >= 0 {
      LaterClassesAccepted(next, z, base, f.sc, StoreClass(z, base, f, area));
    }
  }

  lemma ClassesAccepted(next: KeywordScanner, z: Sizes, base: nat, sc: Scan, area: seq<Cell>)
    ensures var f := next(CLASS_KEYWORDS, sc);
            StoreClasses(next, z, base, sc, false, area).EndedAt? <==> f.keyword < 0 || f.keyword == CNAME
  {
    var f := next(CLASS_KEYWORDS, sc);
    if f.keyword == CNAME {
      LaterClassesAccepted(next, z, base, f.sc, StoreClass(z, base, f, area));
    }
  }

  lemma CombinationsAccepted(u: Setup, advance: bool, section: nat, nextSection: seq<Keyword>, q: Storing)
    requires section < |u.tables|
    ensures StoreCombinations(u, advance, u.tables[section], nextSection, q).Some? <==>
            StageAccepted(u, Combinations(section, nextSection), q.sc)
  {
    var words := u.tables[section];
    var isPair := line => IsPair(words, line);
    var f := (u.next)(REQUIRED_COMBINATIONS, q.sc);
    var (lines, end) := PairLines(u.next, f.sc);
    PairsAccepted(u.next, u.z, isPair, f.sc, q.tables);
    var v := StorePairs(u.next, u.z, isPair, f.sc, q.tables);
    assert (forall line :: line in lines ==> isPair(line)) <==> (forall line :: line in lines ==> IsPair(words, line));
    if v.EndedAt? {
      ConstraintsAccepted(u.next, u.z, u.base, ConverterFor(words, ReaderFor(u.next, nextSection)), advance,
                          nextSection, end.sc, Area(v.value, q.strings));
    }
  }

  lemma StageIsAccepted(u: Setup, advance: bool, stage: Stage, q: Storing)
    ensures StoreStage(u, advance, stage, q).Some? <==> StageAccepted(u, stage, q.sc)
  {
    match stage
    case Version =>
    case Expect(keys) =>
    case ClassNames => ClassesAccepted(u.next, u.z, u.base, q.sc, q.strings);
    case Names(outputOnly) =>
    case Combinations(section, nextSection) =>
      if section < |u.tables| {
        CombinationsAccepted(u, advance, section, nextSection, q);
      }
    case Range => RangeAccepted(u.next, u.z, (u.next)(CLASSIFICATION, q.sc).sc, Pad(u.base, q.strings));
    case EndOfFile =>
  }

  /** Every section has what it must have, each read from where the one before it ends. */
  predicate SectionsAccepted(u: Setup, stages: seq<Stage>, sc: Scan) {
    stages == []
    || (StageAccepted(u, stages[0], sc) && SectionsAccepted(u, stages[1..], StageItems(u, stages[0], sc).0))
  }

  lemma {:induction false} RunIsAccepted(u: Setup, advance: bool, stages: seq<Stage>, q: Storing)
    ensures RunStore(u, advance, stages, q).Some? <==> SectionsAccepted(u, stages, q.sc)
    decreases |stages|
  {
    if stages != [] {
      StageIsAccepted(u, advance, stages[0], q);
      if StoreStage(u, advance, stages[0], q).Some? {
        var q1 := StoreStage(u, advance, stages[0], q).value;
        StageStands(u, advance, stages[0], q, q1);
        RunIsAccepted(u, advance, stages[1..], q1);
      }
    }
  }

  /** As modelled, the conversion pass gets through a file exactly if every section keyword is where it is expected; no
      keyword of a classification stands before its first NAME; each line of the required combinations is two words, and
      the constraints follow; each constraint converts; each classification of the range has its labels in one of three
      ways, and none where all are valid; and nothing is left behind the last keyword. The sizes do not matter. */
  lemma FileIsAccepted(z: Sizes, valueOf: string -> Option<nat>, tables: seq<seq<Word>>, base: nat, advance: bool,
                       lines: seq<string>, sizes: Counting)
    ensures var u := Encodings(z, valueOf, tables, base);
            ConversionPass(u, advance, ENCODINGS, lines, sizes).Some? <==>
            SectionsAccepted(u, ENCODINGS, Scan("", lines))
  {
    var u := Encodings(z, valueOf, tables, base);
    RunIsAccepted(u, advance, ENCODINGS, Storing(Scan("", lines), Reserved(z, sizes), Cleared(FirstStrings(z))));
  }
}
