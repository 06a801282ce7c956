/** labelcomp.c: a line that is a backslash alone makes the two passes part. The counting pass skips it,
    the conversion pass takes it for the end of the constraint. */
module LabelOverrun {

  import opened Machine
  import opened LabelScan
  import opened LabelWords
  import opened LabelAgreement
  import opened LabelConstraints
  import opened LabelPasses

  const AB: seq<Word> := [Word("A", None, L_NONE, L_NONE), Word("B", None, L_NONE, L_NONE)]
  const LINE: string := "A &B"
  const GOES_ON: string := "A &B\\"

  lemma ABLookup()
    ensures Lookup(AB, LINE, 0) == (0, 2) && Lookup(AB, "B", 0) == (1, 1)
  {
    assert LINE[0..1] == "A" && "B"[0..1] == "B";
    assert Stands(LINE, 0, "A") && !Stands("B", 0, "A") && Stands("B", 0, "B");
    assert FindWord(AB, LINE, 0, L_NONE, L_NONE, 0) == Some((0, 1));
    assert FindWord(AB, "B", 0, L_NONE, L_NONE, 1) == Some((1, 1));
  }

  lemma OneAmpersand(s: string)
    requires |s| >= 4 && s[0] == 'A' && s[1] == ' ' && s[2] == '&' && s[3] == 'B'
    ensures Delims(s) == 1 + Delims(s[4..])
  {
    var t := s[2..];
    assert s[1..][1..] == t;
    assert Delims(s) == Delims(s[1..]) == Delims(t);
    assert DropBlank(t[1..]) == s[3..] && s[3..][1..] == s[4..];
  }

  lemma ABDelims()
    ensures Delims(LINE) == 1 && Delims(GOES_ON) == 1 && Delims("\\") == 0
  {
    OneAmpersand(LINE);
    OneAmpersand(GOES_ON);
    assert LINE[4..] == "" && GOES_ON[4..] == "\\";
    assert "\\"[1..] == "";
  }

  lemma EndOfLine(read: Reader, lines: seq<string>, on: bool)
    requires on ==> lines != [] && read(lines) == Line(Scan("\\", lines[1..]))
    ensures CheckContinuation(read, Scan("", lines), on) == Continued(Scan("", if on then lines[1..] else lines), on)
  {
    assert Cut("\\") == "" && GoesOn("\\");
  }

  lemma TurnIs(words: seq<Word>, read: Reader, rest: string, lines: seq<string>, on: bool, firstHalf: bool,
               i: nat, q: nat, c: Continued)
    requires DropBlank(rest) == rest && Lookup(words, rest, 0) == (i, q)
    requires c == CheckContinuation(read, Scan(rest[q..], lines), on) && c.Continued?
    ensures OneWord(words, read, Scan(rest, lines), on, firstHalf) == (i, BehindWord(read, c.sc, c.goesOn, firstHalf))
  {
  }

  /** B at the end of a line: the constraint ends, also where the next line is a backslash alone. */
  lemma BConverted(words: seq<Word>, read: Reader, lines: seq<string>, on: bool, end: Scan)
    requires Lookup(words, "B", 0) == (1, 1)
    requires CheckContinuation(read, Scan("", lines), on) == Continued(end, on) && end.rest == ""
    ensures OneWord(words, read, Scan("B", lines), on, false) == (1, Ended(false, end, on))
  {
    assert "B"[1..] == "";
    TurnIs(words, read, "B", lines, on, false, 1, 1, Continued(end, on));
  }

  lemma AConverted(words: seq<Word>, read: Reader, lines: seq<string>, on: bool)
    requires Lookup(words, LINE, 0) == (0, 2)
    ensures OneWord(words, read, Scan(LINE, lines), on, true) == (0, Going(true, true, Scan("B", lines), on))
  {
    assert LINE[2..] == "&B" && "&B"[1..] == "B";
    TurnIs(words, read, LINE, lines, on, true, 0, 2, Continued(Scan("&B", lines), on));
  }

  lemma TwoTurns(turn: Turner, a: Scan, b: Scan, on: bool, i: int, j: int, onlyWith: bool, end: Scan)
    requires turn(a, on, true) == (i, Going(true, onlyWith, b, on))
    requires turn(b, on, false) == (j, Ended(false, end, on))
    ensures Convert(turn, a, on, true) == Stored([i, j], 1, onlyWith, end, on)
  {
    assert Convert(turn, b, on, false) == Stored([j], 1, false, end, on);
    assert [i] + [j] == [i, j];
  }

  /** The line "A &B": two indices, and the scan ends at end. */
  lemma ABConverted(words: seq<Word>, read: Reader, lines: seq<string>, on: bool, end: Scan)
    requires Lookup(words, LINE, 0) == (0, 2) && Lookup(words, "B", 0) == (1, 1)
    requires CheckContinuation(read, Scan("", lines), on) == Continued(end, on) && end.rest == ""
    ensures Convert(TurnerFor(words, read), Scan(LINE, lines), on, true) == Stored([0, 1], 1, true, end, on)
  {
    AConverted(words, read, lines, on);
    BConverted(words, read, lines, on, end);
    TwoTurns(TurnerFor(words, read), Scan(LINE, lines), Scan("B", lines), on, 0, 1, true, end);
  }

  const SECTION: seq<Keyword> := ["X:"]

  /** A constraint goes on with a line that is only a backslash, and then with another line. */
  const OVERRUN: seq<string> := [GOES_ON, "\\", LINE]

  lemma SectionLines(line: string, lines: seq<string>, more: seq<string>)
    requires line != "" && line[0] != 'X' && line[0] != ' ' && line[0] != '*' && lines == [line] + more
    ensures NextKeyword(SECTION, Scan("", lines)) == Found(-1, "", Scan(line, more))
  {
    assert lines[1..] == more;
    assert ReadLine(lines) == Scan(line, more);
    assert KeywordAt(SECTION, line, 0) == 1;
  }

  /** next reads the three lines one by one, and then finds the end of the file. */
  ghost predicate ReadsOverrun(next: KeywordScanner) {
    && next(SECTION, Scan("", OVERRUN)) == Found(-1, "", Scan(GOES_ON, OVERRUN[1..]))
    && next(SECTION, Scan("", OVERRUN[1..])) == Found(-1, "", Scan("\\", OVERRUN[2..]))
    && next(SECTION, Scan("", OVERRUN[2..])) == Found(-1, "", Scan(LINE, []))
    && next(SECTION, Scan("", [])) == Found(-2, "", Scan("", []))
  }

  lemma OverrunCounted(next: KeywordScanner, read: Reader)
    requires ReadsOverrun(next) && read == ReaderFor(next, SECTION)
    ensures CountWords(read, Scan(GOES_ON, OVERRUN[1..])) == Counted(2, Scan("", []))
  {
    ABDelims();
    assert CountOn(read, false, []) == Counted(0, Scan("", []));
    assert CountOn(read, true, OVERRUN[2..]) == Counted(1, Scan("", []));
    assert CountOn(read, true, OVERRUN[1..]) == Counted(1, Scan("", []));
  }

  lemma FirstStored(next: KeywordScanner, read: Reader)
    requires ReadsOverrun(next) && read == ReaderFor(next, SECTION)
    ensures ConvertConstraint(AB, read, Scan(GOES_ON, OVERRUN[1..]))
         == Stored([0, 1], 1, true, Scan("", OVERRUN[2..]), true)
  {
    ABLookup();
    CutGoesOn();
    assert OVERRUN[1..][1..] == OVERRUN[2..];
    EndOfLine(read, OVERRUN[1..], true);
    ABConverted(AB, read, OVERRUN[1..], true, Scan("", OVERRUN[2..]));
  }

  lemma CutGoesOn()
    ensures Cut(GOES_ON) == LINE && GoesOn(GOES_ON) && Cut(LINE) == LINE && !GoesOn(LINE)
  {
  }

  lemma SecondStored(read: Reader)
    ensures ConvertConstraint(AB, read, Scan(LINE, [])) == Stored([0, 1], 1, true, Scan("", []), false)
  {
    ABLookup();
    CutGoesOn();
    EndOfLine(read, [], false);
    ABConverted(AB, read, [], false, Scan("", []));
  }

  lemma OverrunCount(next: KeywordScanner, z: Sizes, count: Counter, c: Ended<Room>)
    requires ReadsOverrun(next) && c == CountConstraints(next, z, count, SECTION, Scan("", OVERRUN), Room(0, 0))
    requires count(Scan(GOES_ON, OVERRUN[1..])) == Counted(2, Scan("", []))
    ensures c == EndedAt(-2, Scan("", []), Room(2 * z.constraint, 6))
  {
    CountStep(next, z, count, SECTION, Scan("", OVERRUN), Room(0, 0), Scan(GOES_ON, OVERRUN[1..]),
              Counted(2, Scan("", [])));
  }

  lemma TwoStores(next: KeywordScanner, z: Sizes, base: nat, convert: Converter, advance: bool, keys: seq<Keyword>,
                  a: Scan, line: Scan, v: Converted, more: Scan, w: Converted, first: Area, second: Area)
    requires next(keys, a) == Found(-1, "", line) && convert(line) == v && v.Stored?
    requires next(keys, v.sc) == Found(-1, "", more) && convert(more) == w && w.Stored?
    requires next(keys, w.sc) == Found(-2, "", w.sc)
    requires first == NextArea(z, base, advance, Area(0, []), v.list)
    requires second == NextArea(z, base, advance, first, w.list)
    ensures StoreConstraints(next, z, base, convert, advance, keys, a, Area(0, []))
         == EndedAt(-2, w.sc, second.(tables := second.tables + z.constraint))
  {
    StoreStep(next, z, base, convert, advance, keys, a, Area(0, []), line, v);
    StoreStep(next, z, base, convert, advance, keys, v.sc, first, more, w);
  }

  lemma TwoPairsOfShorts(z: Sizes, base: nat, advance: bool, first: Area, second: Area)
    requires base % 2 == 0
    requires first == NextArea(z, base, advance, Area(0, []), [0, 1])
    requires second == NextArea(z, base, advance, first, [0, 1])
    ensures |second.strings| == 8 && second.tables == if advance then 2 * z.constraint else 0
  {
  }

  lemma OverrunStore(next: KeywordScanner, z: Sizes, base: nat, convert: Converter, advance: bool, v: Ended<Area>)
    requires ReadsOverrun(next) && base % 2 == 0
    requires convert(Scan(GOES_ON, OVERRUN[1..])) == Stored([0, 1], 1, true, Scan("", OVERRUN[2..]), true)
    requires convert(Scan(LINE, [])) == Stored([0, 1], 1, true, Scan("", []), false)
    requires v == StoreConstraints(next, z, base, convert, advance, SECTION, Scan("", OVERRUN), Area(0, []))
    ensures v.EndedAt? && |v.value.strings| == 8
    ensures v.value.tables == if advance then 3 * z.constraint else z.constraint
  {
    var first := NextArea(z, base, advance, Area(0, []), [0, 1]);
    var second := NextArea(z, base, advance, first, [0, 1]);
    TwoPairsOfShorts(z, base, advance, first, second);
    TwoStores(next, z, base, convert, advance, SECTION, Scan("", OVERRUN), Scan(GOES_ON, OVERRUN[1..]),
              Stored([0, 1], 1, true, Scan("", OVERRUN[2..]), true), Scan(LINE, []),
              Stored([0, 1], 1, true, Scan("", []), false), first, second);
  }

  /** With a lone backslash the passes part: the counting pass takes the three lines for one constraint
      of three words, the conversion pass for two constraints of two words, which overruns the strings by
      a short. With tables advanced, it would overrun those as well. */
  lemma LoneBackslashOverruns(z: Sizes, base: nat, advance: bool, next: KeywordScanner, count: Counter,
                              convert: Converter)
    requires base % 2 == 0 && next == NextKeyword
    requires count == CounterFor(ReaderFor(next, SECTION)) && convert == ConverterFor(AB, ReaderFor(next, SECTION))
    ensures var c := CountConstraints(next, z, count, SECTION, Scan("", OVERRUN), Room(0, 0));
            var v := StoreConstraints(next, z, base, convert, advance, SECTION, Scan("", OVERRUN), Area(0, []));
            && c.EndedAt? && v.EndedAt? && c.value.strings == 6 && |v.value.strings| == 8
            && (advance ==> v.value.tables == c.value.tables + z.constraint)
  {
    NextKeywordReadsOverrun(next);
    OverrunCounted(next, ReaderFor(next, SECTION));
    FirstStored(next, ReaderFor(next, SECTION));
    SecondStored(ReaderFor(next, SECTION));
    OverrunCount(next, z, count, CountConstraints(next, z, count, SECTION, Scan("", OVERRUN), Room(0, 0)));
    OverrunStore(next, z, base, convert, advance,
                 StoreConstraints(next, z, base, convert, advance, SECTION, Scan("", OVERRUN), Area(0, [])));
  }

  /** next_keyword does read the lines like that. */
  lemma NextKeywordReadsOverrun(next: KeywordScanner)
    requires next == NextKeyword
    ensures ReadsOverrun(next)
  {
    assert OVERRUN == [GOES_ON] + OVERRUN[1..] && OVERRUN[1..] == ["\\"] + OVERRUN[2..] && OVERRUN[2..] == [LINE] + [];
    SectionLines(GOES_ON, OVERRUN, OVERRUN[1..]);
    SectionLines("\\", OVERRUN[1..], OVERRUN[2..]);
    SectionLines(LINE, OVERRUN[2..], []);
  }
}
