/** labelcomp.c, l_parse_encodings: the two passes over an encodings file. The counting pass adds up the
    bytes of tables and strings; the conversion pass fills a block of that size. */
module LabelPasses {

  import opened Machine
  import opened LabelScan
  import opened LabelWords
  import opened LabelAgreement
  import opened LabelConstraints

  /** sizeof(struct l_word), (struct l_word_pair), (struct l_constraints); COMPARTMENTS_SIZE and
      MARKINGS_SIZE; the tables per classification, and the tables that are always there. */
  datatype Sizes = Sizes(word: nat, pair: nat, constraint: nat, compartments: nat, markings: nat, perClass: nat,
                         fixed: nat)

  /** One byte of the strings area. */
  datatype Cell = Text(c: char) | Clear | Half(index: int)

  function Cells(s: string): (r: seq<Cell>)
    ensures |r| == |s|
  {
    seq(|s|, i requires 0 <= i < |s| => Text(s[i]))
  }

  function Cleared(n: nat): (r: seq<Cell>)
    ensures |r| == n
  {
    seq(n, i => Clear)
  }

  /** while (*strings++ = *dp++) */
  function Copied(s: string): (r: seq<Cell>)
    ensures |r| == |s| + 1
  {
    Cells(s) + [Clear]
  }

  function Shorts(list: seq<int>): (r: seq<Cell>)
    ensures |r| == 2 * |list|
  {
    if list == [] then [] else [Half(list[0]), Half(list[0])] + Shorts(list[1..])
  }

  /** L_ALIGN of a count. */
  function Align(p: nat): nat {
    p + p % 2
  }

  /** L_ALIGN of a pointer: strings is base plus what is stored. */
  function Pad(base: nat, area: seq<Cell>): seq<Cell> {
    area + Cleared((base + |area|) % 2)
  }

  /** What is stored fits what is counted and some shorts more. */
  lemma PadFits(base: nat, area: seq<Cell>, size: nat, extra: nat)
    requires base % 2 == 0 && |area| <= size + 2 * extra
    ensures |Pad(base, area)| <= Align(size) + 2 * extra
    ensures |area| == size + 2 * extra ==> |Pad(base, area)| == Align(size) + 2 * extra
  {
  }

  // ---------------------------------------------------------------- do_words

  const WORDS: seq<Keyword> := ["WORDS:"]
  const NAME: seq<Keyword> := ["NAME="]
  const LABEL_KEYWORDS: seq<Keyword> :=
    ["SNAME=", "MINCLASS=", "OMINCLASS=", "MAXCLASS=", "COMPARTMENTS=", "MARKINGS=", "PREFIX=", "SUFFIX=", "PREFIX",
     "SUFFIX", "ACCESS RELATED", "FLAGS="]
  const SNAME := 0

  predicate StoredTwice(outputOnly: bool, name: string) {
    !outputOnly && '/' in name
  }

  /** size_strings behind a word's name and masks. */
  function CountName(z: Sizes, outputOnly: bool, name: string, strings: nat): nat {
    var j := |name| + 1;
    Align(strings + j + if StoredTwice(outputOnly, name) then j else 0) + 2 * z.compartments + 2 * z.markings
  }

  function Unslashed(name: string): (r: string)
    ensures |r| == |name|
  {
    seq(|name|, i requires 0 <= i < |name| => if name[i] == '/' then ' ' else name[i])
  }

  /** The output name; the long name where it differs, with blanks for slashes; and four masks. */
  function StoreName(z: Sizes, base: nat, outputOnly: bool, name: string, area: seq<Cell>): seq<Cell> {
    var named := area + Copied(name) + if StoredTwice(outputOnly, name) then Copied(Unslashed(name)) else [];
    Pad(base, named) + Cleared(2 * z.compartments + 2 * z.markings)
  }

  function CountKeywords(next: KeywordScanner, sc: Scan, strings: nat): (r: (Scan, nat))
    ensures Left(r.0) <= Left(sc)
    decreases Left(sc)
  {
    var f := next(LABEL_KEYWORDS, sc);
    if f.keyword < 0 then (f.sc, strings)
    else CountKeywords(next, f.sc, if f.keyword == SNAME then strings + |f.data| + 1 else strings)
  }

  function StoreKeywords(next: KeywordScanner, sc: Scan, area: seq<Cell>): (r: (Scan, seq<Cell>))
    ensures Left(r.0) <= Left(sc)
    decreases Left(sc)
  {
    var f := next(LABEL_KEYWORDS, sc);
    if f.keyword < 0 then (f.sc, area)
    else StoreKeywords(next, f.sc, if f.keyword == SNAME then area + Copied(f.data) else area)
  }

  datatype Tally = Tally(sc: Scan, tables: nat, strings: nat, words: nat)

  function CountNames(next: KeywordScanner, z: Sizes, outputOnly: bool, t: Tally): Tally
    decreases Left(t.sc)
  {
    var f := next(NAME, t.sc);
    if f.keyword < 0 then t.(sc := f.sc)
    else
      var (sc, strings) := CountKeywords(next, f.sc, CountName(z, outputOnly, f.data, t.strings));
      CountNames(next, z, outputOnly, Tally(sc, t.tables + z.word, strings, t.words + 1))
  }

  /** The l_word records themselves are allocated before the pass starts. */
  function StoreNames(next: KeywordScanner, z: Sizes, base: nat, outputOnly: bool, sc: Scan, area: seq<Cell>)
    : (Scan, seq<Cell>)
    decreases Left(sc)
  {
    var f := next(NAME, sc);
    if f.keyword < 0 then (f.sc, area)
    else
      var (after, more) := StoreKeywords(next, f.sc, StoreName(z, base, outputOnly, f.data, area));
      StoreNames(next, z, base, outputOnly, after, more)
  }

  /** Both passes see the same scan position, and what is stored fits what is counted and some shorts more. */
  predicate Fits(sc: Scan, strings: nat, area: seq<Cell>, exact: bool, extra: nat) {
    && ScanOk(sc)
    && |area| <= strings + 2 * extra && (exact ==> |area| == strings + 2 * extra)
  }

  lemma {:induction false} KeywordsFit(next: KeywordScanner, sc: Scan, strings: nat, area: seq<Cell>, exact: bool,
                                       extra: nat)
    requires Fits(sc, strings, area, exact, extra)
    ensures var (after, more) := CountKeywords(next, sc, strings);
            StoreKeywords(next, sc, area).0 == after && Fits(after, more, StoreKeywords(next, sc, area).1, exact, extra)
    decreases Left(sc)
  {
    var f := next(LABEL_KEYWORDS, sc);
    if f.keyword == SNAME {
      KeywordsFit(next, f.sc, strings + |f.data| + 1, area + Copied(f.data), exact, extra);
    } else if f.keyword >= 0 {
      KeywordsFit(next, f.sc, strings, area, exact, extra);
    }
  }

  lemma NameFits(z: Sizes, base: nat, outputOnly: bool, name: string, strings: nat, area: seq<Cell>, extra: nat)
    requires base % 2 == 0 && |area| <= strings + 2 * extra
    ensures |StoreName(z, base, outputOnly, name, area)| <= CountName(z, outputOnly, name, strings) + 2 * extra
    ensures |area| == strings + 2 * extra ==>
        |StoreName(z, base, outputOnly, name, area)| == CountName(z, outputOnly, name, strings) + 2 * extra
  {
    var j := if StoredTwice(outputOnly, name) then 2 * (|name| + 1) else |name| + 1;
    var named := area + Copied(name) + if StoredTwice(outputOnly, name) then Copied(Unslashed(name)) else [];
    assert |named| == |area| + j;
    PadFits(base, named, strings + j, extra);
  }

  predicate NamesFitted(t: Tally, u: Tally, word: nat, v: (Scan, seq<Cell>), exact: bool, extra: nat) {
    && v.0 == u.sc && Fits(u.sc, u.strings, v.1, exact, extra)
    && u.words >= t.words && u.tables - u.words * word == t.tables - t.words * word
  }

  lemma OneMore(n: nat, size: nat)
    ensures (n + 1) * size == n * size + size
  {
  }

  /** One NAME with the keywords behind it, up to the next NAME. */
  lemma NameAndKeywordsFit(next: KeywordScanner, z: Sizes, base: nat, outputOnly: bool, f: Found, strings: nat,
                           area: seq<Cell>, exact: bool, extra: nat, u: (Scan, nat), v: (Scan, seq<Cell>))
    requires base % 2 == 0 && Fits(f.sc, strings, area, exact, extra)
    requires u == CountKeywords(next, f.sc, CountName(z, outputOnly, f.data, strings))
    requires v == StoreKeywords(next, f.sc, StoreName(z, base, outputOnly, f.data, area))
    ensures v.0 == u.0 && Fits(u.0, u.1, v.1, exact, extra)
  {
    NameFits(z, base, outputOnly, f.data, strings, area, extra);
    KeywordsFit(next, f.sc, CountName(z, outputOnly, f.data, strings), StoreName(z, base, outputOnly, f.data, area),
                exact, extra);
  }

  lemma {:induction false} NamesFit(next: KeywordScanner, z: Sizes, base: nat, outputOnly: bool, t: Tally,
                                    area: seq<Cell>, exact: bool, extra: nat, u: Tally, v: (Scan, seq<Cell>))
    requires base % 2 == 0 && Fits(t.sc, t.strings, area, exact, extra)
    requires u == CountNames(next, z, outputOnly, t) && v == StoreNames(next, z, base, outputOnly, t.sc, area)
    ensures NamesFitted(t, u, z.word, v, exact, extra)
    decreases Left(t.sc)
  {
    var f := next(NAME, t.sc);
    if f.keyword >= 0 {
      var c := CountKeywords(next, f.sc, CountName(z, outputOnly, f.data, t.strings));
      var d := StoreKeywords(next, f.sc, StoreName(z, base, outputOnly, f.data, area));
      NameAndKeywordsFit(next, z, base, outputOnly, f, t.strings, area, exact, extra, c, d);
      NamesFit(next, z, base, outputOnly, Tally(c.0, t.tables + z.word, c.1, t.words + 1), d.1, exact, extra, u, v);
      OneMore(t.words, z.word);
    }
  }

  // ---------------------------------------------------------------- do_combinations

  const COMBINATION_CONSTRAINTS: seq<Keyword> := ["COMBINATION CONSTRAINTS:"]
  const REQUIRED_COMBINATIONS: seq<Keyword> := ["REQUIRED COMBINATIONS:"]

  /** What became of a loop over lines: the keyword that ended it, or a line that was refused. */
  datatype Ended<+T> = EndedAt(keyword: int, sc: Scan, value: T) | Bad

  function CountPairs(next: KeywordScanner, z: Sizes, sc: Scan, tables: nat): Ended<nat>
    decreases Left(sc)
  {
    var f := next(COMBINATION_CONSTRAINTS, sc);
    if f.keyword != -1 then EndedAt(f.keyword, f.sc, tables + z.pair)
    else CountPairs(next, z, Scan("", f.sc.lines), tables + z.pair)
  }

  /** Each line must hold exactly two words. */
  predicate IsPair(words: seq<Word>, line: string) {
    var (i, p) := Lookup(words, line, 0);
    var (j, q) := Lookup(words, line, p);
    i != -1 && j != -1 && q == |line|
  }

  function StorePairs(next: KeywordScanner, z: Sizes, isPair: string -> bool, sc: Scan, tables: nat): Ended<nat>
    decreases Left(sc)
  {
    var f := next(COMBINATION_CONSTRAINTS, sc);
    if f.keyword != -1 then EndedAt(f.keyword, f.sc, tables + z.pair)
    else if !isPair(f.sc.rest) then Bad
    else StorePairs(next, z, isPair, Scan("", f.sc.lines), tables + z.pair)
  }

  lemma {:induction false} PairsEnd(next: KeywordScanner, z: Sizes, sc: Scan, tables: nat, c: Ended<nat>)
    requires ScanOk(sc) && c == CountPairs(next, z, sc, tables)
    ensures c.EndedAt? && ScanOk(c.sc)
    decreases Left(sc)
  {
    var f := next(COMBINATION_CONSTRAINTS, sc);
    if f.keyword == -1 {
      PairsEnd(next, z, Scan("", f.sc.lines), tables + z.pair, c);
    }
  }

  lemma {:induction false} PairsFit(next: KeywordScanner, z: Sizes, isPair: string -> bool, sc: Scan, tables: nat,
                                    stored: nat, c: Ended<nat>, v: Ended<nat>)
    requires c == CountPairs(next, z, sc, tables) && c.EndedAt?
    requires v == StorePairs(next, z, isPair, sc, stored) && v.EndedAt?
    ensures v.sc == c.sc && v.keyword == c.keyword && v.value - stored == c.value - tables >= 0
    decreases Left(sc)
  {
    var f := next(COMBINATION_CONSTRAINTS, sc);
    if f.keyword == -1 {
      PairsFit(next, z, isPair, Scan("", f.sc.lines), tables + z.pair, stored + z.pair, c, v);
    }
  }

  datatype Room = Room(tables: nat, strings: nat)
  datatype Area = Area(tables: nat, strings: seq<Cell>)

  function NextRoom(z: Sizes, room: Room, words: nat): Room {
    Room(room.tables + z.constraint, Align(room.strings) + 2 * words)
  }

  function CountConstraints(next: KeywordScanner, z: Sizes, count: Counter, nextSection: seq<Keyword>, sc: Scan,
                            room: Room): Ended<Room>
    decreases |sc.lines|, |sc.rest|
  {
    var f := next(nextSection, sc);
    if f.keyword != -1 then EndedAt(f.keyword, f.sc, room.(tables := room.tables + z.constraint))
    else
      match count(f.sc)
      case Refused => Bad
      case Counted(more, end) =>
        CountConstraints(next, z, count, nextSection, end, NextRoom(z, room, 1 + more))
  }

  function NextArea(z: Sizes, base: nat, advance: bool, area: Area, list: seq<int>): Area {
    Area(if advance then area.tables + z.constraint else area.tables, Pad(base, area.strings) + Shorts(list))
  }

  /** advance is false for the source as it stands: tables is not moved past a constraint. */
  function StoreConstraints(next: KeywordScanner, z: Sizes, base: nat, convert: Converter, advance: bool,
                            nextSection: seq<Keyword>, sc: Scan, area: Area): Ended<Area>
    decreases |sc.lines|, |sc.rest|
  {
    var f := next(nextSection, sc);
    if f.keyword != -1 then EndedAt(f.keyword, f.sc, area.(tables := area.tables + z.constraint))
    else
      match convert(f.sc)
      case Failed(lost) => Bad
      case Stored(list, second, onlyWith, end, goesOn) =>
        StoreConstraints(next, z, base, convert, advance, nextSection, end, NextArea(z, base, advance, area, list))
  }

  /** How many lone backslashes the constraints go on with that the counting pass comes to. */
  function SectionLones(next: KeywordScanner, count: Counter, lones: Scan -> nat, nextSection: seq<Keyword>,
                        sc: Scan): nat
    decreases |sc.lines|, |sc.rest|
  {
    var f := next(nextSection, sc);
    if f.keyword != -1 then 0
    else
      var c := count(f.sc);
      lones(f.sc) + if c.Counted? then SectionLones(next, count, lones, nextSection, c.end) else 0
  }

  lemma RoomFits(z: Sizes, base: nat, advance: bool, exact: bool, extra: nat, room: Room, area: Area, words: nat,
                 list: seq<int>, end: Scan)
    requires base % 2 == 0 && |area.strings| <= room.strings + 2 * extra && |list| <= words && ScanOk(end)
    requires exact ==> |area.strings| == room.strings + 2 * extra && |list| == words
    ensures Fits(end, NextRoom(z, room, words).strings, NextArea(z, base, advance, area, list).strings, exact, extra)
  {
    PadFits(base, area.strings, room.strings, extra);
  }

  /** What became of a section with as many lone backslashes, each of which cost a short more than was counted, and with
      tables advanced a constraint more. */
  predicate ConstraintsFitted(z: Sizes, room: Room, area: Area, c: Ended<Room>, v: Ended<Area>, advance: bool,
                              exact: bool, extra: nat, lones: nat) {
    && c.EndedAt? && v.EndedAt?
    && v.sc == c.sc && v.keyword == c.keyword && Fits(c.sc, c.value.strings, v.value.strings, exact, extra + lones)
    && 0 <= v.value.tables - area.tables
    && if advance then v.value.tables - area.tables == c.value.tables - room.tables + lones * z.constraint
       else v.value.tables - area.tables <= c.value.tables - room.tables
  }

  lemma CountStep(next: KeywordScanner, z: Sizes, count: Counter, keys: seq<Keyword>, sc: Scan, room: Room, line: Scan,
                  w: Counted)
    requires next(keys, sc).keyword == -1 && next(keys, sc).sc == line && count(line) == w && w.Counted?
    ensures CountConstraints(next, z, count, keys, sc, room)
         == CountConstraints(next, z, count, keys, w.end, NextRoom(z, room, 1 + w.more))
  {
  }

  lemma StoreStep(next: KeywordScanner, z: Sizes, base: nat, convert: Converter, advance: bool, keys: seq<Keyword>,
                  sc: Scan, area: Area, line: Scan, v: Converted)
    requires next(keys, sc).keyword == -1 && next(keys, sc).sc == line && convert(line) == v && v.Stored?
    ensures StoreConstraints(next, z, base, convert, advance, keys, sc, area)
         == StoreConstraints(next, z, base, convert, advance, keys, v.sc, NextArea(z, base, advance, area, v.list))
  {
  }

  lemma FittedBefore(z: Sizes, base: nat, advance: bool, room: Room, area: Area, words: nat, list: seq<int>,
                     c: Ended<Room>, v: Ended<Area>, exact: bool, extra: nat, lones: nat)
    requires ConstraintsFitted(z, NextRoom(z, room, words), NextArea(z, base, advance, area, list), c, v, advance,
                               exact, extra, lones)
    ensures ConstraintsFitted(z, room, area, c, v, advance, exact, extra, lones)
  {
  }

  /** The room before the rest of a constraint with b words beyond the first, where a words beyond the first were
      counted for the whole. */
  function RoomBetween(room: Room, a: nat, b: nat): Room
    requires b <= a
  {
    room.(strings := Align(room.strings) + 2 * (a - b))
  }

  lemma RoomIsBetween(z: Sizes, room: Room, a: nat, b: nat)
    requires b <= a
    ensures NextRoom(z, RoomBetween(room, a, b), 1 + b) == NextRoom(z, room, 1 + a)
  {
  }

  lemma PieceFits(z: Sizes, base: nat, advance: bool, exact: bool, extra: nat, room: Room, area: Area, a: nat, b: nat,
                  list: seq<int>, end: Scan)
    requires base % 2 == 0 && ScanOk(end) && b <= a && Shared(|list|, a, b, exact)
    requires |area.strings| <= room.strings + 2 * extra && (exact ==> |area.strings| == room.strings + 2 * extra)
    ensures Fits(end, RoomBetween(room, a, b).strings, NextArea(z, base, advance, area, list).strings, exact, extra + 1)
  {
    PadFits(base, area.strings, room.strings, extra);
  }

  lemma FittedBeforePiece(z: Sizes, base: nat, advance: bool, room: Room, area: Area, a: nat, b: nat, list: seq<int>,
                          c: Ended<Room>, v: Ended<Area>, exact: bool, extra: nat, lones: nat)
    requires b <= a && lones > 0
    requires ConstraintsFitted(z, RoomBetween(room, a, b), NextArea(z, base, advance, area, list), c, v, advance,
                               exact, extra + 1, lones - 1)
    ensures ConstraintsFitted(z, room, area, c, v, advance, exact, extra, lones)
  {
    OneMore(lones - 1, z.constraint);
  }

  /** What both passes meet behind a lone backslash: a line that starts a constraint for the conversion. */
  predicate EndsEarly(next: KeywordScanner, keys: seq<Keyword>, count: Counter, line: Scan, u: Converted,
                      behind: Scan) {
    && u.Stored? && u.goesOn && count(line).Counted? && next(keys, u.sc).keyword == -1
    && behind == next(keys, u.sc).sc && count(behind).Counted? && count(behind).end == count(line).end
    && count(behind).more <= count(line).more
  }

  lemma PieceCounts(next: KeywordScanner, z: Sizes, count: Counter, keys: seq<Keyword>, sc: Scan, room: Room,
                    line: Scan, u: Converted, behind: Scan)
    requires next(keys, sc).keyword == -1 && next(keys, sc).sc == line && EndsEarly(next, keys, count, line, u, behind)
    ensures CountConstraints(next, z, count, keys, sc, room)
         == CountConstraints(next, z, count, keys, u.sc, RoomBetween(room, count(line).more, count(behind).more))
  {
    var a, b := count(line), count(behind);
    CountStep(next, z, count, keys, sc, room, line, a);
    CountStep(next, z, count, keys, u.sc, RoomBetween(room, a.more, b.more), behind, b);
    RoomIsBetween(z, room, a.more, b.more);
  }

  lemma BehindIsStored(next: KeywordScanner, z: Sizes, base: nat, convert: Converter, advance: bool,
                       keys: seq<Keyword>, at: Scan, area: Area)
    requires next(keys, at).keyword == -1
    requires StoreConstraints(next, z, base, convert, advance, keys, at, area).EndedAt?
    ensures convert(next(keys, at).sc).Stored?
  {
  }

  lemma PieceLones(next: KeywordScanner, count: Counter, convert: Converter, lones: Scan -> nat, exact: bool,
                   keys: seq<Keyword>, sc: Scan, line: Scan, u: Converted, behind: Scan)
    requires Agreeing(next, keys, count, convert, lones, exact) && ScanOk(line) && Normal(line.rest)
    requires next(keys, sc).keyword == -1 && next(keys, sc).sc == line && u == convert(line)
    requires EndsEarly(next, keys, count, line, u, behind) && ScanOk(u.sc) && convert(behind).Stored?
    ensures SectionLones(next, count, lones, keys, sc) == 1 + SectionLones(next, count, lones, keys, u.sc)
  {
    assert Scanned(keys, u.sc, next(keys, u.sc));
    assert AgreeAt(next, keys, count, lones, line, u, exact);
    assert AgreeAt(next, keys, count, lones, behind, convert(behind), exact);
  }

  lemma LineAgrees(next: KeywordScanner, keys: seq<Keyword>, count: Counter, convert: Converter, lones: Scan -> nat,
                   exact: bool, sc: Scan, line: Scan, u: Converted)
    requires Agreeing(next, keys, count, convert, lones, exact) && ScanOk(sc)
    requires next(keys, sc).keyword == -1 && next(keys, sc).sc == line && u == convert(line)
    requires count(line).Counted? && u.Stored?
    ensures ScanOk(line) && Normal(line.rest) && ScanOk(u.sc)
    ensures if u.goesOn
            then EndsEarly(next, keys, count, line, u, next(keys, u.sc).sc)
                 && Shared(|u.list|, count(line).more, count(next(keys, u.sc).sc).more, exact)
            else u.sc == count(line).end && Shared(|u.list|, count(line).more, 0, exact) && lones(line) == 0
  {
    assert Scanned(keys, sc, next(keys, sc));
    assert AgreeAt(next, keys, count, lones, line, u, exact);
  }

  /** All the constraints of a section. Whatever both passes accept, they end at the same place. For each lone backslash
      that a constraint goes on with, the conversion stores a constraint more, and a short more than was counted at
      most; with tables advanced past each constraint it takes just as many more tables, and where each constraint
      stores what was counted, just as many more shorts. */
  lemma {:induction false} ConstraintsFit(next: KeywordScanner, z: Sizes, base: nat, count: Counter, convert: Converter,
                                          lones: Scan -> nat, advance: bool, exact: bool, extra: nat,
                                          keys: seq<Keyword>, sc: Scan, room: Room, area: Area, c: Ended<Room>,
                                          v: Ended<Area>, n: nat)
    requires base % 2 == 0 && Fits(sc, room.strings, area.strings, exact, extra)
    requires Agreeing(next, keys, count, convert, lones, exact)
    requires c == CountConstraints(next, z, count, keys, sc, room) && c.EndedAt?
    requires v == StoreConstraints(next, z, base, convert, advance, keys, sc, area) && v.EndedAt?
    requires n == SectionLones(next, count, lones, keys, sc)
    ensures ConstraintsFitted(z, room, area, c, v, advance, exact, extra, n)
    decreases |sc.lines|, |sc.rest|
  {
    var f := next(keys, sc);
    if f.keyword == -1 {
      var w, u := count(f.sc), convert(f.sc);
      var more := NextArea(z, base, advance, area, u.list);
      LineAgrees(next, keys, count, convert, lones, exact, sc, f.sc, u);
      StoreStep(next, z, base, convert, advance, keys, sc, area, f.sc, u);
      if u.goesOn {
        var behind := next(keys, u.sc).sc;
        var b := count(behind).more;
        PieceCounts(next, z, count, keys, sc, room, f.sc, u, behind);
        BehindIsStored(next, z, base, convert, advance, keys, u.sc, more);
        PieceFits(z, base, advance, exact, extra, room, area, w.more, b, u.list, u.sc);
        PieceLones(next, count, convert, lones, exact, keys, sc, f.sc, u, behind);
        ConstraintsFit(next, z, base, count, convert, lones, advance, exact, extra + 1, keys, u.sc,
                       RoomBetween(room, w.more, b), more, c, v, n - 1);
        FittedBeforePiece(z, base, advance, room, area, w.more, b, u.list, c, v, exact, extra, n);
      } else {
        RoomFits(z, base, advance, exact, extra, room, area, 1 + w.more, u.list, w.end);
        CountStep(next, z, count, keys, sc, room, f.sc, w);
        ConstraintsFit(next, z, base, count, convert, lones, advance, exact, extra, keys, w.end,
                       NextRoom(z, room, 1 + w.more), more, c, v, n);
        FittedBefore(z, base, advance, room, area, 1 + w.more, u.list, c, v, exact, extra, n);
      }
    }
  }

  /** do_combinations, counting. The loop over the constraints may also end with the file. */
  function CombinationsRoom(next: KeywordScanner, z: Sizes, count: Counter, nextSection: seq<Keyword>, sc: Scan,
                            room: Room)
    : Option<(Scan, Room)>
  {
    var f := next(REQUIRED_COMBINATIONS, sc);
    if f.keyword < 0 then None
    else match CountPairs(next, z, f.sc, room.tables)
         case Bad => None
         case EndedAt(keyword, at, tables) =>
           if keyword != 0 then None
           else match CountConstraints(next, z, count, nextSection, at, Room(tables, room.strings))
                case Bad => None
                case EndedAt(_, end, more) => Some((end, more))
  }

  /** How many lone backslashes the constraints of the section go on with. */
  function CombinationsLones(next: KeywordScanner, z: Sizes, count: Counter, lones: Scan -> nat,
                             nextSection: seq<Keyword>, sc: Scan, tables: nat): nat {
    var f := next(REQUIRED_COMBINATIONS, sc);
    if f.keyword < 0 then 0
    else match CountPairs(next, z, f.sc, tables)
         case Bad => 0
         case EndedAt(keyword, at, _) => if keyword != 0 then 0 else SectionLones(next, count, lones, nextSection, at)
  }

  /** do_combinations, converting. */
  function CombinationsArea(next: KeywordScanner, z: Sizes, base: nat, isPair: string -> bool, convert: Converter,
                            advance: bool, nextSection: seq<Keyword>, sc: Scan, area: Area): Option<(Scan, Area)> {
    var f := next(REQUIRED_COMBINATIONS, sc);
    if f.keyword < 0 then None
    else match StorePairs(next, z, isPair, f.sc, area.tables)
         case Bad => None
         case EndedAt(keyword, at, tables) =>
           if keyword != 0 then None
           else match StoreConstraints(next, z, base, convert, advance, nextSection, at, Area(tables, area.strings))
                case Bad => None
                case EndedAt(_, end, more) => Some((end, more))
  }
}
