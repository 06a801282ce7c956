/** labelcomp.c as it runs: the loops of next_keyword, check_continuation, do_words and do_combinations over
    the line buffer and the global counters, each proved to compute what LabelScan, LabelConstraints and
    LabelPasses say. */
module LabelCompiler {

  import opened Machine
  import opened LabelScan
  import opened LabelWords
  import opened LabelAgreement
  import opened LabelConstraints
  import opened LabelPasses

  // ---------------------------------------------------------------- next_keyword

  /** The buffer behind scan_ptr, the lines still in the file, and dp. */
  class Input {
    var rest: string
    var lines: seq<string>
    var dp: string

    function At(): Scan
      reads this
    {
      Scan(rest, lines)
    }

    constructor (file: seq<string>)
      ensures At() == Scan("", file)
    {
      rest, lines, dp := "", file, "";
    }

    /** The loop that reads lines while there is nothing to scan. */
    method Fill() returns (end: bool)
      modifies this`rest, this`lines
      ensures end <==> Prepare(old(At())).rest == ""
      ensures !end ==> At() == Prepare(old(At()))
      ensures end ==> At() == Scan(old(rest), [])
    {
      var bp := DropBlank(rest);
      while bp == ""
        invariant rest == old(rest)
        invariant (if bp == "" then ReadLine(lines) else Scan(bp, lines)) == Prepare(old(At()))
        decreases |lines|, bp == ""
      {
        if lines == [] {
          return true;
        }
        bp := if lines[0] != "" && lines[0][0] == '*' then "" else lines[0];
        lines := lines[1..];
      }
      rest := bp;
      end := false;
    }

    /** The loop over the keywords. */
    method Search(keys: seq<Keyword>) returns (i: int)
      modifies this`rest, this`dp
      ensures 0 <= KeywordAt(keys, old(rest), 0) <= |keys|
      ensures var k := KeywordAt(keys, old(rest), 0);
              if k == |keys| || !Followed(keys[k], Behind(keys[k], old(rest))) then i == -1 && rest == old(rest)
              else i == k && dp == Behind(keys[k], old(rest))[..DataLength(Behind(keys[k], old(rest)))]
                   && rest == Rest(Behind(keys[k], old(rest)))
    {
      i := 0;
      while i < |keys|
        invariant 0 <= i <= |keys| && rest == old(rest)
        invariant KeywordAt(keys, rest, 0) == KeywordAt(keys, rest, i)
      {
        if keys[i] <= rest {
          var behind := Behind(keys[i], rest);
          if !Followed(keys[i], behind) {
            return -1;
          }
          var n := DataLength(behind);
          dp := behind[..n];
          rest := Rest(behind);
          return i;
        }
        i := i + 1;
      }
      i := -1;
    }

    method NextKeyword(keys: seq<Keyword>) returns (keyword: int)
      modifies this
      ensures var f := LabelScan.NextKeyword(keys, old(At()));
              keyword == f.keyword && At() == f.sc && (keyword >= 0 ==> dp == f.data)
    {
      var end := Fill();
      if end {
        return -2;
      }
      keyword := Search(keys);
    }
  }

  // ---------------------------------------------------------------- one constraint

  /** The counting loop over one line. */
  method CountLine(s: string) returns (more: nat)
    ensures more == Delims(s)
  {
    more := 0;
    var cp := 0;
    assert s[0..] == s;
    while cp < |s|
      invariant cp <= |s|
      invariant more + Delims(s[cp..]) == Delims(s)
    {
      assert s[cp..][1..] == s[cp + 1..];
      if s[cp] == '|' || s[cp] == '!' {
        more := more + 1;
      } else if s[cp] == '&' {
        cp := cp + 1;
        if cp < |s| && s[cp] == ' ' {
          assert s[cp..][1..] == s[cp + 1..];
          cp := cp + 1;
        }
        if cp < |s| {
          assert s[cp..][1..] == s[cp + 1..];
          more := more + 1;
        } else {
          cp := cp - 1;
          assert Delims(s[cp + 1..]) == 0;
        }
      }
      cp := cp + 1;
    }
  }

  /** The counting loop over the line and the lines that continue it; ok is false where a section keyword
      or the end of the file comes first. */
  method CountConstraint(read: Reader, sc: Scan) returns (ok: bool, words: nat, end: Scan)
    ensures var c := CountWords(read, sc); ok == c.Counted? && (ok ==> words == 1 + c.more && end == c.end)
  {
    words, end := 1, sc;
    ghost var c := CountWords(read, sc);
    while true
      invariant words >= 1
      invariant match CountOn(read, GoesOn(end.rest), end.lines)
                case Refused => c.Refused?
                case Counted(more, last) => c == Counted((words - 1) + Delims(end.rest) + more, last)
      decreases |end.lines|
    {
      var more := CountLine(end.rest);
      words := words + more;
      if !GoesOn(end.rest) {
        return true, words, Scan("", end.lines);
      }
      var next := read(end.lines);
      if next.NoLine? {
        return false, words, end;
      }
      end := next.sc;
    }
  }

  /** What is stored so far, with what the rest of the constraint is converted to. */
  function Joined(list: seq<int>, firstHalf: bool, second: nat, onlyWith: bool, v: Converted): Converted {
    if v.Failed? then v
    else if firstHalf then v.(list := list + v.list, second := |list| + v.second)
    else v.(list := list + v.list, second := second, onlyWith := onlyWith)
  }

  /** Word i in front of what follows. */
  function Prepended(i: int, half: bool, onlyWith: bool, v: Converted): Converted {
    match v
    case Failed(lost) => v
    case Stored(list, second, only, end, on) =>
      if half then Stored([i] + list, 1, onlyWith, end, on) else Stored([i] + list, 1 + second, only, end, on)
  }

  lemma JoinedGrows(list: seq<int>, firstHalf: bool, second: nat, only: bool, word: int, half: bool, onlyWith: bool,
                    v: Converted)
    requires half ==> firstHalf
    ensures Joined(list, firstHalf, second, only, Prepended(word, half, onlyWith, v))
         == if half then Joined(list + [word], false, |list| + 1, onlyWith, v)
            else Joined(list + [word], firstHalf, second, only, v)
  {
    if v.Stored? {
      assert list + ([word] + v.list) == (list + [word]) + v.list;
    }
  }

  /** What the constraint comes to if word i is the last. */
  function Finished(list: seq<int>, firstHalf: bool, second: nat, onlyWith: bool, word: int, t: Turn): (v: Converted)
    requires !t.Going?
    ensures v == Joined(list, firstHalf, second, onlyWith,
                        if t.Ended? then Stored([word], 1, t.half, t.sc, t.goesOn) else Failed(t.Lost?))
  {
    if !t.Ended? then Failed(t.Lost?)
    else if firstHalf then Stored(list + [word], |list| + 1, t.half, t.sc, t.goesOn)
    else Stored(list + [word], second, onlyWith, t.sc, t.goesOn)
  }

  /** The conversion loop over the words of a constraint. */
  method StoreWords(turn: Turner, start: Scan, continues: bool) returns (v: Converted)
    ensures v == Convert(turn, start, continues, true)
  {
    var sc, lineContinues := start, continues;
    ghost var goal := Convert(turn, sc, lineContinues, true);
    var list: seq<int>, firstHalf, onlyWith := [], true, false;
    var second: nat := 0;
    while true
      invariant Joined(list, firstHalf, second, onlyWith, Convert(turn, sc, lineContinues, firstHalf)) == goal
      decreases |sc.lines|, |sc.rest|
    {
      var (word, t) := turn(sc, lineContinues, firstHalf);
      assert TurnOk(sc, firstHalf, t);
      if !t.Going? {
        return Finished(list, firstHalf, second, onlyWith, word, t);
      }
      ghost var more := Convert(turn, t.sc, t.goesOn, firstHalf && !t.half);
      assert Convert(turn, sc, lineContinues, firstHalf) == Prepended(word, t.half, t.onlyWith, more);
      JoinedGrows(list, firstHalf, second, onlyWith, word, t.half, t.onlyWith, more);
      list := list + [word];
      if t.half {
        firstHalf, second, onlyWith := false, |list|, t.onlyWith;
      }
      sc, lineContinues := t.sc, t.goesOn;
    }
  }

  /** The conversion of the constraint on a line. */
  method StoreConstraint(words: seq<Word>, read: Reader, line: Scan) returns (v: Converted)
    ensures v == ConvertConstraint(words, read, line)
  {
    v := StoreWords(TurnerFor(words, read), Scan(Cut(line.rest), line.lines), GoesOn(line.rest));
  }

  // ---------------------------------------------------------------- the global variables

  /** counting tells the passes apart: the first moves sizeTables and sizeStrings, the second tables and
      strings. next is next_keyword. */
  class Compiler {
    const next: KeywordScanner
    const z: Sizes
    const base: nat
    const counting: bool
    var sc: Scan
    var count: nat
    var sizeTables: nat
    var sizeStrings: nat
    var tables: nat
    var strings: seq<Cell>

    constructor (next: KeywordScanner, z: Sizes, base: nat, counting: bool, sc: Scan, tables: nat, strings: seq<Cell>)
      ensures this.next == next && this.z == z && this.base == base && this.counting == counting
      ensures this.sc == sc && this.tables == tables && this.strings == strings
    {
      this.next, this.z, this.base, this.counting, this.sc := next, z, base, counting, sc;
      this.tables, this.strings := tables, strings;
      count, sizeTables, sizeStrings := 0, 0, 0;
    }

    method NextKeyword(keys: seq<Keyword>) returns (keyword: int, dp: string)
      modifies this`sc
      ensures var f := next(keys, old(sc)); keyword == f.keyword && dp == f.data && sc == f.sc
    {
      var f := next(keys, sc);
      keyword, dp := f.keyword, f.data;
      sc := f.sc;
    }

    function Counted(): Tally
      reads this
    {
      Tally(sc, sizeTables, sizeStrings, count)
    }

    /** The keywords behind one NAME. */
    method LabelKeywords()
      modifies this`sc, this`sizeStrings, this`strings
      ensures counting ==>
          (sc, sizeStrings) == CountKeywords(next, old(sc), old(sizeStrings)) && strings == old(strings)
      ensures !counting ==>
          (sc, strings) == StoreKeywords(next, old(sc), old(strings)) && sizeStrings == old(sizeStrings)
    {
      ghost var counted, stored := CountKeywords(next, sc, sizeStrings), StoreKeywords(next, sc, strings);
      var keyword, dp := NextKeyword(LABEL_KEYWORDS);
      while 0 <= keyword
        invariant counting ==>
            counted == if keyword < 0 then (sc, sizeStrings)
                       else CountKeywords(next, sc, if keyword == SNAME then sizeStrings + |dp| + 1 else sizeStrings)
        invariant !counting ==>
            stored == if keyword < 0 then (sc, strings)
                      else StoreKeywords(next, sc, if keyword == SNAME then strings + Copied(dp) else strings)
        invariant counting ==> strings == old(strings)
        invariant !counting ==> sizeStrings == old(sizeStrings)
        decreases Left(sc), keyword
      {
        if keyword == SNAME {
          if counting {
            sizeStrings := sizeStrings + |dp| + 1;
          } else {
            strings := strings + Copied(dp);
          }
        }
        keyword, dp := NextKeyword(LABEL_KEYWORDS);
      }
    }

    /** What a NAME itself takes. */
    method OneName(outputOnly: bool, dp: string)
      modifies this`count, this`sizeTables, this`sizeStrings, this`strings
      ensures counting ==> count == old(count) + 1 && sizeTables == old(sizeTables) + z.word
                           && sizeStrings == CountName(z, outputOnly, dp, old(sizeStrings)) && strings == old(strings)
      ensures !counting ==> strings == StoreName(z, base, outputOnly, dp, old(strings))
                            && count == old(count) && sizeTables == old(sizeTables) && sizeStrings == old(sizeStrings)
    {
      if counting {
        count := count + 1;
        sizeTables := sizeTables + z.word;
        var j := |dp| + 1;
        sizeStrings := sizeStrings + j;
        if !outputOnly && '/' in dp {
          sizeStrings := sizeStrings + j;
        }
        sizeStrings := Align(sizeStrings);
        sizeStrings := sizeStrings + 2 * z.compartments + 2 * z.markings;
      } else {
        var name := strings + Copied(dp);
        if !outputOnly && '/' in dp {
          name := name + Copied(Unslashed(dp));
        } else {
          assert name + [] == name;
        }
        strings := Pad(base, name) + Cleared(2 * z.compartments + 2 * z.markings);
      }
    }

    /** The counting pass from here on, a NAME with dp behind it having been found or not. */
    function CountFrom(outputOnly: bool, keyword: int, dp: string, t: Tally): Tally {
      if keyword < 0 then t
      else
        var c := CountKeywords(next, t.sc, CountName(z, outputOnly, dp, t.strings));
        CountNames(next, z, outputOnly, Tally(c.0, t.tables + z.word, c.1, t.words + 1))
    }

    function StoreFrom(outputOnly: bool, keyword: int, dp: string, at: Scan, area: seq<Cell>): (Scan, seq<Cell>) {
      if keyword < 0 then (at, area)
      else
        var v := StoreKeywords(next, at, StoreName(z, base, outputOnly, dp, area));
        StoreNames(next, z, base, outputOnly, v.0, v.1)
    }

    /** One entry. */
    method WholeEntry(outputOnly: bool, name: string)
      modifies this`sc, this`count, this`sizeTables, this`sizeStrings, this`strings
      ensures counting ==> count == old(count) + 1 && sizeTables == old(sizeTables) + z.word
      ensures counting ==>
          (sc, sizeStrings) == CountKeywords(next, old(sc), CountName(z, outputOnly, name, old(sizeStrings)))
          && strings == old(strings)
      ensures !counting ==>
          (sc, strings) == StoreKeywords(next, old(sc), StoreName(z, base, outputOnly, name, old(strings)))
          && count == old(count) && sizeTables == old(sizeTables) && sizeStrings == old(sizeStrings)
    {
      OneName(outputOnly, name);
      LabelKeywords();
    }

    /** One entry, and the search for the next NAME. */
    method Entry(outputOnly: bool, name: string) returns (keyword: int, dp: string)
      modifies this`sc, this`count, this`sizeTables, this`sizeStrings, this`strings
      ensures Left(sc) <= Left(old(sc)) && (keyword >= 0 ==> Left(sc) < Left(old(sc)))
      ensures counting ==> strings == old(strings)
      ensures counting ==>
          CountFrom(outputOnly, 0, name, old(Counted())) == CountFrom(outputOnly, keyword, dp, Counted())
      ensures !counting ==> count == old(count) && sizeTables == old(sizeTables) && sizeStrings == old(sizeStrings)
      ensures !counting ==>
          StoreFrom(outputOnly, 0, name, old(sc), old(strings)) == StoreFrom(outputOnly, keyword, dp, sc, strings)
    {
      WholeEntry(outputOnly, name);
      keyword, dp := NextKeyword(NAME);
    }

    /** The loop over the entries. */
    method Entries(outputOnly: bool)
      modifies this`sc, this`count, this`sizeTables, this`sizeStrings, this`strings
      ensures counting ==> Counted() == CountNames(next, z, outputOnly, old(Counted())) && strings == old(strings)
      ensures !counting ==> (sc, strings) == StoreNames(next, z, base, outputOnly, old(sc), old(strings))
      ensures !counting ==> count == old(count) && sizeTables == old(sizeTables) && sizeStrings == old(sizeStrings)
    {
      ghost var counted := CountNames(next, z, outputOnly, Counted());
      ghost var stored := StoreNames(next, z, base, outputOnly, sc, strings);
      var keyword, dp := NextKeyword(NAME);
      while 0 <= keyword
        invariant counting ==> CountFrom(outputOnly, keyword, dp, Counted()) == counted && strings == old(strings)
        invariant !counting ==> StoreFrom(outputOnly, keyword, dp, sc, strings) == stored
        invariant !counting ==> count == old(count) && sizeTables == old(sizeTables) && sizeStrings == old(sizeStrings)
        decreases Left(sc), keyword
      {
        keyword, dp := Entry(outputOnly, dp);
      }
    }

    /** do_words: both passes over the words of a section. */
    method DoWords(outputOnly: bool) returns (ok: bool)
      modifies this`sc, this`count, this`sizeTables, this`sizeStrings, this`strings
      ensures ok <==> next(WORDS, old(sc)).keyword >= 0
      ensures ok && counting ==>
                && Counted() == CountNames(next, z, outputOnly,
                                           Tally(next(WORDS, old(sc)).sc, old(sizeTables), old(sizeStrings), 0))
                && strings == old(strings)
      ensures ok && !counting ==>
                && (sc, strings) == StoreNames(next, z, base, outputOnly, next(WORDS, old(sc)).sc, old(strings))
                && sizeTables == old(sizeTables) && sizeStrings == old(sizeStrings)
    {
      var keyword, dp := NextKeyword(WORDS);
      if keyword < 0 {
        return false;
      }
      if counting {
        count := 0;
      }
      Entries(outputOnly);
      ok := true;
    }

    // ------------------------------------------------------------ do_combinations

    function PairsCounted(keyword: int, at: Scan, size: nat): Ended<nat> {
      if keyword != -1 then EndedAt(keyword, at, size + z.pair)
      else CountPairs(next, z, Scan("", at.lines), size + z.pair)
    }

    function PairsStored(isPair: string -> bool, keyword: int, at: Scan, size: nat): Ended<nat> {
      if keyword != -1 then EndedAt(keyword, at, size + z.pair)
      else if !isPair(at.rest) then Bad
      else StorePairs(next, z, isPair, Scan("", at.lines), size + z.pair)
    }

    /** One required combination, and the search for the next. */
    method PairLine(isPair: string -> bool) returns (ok: bool, keyword: int)
      requires sc.rest != ""
      modifies this`sc, this`sizeTables, this`tables
      ensures ok ==> Left(sc) < Left(old(sc)) && (keyword == -1 ==> sc.rest != "")
      ensures counting ==> ok && tables == old(tables)
                           && PairsCounted(-1, old(sc), old(sizeTables)) == PairsCounted(keyword, sc, sizeTables)
      ensures !counting ==> sizeTables == old(sizeTables)
                            && PairsStored(isPair, -1, old(sc), old(tables))
                               == if ok then PairsStored(isPair, keyword, sc, tables) else Bad
    {
      if counting {
        sizeTables := sizeTables + z.pair;
      } else if isPair(sc.rest) {
        tables := tables + z.pair;
      } else {
        return false, -1;
      }
      sc := Scan("", sc.lines);
      var dp;
      keyword, dp := NextKeyword(COMBINATION_CONSTRAINTS);
      ok := true;
    }

    /** The loop over the required combinations. */
    method Pairs(isPair: string -> bool) returns (ok: bool, keyword: int)
      modifies this`sc, this`sizeTables, this`tables
      ensures counting ==> ok && tables == old(tables)
                           && CountPairs(next, z, old(sc), old(sizeTables)) == EndedAt(keyword, sc, sizeTables)
      ensures !counting ==> sizeTables == old(sizeTables)
                            && StorePairs(next, z, isPair, old(sc), old(tables))
                               == if ok then EndedAt(keyword, sc, tables) else Bad
    {
      ghost var counted, stored := CountPairs(next, z, sc, sizeTables), StorePairs(next, z, isPair, sc, tables);
      var dp;
      keyword, dp := NextKeyword(COMBINATION_CONSTRAINTS);
      ok := true;
      while keyword == -1
        invariant ok && (keyword == -1 ==> sc.rest != "")
        invariant counting ==> tables == old(tables) && PairsCounted(keyword, sc, sizeTables) == counted
        invariant !counting ==> sizeTables == old(sizeTables) && PairsStored(isPair, keyword, sc, tables) == stored
        decreases Left(sc)
      {
        ok, keyword := PairLine(isPair);
        if !ok {
          return;
        }
      }
      if counting {
        sizeTables := sizeTables + z.pair;
      } else {
        tables := tables + z.pair;
      }
    }

    function Sizes(): Room
      reads this
    {
      Room(sizeTables, sizeStrings)
    }

    function Filled(): Area
      reads this
    {
      Area(tables, strings)
    }

    function ConstraintsCounted(count: Counter, keys: seq<Keyword>, keyword: int, at: Scan, room: Room): Ended<Room> {
      if keyword != -1 then EndedAt(keyword, at, room.(tables := room.tables + z.constraint))
      else match count(at)
           case Refused => Bad
           case Counted(more, end) => CountConstraints(next, z, count, keys, end, NextRoom(z, room, 1 + more))
    }

    function ConstraintsStored(convert: Converter, keys: seq<Keyword>, keyword: int, at: Scan,
                               area: Area): Ended<Area> {
      if keyword != -1 then EndedAt(keyword, at, area.(tables := area.tables + z.constraint))
      else match convert(at)
           case Failed(lost) => Bad
           case Stored(list, second, onlyWith, end, goesOn) =>
             StoreConstraints(next, z, base, convert, false, keys, end, NextArea(z, base, false, area, list))
    }

    /** One constraint, counted, and the search for the next. */
    method CountedLine(count: Counter, keys: seq<Keyword>) returns (ok: bool, keyword: int)
      requires counting
      modifies this`sc, this`sizeTables, this`sizeStrings
      ensures ok && keyword == -1 ==> |sc.lines| < |old(sc).lines|
      ensures ConstraintsCounted(count, keys, -1, old(sc), old(Sizes()))
           == if ok then ConstraintsCounted(count, keys, keyword, sc, Sizes()) else Bad
    {
      var c := count(sc);
      ok, keyword := c.Counted?, -1;
      if ok {
        sizeStrings := Align(sizeStrings);
        sizeStrings := sizeStrings + 2 * (1 + c.more);
        sizeTables := sizeTables + z.constraint;
        sc := c.end;
        var dp;
        keyword, dp := NextKeyword(keys);
      }
    }

    /** One constraint, stored, and the search for the next; tables stays where it is. */
    method StoredLine(convert: Converter, keys: seq<Keyword>) returns (ok: bool, keyword: int)
      requires !counting
      modifies this`sc, this`strings
      ensures ok && keyword == -1 ==> |sc.lines| < |old(sc).lines|
      ensures ConstraintsStored(convert, keys, -1, old(sc), old(Filled()))
           == if ok then ConstraintsStored(convert, keys, keyword, sc, Filled()) else Bad
    {
      var v := convert(sc);
      ok, keyword := v.Stored?, -1;
      if ok {
        strings := Pad(base, strings);
        strings := strings + Shorts(v.list);
        sc := v.sc;
        var dp;
        keyword, dp := NextKeyword(keys);
      }
    }

    /** The loop over the constraints of a section. */
    method Constraints(count: Counter, convert: Converter, keys: seq<Keyword>) returns (ok: bool, keyword: int)
      modifies this`sc, this`sizeTables, this`sizeStrings, this`tables, this`strings
      ensures counting ==> Filled() == old(Filled())
      ensures counting ==> CountConstraints(next, z, count, keys, old(sc), old(Sizes()))
                           == if ok then EndedAt(keyword, sc, Sizes()) else Bad
      ensures !counting ==> Sizes() == old(Sizes())
      ensures !counting ==> StoreConstraints(next, z, base, convert, false, keys, old(sc), old(Filled()))
                            == if ok then EndedAt(keyword, sc, Filled()) else Bad
    {
      ghost var counted := CountConstraints(next, z, count, keys, sc, Sizes());
      ghost var stored := StoreConstraints(next, z, base, convert, false, keys, sc, Filled());
      var dp;
      keyword, dp := NextKeyword(keys);
      ok := true;
      while keyword == -1
        invariant ok
        invariant counting ==>
            Filled() == old(Filled()) && ConstraintsCounted(count, keys, keyword, sc, Sizes()) == counted
        invariant !counting ==>
            Sizes() == old(Sizes()) && ConstraintsStored(convert, keys, keyword, sc, Filled()) == stored
        decreases keyword == -1, |sc.lines|
      {
        if counting {
          ok, keyword := CountedLine(count, keys);
        } else {
          ok, keyword := StoredLine(convert, keys);
        }
        if !ok {
          return;
        }
      }
      if counting {
        sizeTables := sizeTables + z.constraint;
      } else {
        tables := tables + z.constraint;
      }
    }

    /** do_combinations: both passes over the combinations of a section. isPair recognizes the two words of
        a required combination; count and convert size and store a constraint. */
    method DoCombinations(isPair: string -> bool, count: Counter, convert: Converter,
                          keys: seq<Keyword>) returns (ok: bool)
      modifies this`sc, this`sizeTables, this`sizeStrings, this`tables, this`strings
      ensures counting ==>
                CombinationsRoom(next, z, count, keys, old(sc), old(Sizes()))
                == if ok then Some((sc, Sizes())) else None
      ensures !counting ==>
                CombinationsArea(next, z, base, isPair, convert, false, keys, old(sc), old(Filled()))
                == if ok then Some((sc, Filled())) else None
    {
      var keyword, dp := NextKeyword(REQUIRED_COMBINATIONS);
      if keyword < 0 {
        return false;
      }
      ok, keyword := Pairs(isPair);
      if !ok || keyword != 0 {
        return false;
      }
      ok, keyword := Constraints(count, convert, keys);
    }
  }
}
