/** labelcomp.c, do_combinations: the indices that the conversion stores for a constraint are those of the words it is
    written with, and a required combination is two words. */
module LabelIndices {

  import opened Machine
  import opened LabelScan
  import opened LabelWords
  import opened LabelConstraints
  import opened LabelPasses

  /** A word that a constraint may hold: a main one, with one affix at most, and with a name that starts with no
      blank. */
  predicate Writable(words: seq<Word>, i: nat, useShort: bool)
    requires TableOk(words)
  {
    && IsMain(words, i) && (words[i].prefix < 0 || words[i].suffix < 0)
    && Print(words, i, useShort) != "" && Print(words, i, useShort)[0] != ' '
  }

  /** What is printed for the words, by their indices. */
  type Printer = nat -> string

  /** Words with bars between them, and then tail. */
  function Barred(print_: Printer, list: seq<nat>, tail: string): string
    requires list != []
  {
    if |list| == 1 then print_(list[0]) + tail else print_(list[0]) + (" | " + Barred(print_, list[1..], tail))
  }

  /** The first list, an ampersand for a constraint that is only valid with the second, an exclamation mark for one that
      is not valid with it, and the second list. */
  function Constraint(print_: Printer, first: seq<nat>, onlyWith: bool, second: seq<nat>): string
    requires first != [] && second != []
  {
    Barred(print_, first, (if onlyWith then " & " else " ! ") + Barred(print_, second, ""))
  }

  // ---------------------------------------------------------------- one word

  /** What may come behind a word: nothing, or a blank, a delimiter, and a blank. */
  predicate TailOk(tail: string) {
    tail == "" || (|tail| >= 3 && tail[0] == ' ' && tail[1] != ' ' && tail[2] == ' ')
  }

  lemma PrintStands(words: seq<Word>, i: nat, useShort: bool, text: string, tail: string)
    requires TableOk(words) && Writable(words, i, useShort) && TailOk(tail)
    requires text == Print(words, i, useShort) + tail
    ensures Stands(text, 0, Print(words, i, useShort)) && DropBlank(text) == text
    ensures PrintEnd(words, text, 0, i, useShort) == |Print(words, i, useShort)| + if tail == "" then 0 else 1
  {
    var p := Print(words, i, useShort);
    assert text[0..|p|] == p && text[0] == p[0];
    assert tail != "" ==> text[|p|] == tail[0];
    if words[i].prefix >= 0 {
      assert |p| == |NameOf(words[words[i].prefix], useShort)| + 1 + |NameOf(words[i], useShort)|;
    }
  }

  lemma Behind(read: Reader, p: string, tail: string, text: string, lines: seq<string>)
    requires TailOk(tail) && text == p + tail
    ensures var q := |p| + if tail == "" then 0 else 1;
            CheckContinuation(read, Scan(text[q..], lines), false)
            == Continued(Scan(if tail == "" then "" else tail[1..], lines), false)
  {
    if tail == "" {
      assert text[|p|..] == "";
    } else {
      assert text[|p| + 1..] == tail[1..];
    }
  }

  lemma WordIsFound(words: seq<Word>, i: nat, useShort: bool, text: string, tail: string, q: nat)
    requires Unambiguous(words) && TableGood(words, useShort) && Writable(words, i, useShort) && TailOk(tail)
    requires text == Print(words, i, useShort) + tail
    requires q == |Print(words, i, useShort)| + if tail == "" then 0 else 1
    ensures DropBlank(text) == text && Lookup(words, text, 0) == (i, q)
  {
    PrintStands(words, i, useShort, text, tail);
    LookupInvertsPrint(words, text, 0, i, useShort);
  }

  lemma OneWordIs(words: seq<Word>, read: Reader, text: string, lines: seq<string>, firstHalf: bool, i: nat, q: nat,
                  at: Scan)
    requires DropBlank(text) == text && q <= |text| && Lookup(words, text, 0) == (i, q)
    requires CheckContinuation(read, Scan(text[q..], lines), false) == Continued(at, false)
    ensures OneWord(words, read, Scan(text, lines), false, firstHalf) == (i, BehindWord(read, at, false, firstHalf))
  {
  }

  lemma WordIsTaken(words: seq<Word>, read: Reader, i: nat, useShort: bool, text: string, tail: string,
                    lines: seq<string>, firstHalf: bool)
    requires Unambiguous(words) && TableGood(words, useShort) && Writable(words, i, useShort) && TailOk(tail)
    requires text == Print(words, i, useShort) + tail
    ensures OneWord(words, read, Scan(text, lines), false, firstHalf)
         == (i, BehindWord(read, Scan(if tail == "" then "" else tail[1..], lines), false, firstHalf))
  {
    var q := |Print(words, i, useShort)| + if tail == "" then 0 else 1;
    WordIsFound(words, i, useShort, text, tail, q);
    Behind(read, Print(words, i, useShort), tail, text, lines);
    OneWordIs(words, read, text, lines, firstHalf, i, q, Scan(if tail == "" then "" else tail[1..], lines));
  }

  /** Behind a bar or the delimiter between the lists the next word is due. */
  lemma DelimiterIsTaken(read: Reader, delim: char, more: string, tail: string, lines: seq<string>, firstHalf: bool)
    requires more != "" && more[0] != ' ' && tail == [' ', delim, ' '] + more
    requires delim == '|' || (firstHalf && (delim == '&' || delim == '!'))
    ensures TailOk(tail)
    ensures BehindWord(read, Scan(tail[1..], lines), false, firstHalf)
         == Going(delim != '|', delim == '&', Scan(more, lines), false)
  {
    var rest := tail[1..];
    assert rest[1..] == " " + more && DropBlank(rest[1..]) == more;
    assert rest[0] == delim;
  }

  // ---------------------------------------------------------------- turns

  /** With a delimiter behind it a word is taken and the scan goes on; without one it is the last. */
  predicate TakesNext(turn: Turner, print_: Printer, i: nat, delim: char, more: string, lines: seq<string>,
                      firstHalf: bool) {
    more != "" && more[0] != ' ' && (delim == '|' || (firstHalf && (delim == '&' || delim == '!'))) ==>
      turn(Scan(print_(i) + ([' ', delim, ' '] + more), lines), false, firstHalf)
      == (i, Going(delim != '|', delim == '&', Scan(more, lines), false))
  }

  predicate TakesLast(turn: Turner, print_: Printer, i: nat, lines: seq<string>) {
    turn(Scan(print_(i), lines), false, false) == (i, Ended(false, Scan("", lines), false))
  }

  ghost predicate Takes(turn: Turner, print_: Printer, i: nat, lines: seq<string>) {
    && print_(i) != "" && print_(i)[0] != ' ' && TakesLast(turn, print_, i, lines)
    && forall delim: char, more: string, firstHalf: bool :: TakesNext(turn, print_, i, delim, more, lines, firstHalf)
  }

  ghost predicate TakesAll(turn: Turner, print_: Printer, list: seq<nat>, lines: seq<string>) {
    forall k :: 0 <= k < |list| ==> Takes(turn, print_, list[k], lines)
  }

  function PrintFor(words: seq<Word>, useShort: bool): (print_: Printer)
    requires TableOk(words)
    ensures forall i: nat :: i < |words| ==> print_(i) == Print(words, i, useShort)
  {
    (i: nat) => if i < |words| then Print(words, i, useShort) else ""
  }

  lemma WordTakes(words: seq<Word>, read: Reader, i: nat, useShort: bool, lines: seq<string>, turn: Turner,
                  print_: Printer)
    requires Unambiguous(words) && TableGood(words, useShort) && Writable(words, i, useShort)
    requires turn == TurnerFor(words, read) && print_ == PrintFor(words, useShort)
    ensures Takes(turn, print_, i, lines)
  {
    var p := Print(words, i, useShort);
    assert p + "" == p;
    WordIsTaken(words, read, i, useShort, p, "", lines, false);
    forall delim: char, more: string, firstHalf: bool
      ensures TakesNext(turn, print_, i, delim, more, lines, firstHalf)
    {
      if more != "" && more[0] != ' ' && (delim == '|' || (firstHalf && (delim == '&' || delim == '!'))) {
        var tail := [' ', delim, ' '] + more;
        DelimiterIsTaken(read, delim, more, tail, lines, firstHalf);
        WordIsTaken(words, read, i, useShort, p + tail, tail, lines, firstHalf);
      }
    }
  }

  // ---------------------------------------------------------------- the two lists

  lemma BarredStarts(print_: Printer, list: seq<nat>, tail: string)
    requires list != [] && print_(list[0]) != "" && print_(list[0])[0] != ' '
    ensures Barred(print_, list, tail) != "" && Barred(print_, list, tail)[0] != ' '
  {
  }

  lemma ConvertsLast(turn: Turner, sc: Scan, i: int, lines: seq<string>)
    requires turn(sc, false, false) == (i, Ended(false, Scan("", lines), false))
    ensures Convert(turn, sc, false, false) == Stored([i], 1, false, Scan("", lines), false)
  {
  }

  lemma ConvertsNext(turn: Turner, sc: Scan, firstHalf: bool, i: int, half: bool, onlyWith: bool, at: Scan,
                     v: Converted)
    requires turn(sc, false, firstHalf) == (i, Going(half, onlyWith, at, false))
    requires v == Convert(turn, at, false, firstHalf && !half) && v.Stored?
    ensures Convert(turn, sc, false, firstHalf)
         == v.(list := [i] + v.list, second := if half then 1 else 1 + v.second,
               onlyWith := if half then onlyWith else v.onlyWith)
  {
  }

  lemma {:induction false} SecondIsRead(turn: Turner, print_: Printer, list: seq<nat>, lines: seq<string>)
    requires TakesAll(turn, print_, list, lines) && list != []
    ensures Convert(turn, Scan(Barred(print_, list, ""), lines), false, false)
         == Stored(list, |list|, false, Scan("", lines), false)
    decreases |list|
  {
    var i, text := list[0], Barred(print_, list, "");
    assert Takes(turn, print_, i, lines);
    if |list| == 1 {
      assert text == print_(i) && list == [i];
      assert TakesLast(turn, print_, i, lines);
      ConvertsLast(turn, Scan(text, lines), i, lines);
    } else {
      var rest := list[1..];
      var more := Barred(print_, rest, "");
      assert Takes(turn, print_, rest[0], lines);
      BarredStarts(print_, rest, "");
      SecondIsRead(turn, print_, rest, lines);
      assert " | " == [' ', '|', ' '] && TakesNext(turn, print_, i, '|', more, lines, false);
      ConvertsNext(turn, Scan(text, lines), false, i, false, false, Scan(more, lines),
                   Stored(rest, |rest|, false, Scan("", lines), false));
      assert [i as int] + rest == list;
    }
  }

  lemma HalfIsRead(turn: Turner, print_: Printer, i: nat, onlyWith: bool, second: seq<nat>, lines: seq<string>)
    requires Takes(turn, print_, i, lines) && TakesAll(turn, print_, second, lines) && second != []
    ensures Convert(turn, Scan(Constraint(print_, [i], onlyWith, second), lines), false, true)
         == Stored([i as int] + second, 1, onlyWith, Scan("", lines), false)
  {
    var more := Barred(print_, second, "");
    assert Takes(turn, print_, second[0], lines);
    BarredStarts(print_, second, "");
    SecondIsRead(turn, print_, second, lines);
    var delim := if onlyWith then '&' else '!';
    assert (if onlyWith then " & " else " ! ") == [' ', delim, ' '];
    assert TakesNext(turn, print_, i, delim, more, lines, true);
    ConvertsNext(turn, Scan(Constraint(print_, [i], onlyWith, second), lines), true, i, true, onlyWith,
                 Scan(more, lines), Stored(second, |second|, false, Scan("", lines), false));
  }

  lemma {:induction false} FirstIsRead(turn: Turner, print_: Printer, first: seq<nat>, onlyWith: bool,
                                       second: seq<nat>, lines: seq<string>)
    requires TakesAll(turn, print_, first, lines) && TakesAll(turn, print_, second, lines)
    requires first != [] && second != []
    ensures Convert(turn, Scan(Constraint(print_, first, onlyWith, second), lines), false, true)
         == Stored(first + second, |first|, onlyWith, Scan("", lines), false)
    decreases |first|
  {
    var i := first[0];
    assert Takes(turn, print_, i, lines);
    if |first| == 1 {
      assert first == [i];
      HalfIsRead(turn, print_, i, onlyWith, second, lines);
    } else {
      var rest := first[1..];
      var more := Constraint(print_, rest, onlyWith, second);
      assert Takes(turn, print_, rest[0], lines);
      BarredStarts(print_, rest, (if onlyWith then " & " else " ! ") + Barred(print_, second, ""));
      FirstIsRead(turn, print_, rest, onlyWith, second, lines);
      assert " | " == [' ', '|', ' '] && TakesNext(turn, print_, i, '|', more, lines, true);
      ConvertsNext(turn, Scan(Constraint(print_, first, onlyWith, second), lines), true, i, false, false,
                   Scan(more, lines), Stored(rest + second, |rest|, onlyWith, Scan("", lines), false));
      assert [i as int] + (rest + second) == first + second;
    }
  }

  /** A constraint written on one line converts into itself: the indices of the words of both lists in order, where the
      second starts, and whether it is valid only with it. */
  lemma ConversionInvertsWriting(words: seq<Word>, read: Reader, first: seq<nat>, onlyWith: bool, second: seq<nat>,
                                 useShort: bool, lines: seq<string>, text: string)
    requires Unambiguous(words) && TableGood(words, useShort) && first != [] && second != []
    requires forall k :: 0 <= k < |first| ==> Writable(words, first[k], useShort)
    requires forall k :: 0 <= k < |second| ==> Writable(words, second[k], useShort)
    requires text == Constraint(PrintFor(words, useShort), first, onlyWith, second) && !GoesOn(text)
    ensures ConvertConstraint(words, read, Scan(text, lines))
         == Stored(first + second, |first|, onlyWith, Scan("", lines), false)
  {
    var turn, print_ := TurnerFor(words, read), PrintFor(words, useShort);
    forall k | 0 <= k < |first| ensures Takes(turn, print_, first[k], lines) {
      WordTakes(words, read, first[k], useShort, lines, turn, print_);
    }
    forall k | 0 <= k < |second| ensures Takes(turn, print_, second[k], lines) {
      WordTakes(words, read, second[k], useShort, lines, turn, print_);
    }
    FirstIsRead(turn, print_, first, onlyWith, second, lines);
  }

  // ---------------------------------------------------------------- required combinations

  lemma FirstStands(words: seq<Word>, i: nat, useShort: bool, line: string, more: string)
    requires TableOk(words) && Writable(words, i, useShort)
    requires line == Print(words, i, useShort) + (" " + more) && (more != "" ==> more[0] != ' ')
    ensures Stands(line, 0, Print(words, i, useShort))
    ensures PrintEnd(words, line, 0, i, useShort) == |Print(words, i, useShort)| + 1
  {
    var p := Print(words, i, useShort);
    assert line[0..|p|] == p && line[|p|] == ' ' && (more != "" ==> line[|p| + 1] == more[0]);
    if words[i].prefix >= 0 {
      assert |p| == |NameOf(words[words[i].prefix], useShort)| + 1 + |NameOf(words[i], useShort)|;
    }
  }

  lemma SecondStands(words: seq<Word>, j: nat, useShort: bool, line: string, p: nat)
    requires TableOk(words) && Writable(words, j, useShort) && p <= |line| && line[p..] == Print(words, j, useShort)
    ensures Stands(line, p, Print(words, j, useShort)) && PrintEnd(words, line, p, j, useShort) == |line|
  {
    var text := Print(words, j, useShort);
    assert |line| == p + |text| && line[p..p + |text|] == text;
    if words[j].prefix >= 0 {
      assert |text| == |NameOf(words[words[j].prefix], useShort)| + 1 + |NameOf(words[j], useShort)|;
    }
  }

  /** Two words with a blank between them are a required combination. */
  lemma PairIsRead(words: seq<Word>, i: nat, j: nat, useShort: bool, line: string)
    requires Unambiguous(words) && TableGood(words, useShort)
    requires Writable(words, i, useShort) && Writable(words, j, useShort)
    requires line == Print(words, i, useShort) + (" " + Print(words, j, useShort))
    ensures IsPair(words, line)
  {
    var p := |Print(words, i, useShort)| + 1;
    FirstStands(words, i, useShort, line, Print(words, j, useShort));
    assert line[p..] == Print(words, j, useShort);
    SecondStands(words, j, useShort, line, p);
    LookupInvertsPrint(words, line, 0, i, useShort);
    LookupInvertsPrint(words, line, p, j, useShort);
  }

  /** And a line that is one is read as just two words, the second from where the first ends to the end of the line. */
  lemma PairIsTwoWords(words: seq<Word>, line: string) returns (i: nat, j: nat, p: nat)
    requires TableOk(words) && IsPair(words, line)
    ensures i < |words| && j < |words| && p <= |line|
    ensures Reads(words, line, 0, p, i) && Reads(words, line, p, |line|, j)
  {
    LookupIsSound(words, line, 0);
    p := Lookup(words, line, 0).1;
    LookupIsSound(words, line, p);
    i, j := Lookup(words, line, 0).0, Lookup(words, line, p).0;
  }
}
