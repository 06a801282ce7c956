/** labelcomp.c, do_combinations: what the two passes make of the same constraint. They part at a line that is
    a backslash alone and nowhere else. */
module LabelAgreement {

  import opened Machine
  import opened LabelScan
  import opened LabelWords
  import opened LabelConstraints

  // ---------------------------------------------------------------- where the passes part

  /** How many of the lines that the current one goes on with, for the counting pass, are a backslash alone. */
  function Lones(read: Reader, goesOn: bool, lines: seq<string>): nat
    decreases |lines|
  {
    if goesOn && read(lines).Line? then
      var sc := read(lines).sc;
      (if sc.rest == "\\" then 1 else 0) + Lones(read, GoesOn(sc.rest), sc.lines)
    else 0
  }

  lemma CutToNothing(line: string)
    ensures Cut(line) == "" && GoesOn(line) <==> line == "\\"
  {
  }

  /** Reading on either meets a lone backslash, or leaves ahead as many as there are. */
  lemma ContinuingLones(read: Reader, sc: Scan, on: bool, c: Continued)
    requires c == CheckContinuation(read, sc, on) && c.Continued?
    ensures Lones(read, on, sc.lines)
         == (if c.sc.rest == "" && c.goesOn then 1 else 0) + Lones(read, c.goesOn, c.sc.lines)
  {
    if on && DropBlank(sc.rest) == "" {
      CutToNothing(read(sc.lines).sc.rest);
    }
  }

  /** How many lone backslashes were ahead, once a turn has gone as far as t: a constraint that ends with
      line_continues on has met one of them. Where no text is left, no word follows. */
  predicate LonesBehind(read: Reader, t: Turn, lones: nat) {
    && (t.Ended? ==> lones == (if t.goesOn then 1 else 0) + Lones(read, t.goesOn, t.sc.lines))
    && (t.Going? && t.sc.rest != "" ==> lones == Lones(read, t.goesOn, t.sc.lines))
  }

  lemma GoOnLones(read: Reader, sc: Scan, on: bool, half: bool, onlyWith: bool)
    ensures LonesBehind(read, GoOn(read, sc, on, half, onlyWith), Lones(read, on, sc.lines))
  {
    var c := CheckContinuation(read, sc, on);
    if c.Continued? {
      ContinuingLones(read, sc, on, c);
    }
  }

  lemma BehindWordLones(read: Reader, at: Scan, on: bool, firstHalf: bool, lones: nat)
    requires lones == (if at.rest == "" && on then 1 else 0) + Lones(read, on, at.lines)
    ensures LonesBehind(read, BehindWord(read, at, on, firstHalf), lones)
  {
    if at.rest != "" {
      var rest := at.rest[1..];
      GoOnLones(read, Scan(rest, at.lines), on, false, false);
      GoOnLones(read, Scan(rest, at.lines), on, true, false);
      GoOnLones(read, Scan(DropBlank(rest), at.lines), on, true, true);
    }
  }

  lemma OneWordLones(words: seq<Word>, read: Reader, sc: Scan, on: bool, firstHalf: bool, t: Turn)
    requires t == OneWord(words, read, sc, on, firstHalf).1
    ensures LonesBehind(read, t, Lones(read, on, sc.lines))
  {
    var rest := DropBlank(sc.rest);
    var (i, q) := Lookup(words, rest, 0);
    if i != -1 {
      var c := CheckContinuation(read, Scan(rest[q..], sc.lines), on);
      if c.Continued? {
        ContinuingLones(read, Scan(rest[q..], sc.lines), on, c);
        BehindWordLones(read, c.sc, c.goesOn, firstHalf, Lones(read, on, sc.lines));
      }
    }
  }

  lemma NothingIsNoWord(words: seq<Word>, read: Reader, lines: seq<string>, on: bool, firstHalf: bool)
    ensures OneWord(words, read, Scan("", lines), on, firstHalf).1 == Unrecognized
  {
    if Lookup(words, "", 0).0 != -1 {
      WordMoves(words, "");
    }
  }

  predicate LonesTurn(read: Reader, sc: Scan, on: bool, t: Turn) {
    LonesBehind(read, t, Lones(read, on, sc.lines)) && (sc.rest == "" ==> t == Unrecognized)
  }

  ghost predicate LonesTurns(read: Reader, turn: Turner) {
    forall sc, on, firstHalf :: LonesTurn(read, sc, on, turn(sc, on, firstHalf).1)
  }

  lemma TurnsKeepLones(words: seq<Word>, read: Reader)
    ensures LonesTurns(read, TurnerFor(words, read))
  {
    forall sc: Scan, on: bool, firstHalf: bool
      ensures LonesTurn(read, sc, on, OneWord(words, read, sc, on, firstHalf).1)
    {
      OneWordLones(words, read, sc, on, firstHalf, OneWord(words, read, sc, on, firstHalf).1);
      NothingIsNoWord(words, read, sc.lines, on, firstHalf);
    }
  }

  /** At the end line_continues is on exactly if a lone backslash was ahead, and that one is then used up. */
  lemma {:induction false} ConvertLones(read: Reader, turn: Turner, sc: Scan, on: bool, firstHalf: bool, v: Converted)
    requires LonesTurns(read, turn) && v == Convert(turn, sc, on, firstHalf) && v.Stored?
    ensures Lones(read, on, sc.lines) == (if v.goesOn then 1 else 0) + Lones(read, v.goesOn, v.sc.lines)
    decreases |sc.lines|, |sc.rest|
  {
    var (i, t) := turn(sc, on, firstHalf);
    assert LonesTurn(read, sc, on, t);
    if t.Going? {
      var more := Convert(turn, t.sc, t.goesOn, firstHalf && !t.half);
      ConvertLones(read, turn, t.sc, t.goesOn, firstHalf && !t.half, more);
      assert LonesTurn(read, t.sc, t.goesOn, turn(t.sc, t.goesOn, firstHalf && !t.half).1);
    }
  }

  // ---------------------------------------------------------------- words without delimiters

  predicate IsDelimiter(c: char) {
    c == '|' || c == '!' || c == '&'
  }

  /** No delimiter from p up to q. */
  predicate PlainBetween(s: string, p: nat, q: nat)
    requires q <= |s|
  {
    forall k :: p <= k < q ==> !IsDelimiter(s[k])
  }

  /** No name holds a delimiter. */
  predicate PlainWords(words: seq<Word>) {
    forall i :: 0 <= i < |words| ==>
      && PlainBetween(words[i].outputName, 0, |words[i].outputName|)
      && (words[i].shortName.Some? ==> PlainBetween(words[i].shortName.value, 0, |words[i].shortName.value|))
  }

  lemma StandingIsPlain(s: string, p: nat, name: string)
    requires Stands(s, p, name) && PlainBetween(name, 0, |name|)
    ensures PlainBetween(s, p, SkipBlank(s, p + |name|))
  {
    forall k | p <= k < p + |name| ensures !IsDelimiter(s[k]) {
      assert s[p..p + |name|][k - p] == s[k];
    }
  }

  lemma FoundIsPlain(words: seq<Word>, s: string, p: nat, prefix: int, suffix: int, i: nat, len: nat)
    requires PlainWords(words) && FindWord(words, s, p, prefix, suffix, 0) == Some((i, len))
    ensures PlainBetween(s, p, SkipBlank(s, p + len))
  {
    var w := words[i];
    StandingIsPlain(s, p, if Stands(s, p, w.outputName) then w.outputName else w.shortName.value);
  }

  lemma PlainJoins(s: string, p: nat, q: nat, r: nat)
    requires p <= q <= r <= |s| && PlainBetween(s, p, q) && PlainBetween(s, q, r)
    ensures PlainBetween(s, p, r)
  {
  }

  /** word_index moves the scan pointer over names and blanks only. */
  lemma {:induction false} ParseIsPlain(words: seq<Word>, s: string, p: nat, prefix: int, suffix: int, found: int,
                                        end: nat)
    requires PlainWords(words) && p <= |s| && end == Parse(words, s, p, prefix, suffix, found).1
    ensures PlainBetween(s, p, end)
    decreases prefix < 0, suffix < 0
  {
    if p < |s| && FindWord(words, s, p, prefix, suffix, 0).Some? {
      var (i, len) := FindWord(words, s, p, prefix, suffix, 0).value;
      FoundIsPlain(words, s, p, prefix, suffix, i, len);
      var m := Decide(words, i, prefix, suffix, found);
      if m.Seek? {
        ParseIsPlain(words, s, SkipBlank(s, p + len), m.prefix, m.suffix, m.found, end);
        PlainJoins(s, p, SkipBlank(s, p + len), end);
      }
    }
  }

  lemma {:induction false} PlainDelims(s: string, k: nat)
    requires k <= |s| && PlainBetween(s, 0, k)
    ensures Delims(s[k..]) == Delims(s)
  {
    if k > 0 {
      assert s[1..][k - 1..] == s[k..];
      PlainDelims(s[1..], k - 1);
    }
  }

  /** Text in front that holds no delimiter does not change what is ahead. */
  lemma PlainAhead(read: Reader, sc: Scan, on: bool, k: nat)
    requires k <= |sc.rest| && PlainBetween(sc.rest, 0, k)
    ensures Ahead(read, Scan(sc.rest[k..], sc.lines), on) == Ahead(read, sc, on)
  {
    PlainDelims(Full(sc.rest, on), k);
    assert Full(sc.rest, on)[k..] == Full(sc.rest[k..], on);
  }

  lemma NothingFull(rest: string)
    requires DropBlank(rest) == ""
    ensures Delims(Full(rest, true)) == 0
  {
    PlainDelims(Full(rest, true), |Full(rest, true)|);
  }

  lemma ContinuingExactly(read: Reader, sc: Scan, on: bool, c: Continued)
    requires Ahead(read, sc, on).Counted? && c == CheckContinuation(read, sc, on) && c.Continued?
    ensures Ahead(read, c.sc, c.goesOn) == Ahead(read, sc, on)
  {
    if on && DropBlank(sc.rest) == "" {
      NothingFull(sc.rest);
      ReadOnKeepsAhead(read, sc.lines, CountOn(read, true, sc.lines), c);
    } else {
      PlainAhead(read, sc, on, |sc.rest| - |DropBlank(sc.rest)|);
    }
  }

  /** A word may start here. */
  predicate StartsPlain(sc: Scan) {
    var rest := DropBlank(sc.rest);
    rest != "" && !IsDelimiter(rest[0])
  }

  /** A turn takes one delimiter of those ahead, and the last none: all that is left are those on the lines that the
      constraint goes on with behind a lone backslash. */
  predicate ExactBehind(read: Reader, a: Counted, t: Turn) {
    && (t.Ended? ==> a.Counted? && CountOn(read, t.goesOn, t.sc.lines) == a)
    && (t.Going? ==>
          && ScanOk(t.sc)
          && var b := Ahead(read, t.sc, t.goesOn);
          b.Counted? && (StartsPlain(t.sc) ==> a.Counted? && a.more == 1 + b.more))
  }

  lemma GoOnExactly(read: Reader, sc: Scan, on: bool, half: bool, onlyWith: bool, a: Counted, t: Turn)
    requires ScanOk(sc) && a == Ahead(read, sc, on) && a.Counted? && t == GoOn(read, sc, on, half, onlyWith)
    ensures t.Going? ==> ScanOk(t.sc) && Ahead(read, t.sc, t.goesOn) == a
  {
    var c := CheckContinuation(read, sc, on);
    if c.Continued? {
      ContinuingExactly(read, sc, on, c);
      CheckContinuationOk(read, sc, on, c);
    }
  }

  lemma BarAhead(read: Reader, at: Scan, on: bool, a: Counted)
    requires at.rest != "" && (at.rest[0] == '|' || at.rest[0] == '!') && a == Ahead(read, at, on) && a.Counted?
    ensures var b := Ahead(read, Scan(at.rest[1..], at.lines), on); b.Counted? && a.more == 1 + b.more
  {
    FullBehind(at.rest, on);
  }

  lemma BarExactly(read: Reader, at: Scan, on: bool, half: bool, a: Counted, t: Turn)
    requires ScanOk(at) && at.rest != "" && (at.rest[0] == '|' || at.rest[0] == '!')
    requires a == Ahead(read, at, on) && a.Counted?
    requires t == GoOn(read, Scan(at.rest[1..], at.lines), on, half, false)
    ensures ExactBehind(read, a, t)
  {
    var sc := Scan(at.rest[1..], at.lines);
    OneBlankBehind(at.rest, 1);
    BarAhead(read, at, on, a);
    GoOnExactly(read, sc, on, half, false, Ahead(read, sc, on), t);
  }

  /** A word behind an ampersand starts with the character that the ampersand hides. */
  lemma AmpersandAhead(read: Reader, at: Scan, on: bool, rest: string, a: Counted)
    requires at.rest != "" && at.rest[0] == '&' && rest == DropBlank(at.rest[1..]) && (on || rest != "")
    requires a == Ahead(read, at, on) && a.Counted?
    ensures var b := Ahead(read, Scan(rest, at.lines), on);
            b.Counted? && (rest == "" || !IsDelimiter(rest[0]) ==> a.more == 1 + b.more)
  {
    AmpersandDelims(at.rest, on, rest);
    if rest == "" {
      NothingFull(rest);
    } else {
      FullBehind(rest, on);
    }
  }

  lemma AmpersandExactly(read: Reader, at: Scan, on: bool, rest: string, a: Counted, t: Turn)
    requires ScanOk(at) && at.rest != "" && at.rest[0] == '&' && rest == DropBlank(at.rest[1..]) && (on || rest != "")
    requires a == Ahead(read, at, on) && a.Counted? && t == GoOn(read, Scan(rest, at.lines), on, true, true)
    ensures ExactBehind(read, a, t)
  {
    BehindAmpersand(at, rest);
    AmpersandAhead(read, at, on, rest, a);
    GoOnExactly(read, Scan(rest, at.lines), on, true, true, Ahead(read, Scan(rest, at.lines), on), t);
  }

  lemma BehindWordExactly(read: Reader, at: Scan, on: bool, firstHalf: bool, a: Counted, t: Turn)
    requires ScanOk(at) && a == Ahead(read, at, on) && a.Counted? && t == BehindWord(read, at, on, firstHalf)
    ensures ExactBehind(read, a, t)
  {
    if at.rest == "" {
      NothingFull("");
    } else if at.rest[0] == '|' {
      BarExactly(read, at, on, false, a, t);
    } else if at.rest[0] == '!' && firstHalf {
      BarExactly(read, at, on, true, a, t);
    } else if at.rest[0] == '&' && firstHalf {
      if on || DropBlank(at.rest[1..]) != "" {
        AmpersandExactly(read, at, on, DropBlank(at.rest[1..]), a, t);
      } else {
        AmpersandDelims(at.rest, on, "");
      }
    }
  }

  /** The word at the start of rest takes up no delimiter. */
  lemma WordIsPlain(words: seq<Word>, rest: string, q: nat)
    requires PlainWords(words) && OneBlank(rest) && (rest != "" ==> rest[0] != ' ')
    requires Lookup(words, rest, 0).0 != -1 && q == Lookup(words, rest, 0).1
    ensures rest != "" && 1 <= q <= |rest| && PlainBetween(rest, 0, q) && OneBlank(rest[q..])
  {
    WordMoves(words, rest);
    ParseIsPlain(words, rest, 0, L_NONE, L_NONE, -1, q);
    OneBlankBehind(rest, q);
  }

  lemma BehindPlainWord(read: Reader, rest: string, lines: seq<string>, on: bool, firstHalf: bool, q: nat, a: Counted,
                        t: Turn)
    requires AllNormal(lines) && 1 <= q <= |rest| && PlainBetween(rest, 0, q) && OneBlank(rest[q..])
    requires a == Ahead(read, Scan(rest, lines), on) && a.Counted?
    requires t == match CheckContinuation(read, Scan(rest[q..], lines), on)
                  case Astray => Lost
                  case Continued(at, more) => BehindWord(read, at, more, firstHalf)
    ensures ExactBehind(read, a, t)
  {
    PlainAhead(read, Scan(rest, lines), on, q);
    var behind := Scan(rest[q..], lines);
    var c := CheckContinuation(read, behind, on);
    if c.Continued? {
      ContinuingExactly(read, behind, on, c);
      CheckContinuationOk(read, behind, on, c);
      BehindWordExactly(read, c.sc, c.goesOn, firstHalf, a, t);
    }
  }

  /** Where no word is found the turn says so. */
  lemma OneWordStarts(words: seq<Word>, read: Reader, sc: Scan, on: bool, firstHalf: bool, rest: string, i: int,
                      t: Turn)
    requires ScanOk(sc) && PlainWords(words) && rest == DropBlank(sc.rest) && i == Lookup(words, rest, 0).0
    requires t == OneWord(words, read, sc, on, firstHalf).1
    ensures if i == -1 then t == Unrecognized else StartsPlain(sc)
  {
    if i != -1 {
      DropBlankOk(sc.rest);
      WordIsPlain(words, rest, Lookup(words, rest, 0).1);
    }
  }

  lemma BlankAhead(read: Reader, sc: Scan, on: bool, rest: string)
    requires rest == DropBlank(sc.rest)
    ensures Ahead(read, Scan(rest, sc.lines), on) == Ahead(read, sc, on)
  {
    PlainAhead(read, sc, on, |sc.rest| - |rest|);
  }

  lemma OneWordExactly(words: seq<Word>, read: Reader, sc: Scan, on: bool, firstHalf: bool, a: Counted, t: Turn)
    requires PlainWords(words) && ScanOk(sc) && a == Ahead(read, sc, on) && a.Counted?
    requires t == OneWord(words, read, sc, on, firstHalf).1 && t != Unrecognized
    ensures ExactBehind(read, a, t)
  {
    var rest := DropBlank(sc.rest);
    var q := Lookup(words, rest, 0).1;
    DropBlankOk(sc.rest);
    WordIsPlain(words, rest, q);
    BlankAhead(read, sc, on, rest);
    BehindPlainWord(read, rest, sc.lines, on, firstHalf, q, a, t);
  }

  predicate ExactTurn(read: Reader, sc: Scan, on: bool, t: Turn) {
    ScanOk(sc) && Ahead(read, sc, on).Counted? ==>
      ExactBehind(read, Ahead(read, sc, on), t) && (t.Going? || t.Ended? ==> StartsPlain(sc))
  }

  lemma ExactTurnOk(words: seq<Word>, read: Reader, sc: Scan, on: bool, firstHalf: bool, t: Turn)
    requires PlainWords(words) && t == OneWord(words, read, sc, on, firstHalf).1
    ensures ExactTurn(read, sc, on, t)
  {
    if ScanOk(sc) && Ahead(read, sc, on).Counted? {
      var rest := DropBlank(sc.rest);
      OneWordStarts(words, read, sc, on, firstHalf, rest, Lookup(words, rest, 0).0, t);
      if t != Unrecognized {
        OneWordExactly(words, read, sc, on, firstHalf, Ahead(read, sc, on), t);
      }
    }
  }

  ghost predicate ExactTurns(read: Reader, turn: Turner) {
    forall sc, on, firstHalf :: ExactTurn(read, sc, on, turn(sc, on, firstHalf).1)
  }

  lemma TurnsAreExact(words: seq<Word>, read: Reader)
    requires PlainWords(words)
    ensures ExactTurns(read, TurnerFor(words, read))
  {
    forall sc: Scan, on: bool, firstHalf: bool
      ensures ExactTurn(read, sc, on, OneWord(words, read, sc, on, firstHalf).1)
    {
      ExactTurnOk(words, read, sc, on, firstHalf, OneWord(words, read, sc, on, firstHalf).1);
    }
  }

  /** One index more is stored than there are delimiters ahead, but for those left where it ends. */
  lemma {:induction false} ConvertExactly(read: Reader, turn: Turner, sc: Scan, on: bool, firstHalf: bool, a: Counted,
                                          v: Converted)
    requires ExactTurns(read, turn) && ScanOk(sc) && a == Ahead(read, sc, on) && a.Counted?
    requires v == Convert(turn, sc, on, firstHalf) && v.Stored?
    ensures var b := CountOn(read, v.goesOn, v.sc.lines);
            StartsPlain(sc) && b.Counted? && |v.list| + b.more == 1 + a.more
    decreases |sc.lines|, |sc.rest|
  {
    var (i, t) := turn(sc, on, firstHalf);
    assert ExactTurn(read, sc, on, t);
    if t.Going? {
      ConvertExactly(read, turn, t.sc, t.goesOn, firstHalf && !t.half, Ahead(read, t.sc, t.goesOn),
                     Convert(turn, t.sc, t.goesOn, firstHalf && !t.half));
    }
  }

  // ---------------------------------------------------------------- one constraint

  /** How many lines that are a backslash alone the constraint on this line goes on with. */
  function LoneLines(read: Reader, sc: Scan): nat {
    Lones(read, GoesOn(sc.rest), sc.lines)
  }

  lemma AheadOfCut(read: Reader, sc: Scan, c: Counted)
    requires c == CountWords(read, sc)
    ensures Ahead(read, Scan(Cut(sc.rest), sc.lines), GoesOn(sc.rest)) == c
  {
    CutAndFull(sc.rest);
  }

  lemma ConstraintIsExact(words: seq<Word>, read: Reader, sc: Scan, c: Counted, v: Converted)
    requires ScanOk(sc) && Normal(sc.rest) && PlainWords(words)
    requires c == CountWords(read, sc) && c.Counted? && v == ConvertConstraint(words, read, sc) && v.Stored?
    ensures var b := CountOn(read, v.goesOn, v.sc.lines); b.Counted? && |v.list| + b.more == 1 + c.more
  {
    AheadOfCut(read, sc, c);
    CutOk(sc.rest);
    TurnsAreExact(words, read);
    ConvertExactly(read, TurnerFor(words, read), Scan(Cut(sc.rest), sc.lines), GoesOn(sc.rest), true, c, v);
  }

  lemma ConstraintLones(words: seq<Word>, read: Reader, sc: Scan, v: Converted)
    requires v == ConvertConstraint(words, read, sc) && v.Stored?
    ensures LoneLines(read, sc) == (if v.goesOn then 1 else 0) + Lones(read, v.goesOn, v.sc.lines)
  {
    TurnsKeepLones(words, read);
    ConvertLones(read, TurnerFor(words, read), Scan(Cut(sc.rest), sc.lines), GoesOn(sc.rest), true, v);
  }

  /** One constraint, sized by the counting pass and converted from the same line: it never stores more indices than
      were counted, check_continuation never goes astray, and both passes end at the same place if and only if the
      constraint does not go on with a lone backslash. If it does, the counting pass has still to come to the same end
      over the lines behind. If no name holds a delimiter, what is stored and what is still to be counted then is
      exactly what was counted. */
  lemma ConstraintFits(words: seq<Word>, read: Reader, sc: Scan, c: Counted, v: Converted)
    requires ScanOk(sc) && Normal(sc.rest)
    requires c == CountWords(read, sc) && c.Counted? && v == ConvertConstraint(words, read, sc)
    ensures v.Failed? ==> !v.lost
    ensures v.Stored? ==>
              var b := CountOn(read, v.goesOn, v.sc.lines);
              && b.Counted? && b.end == c.end && |v.list| + b.more <= 1 + c.more
              && (PlainWords(words) ==> |v.list| + b.more == 1 + c.more)
              && (v.sc == c.end <==> LoneLines(read, sc) == 0) && (v.goesOn <==> LoneLines(read, sc) > 0)
              && ScanOk(v.sc)
  {
    CountsFromStart(read, sc, c);
    ConvertFollows(words, read, Scan(Cut(sc.rest), sc.lines), GoesOn(sc.rest), true, Counted(c.more + 1, c.end));
    if v.Stored? {
      ConstraintLones(words, read, sc, v);
      if PlainWords(words) {
        ConstraintIsExact(words, read, sc, c, v);
      }
    }
  }

  lemma {:induction false} CountOnKeeps(read: Reader, goesOn: bool, lines: seq<string>)
    requires AllNormal(lines)
    ensures var c := CountOn(read, goesOn, lines); c.Counted? ==> AllNormal(c.end.lines)
    decreases |lines|
  {
    if goesOn && read(lines).Line? {
      CountOnKeeps(read, GoesOn(read(lines).sc.rest), read(lines).sc.lines);
    }
  }

  // ---------------------------------------------------------------- the pieces of a constraint

  /** Behind a lone backslash the next constraint that is converted starts on the line that the counting pass goes on
      with. */
  lemma PieceBehind(read: Reader, lines: seq<string>)
    requires CountOn(read, true, lines).Counted?
    ensures read(lines).Line? && CountWords(read, read(lines).sc) == CountOn(read, true, lines)
    ensures Lones(read, true, lines)
         == (if read(lines).sc.rest == "\\" then 1 else 0) + LoneLines(read, read(lines).sc)
  {
  }

  /** A lone backslash is no constraint. */
  lemma LoneIsNone(words: seq<Word>, read: Reader, sc: Scan)
    requires sc.rest == "\\"
    ensures ConvertConstraint(words, read, sc).Failed?
  {
    CutToNothing(sc.rest);
    NothingIsNoWord(words, read, sc.lines, true, true);
  }

  // ---------------------------------------------------------------- one constraint for each pass

  predicate EndsLine(sc: Scan, end: Scan) {
    end.rest == "" && |end.lines| <= |sc.lines|
  }

  function Refuse(sc: Scan): Counted {
    Refused
  }

  function FailAt(sc: Scan): Converted {
    Failed(false)
  }

  type Counter = count: Scan -> Counted | forall sc :: count(sc).Counted? ==> EndsLine(sc, count(sc).end) witness Refuse

  type Converter = convert: Scan -> Converted |
      forall sc :: convert(sc).Stored? ==> EndsLine(sc, convert(sc).sc) witness FailAt

  function CounterFor(read: Reader): (count: Counter)
    ensures forall sc :: count(sc) == CountWords(read, sc)
  {
    sc => CountWords(read, sc)
  }

  function ConverterFor(words: seq<Word>, read: Reader): (convert: Converter)
    ensures forall sc :: convert(sc) == ConvertConstraint(words, read, sc)
  {
    sc => ConvertConstraint(words, read, sc)
  }

  function LonesFor(read: Reader): (lones: Scan -> nat)
    ensures forall sc :: lones(sc) == LoneLines(read, sc)
  {
    sc => LoneLines(read, sc)
  }

  /** What is stored, and what of a count of a words is still to come as a constraint with b words counted. */
  predicate Shared(stored: nat, a: nat, b: nat, exact: bool) {
    stored + b <= 1 + a && (exact ==> stored + b == 1 + a)
  }

  /** What the passes make of one line. If the conversion ends it early, the rest starts on the next line and is counted
      to the same end. */
  predicate AgreeAt(next: KeywordScanner, keys: seq<Keyword>, count: Counter, lones: Scan -> nat, sc: Scan,
                    v: Converted, exact: bool) {
    var c := count(sc);
    c.Counted? && v.Stored? ==>
      && v.list != [] && ScanOk(v.sc) && ScanOk(c.end) && sc.rest != "\\"
      && if !v.goesOn then v.sc == c.end && lones(sc) == 0 && Shared(|v.list|, c.more, 0, exact)
         else
           var f := next(keys, v.sc);
           var b := count(f.sc);
           && f.keyword == -1 && b.Counted? && b.end == c.end && Shared(|v.list|, c.more, b.more, exact)
           && lones(sc) == 1 + (if f.sc.rest == "\\" then 1 else 0) + lones(f.sc)
  }

  ghost predicate Agreeing(next: KeywordScanner, keys: seq<Keyword>, count: Counter, convert: Converter,
                           lones: Scan -> nat, exact: bool) {
    forall sc {:trigger AgreeAt(next, keys, count, lones, sc, convert(sc), exact)} ::
      ScanOk(sc) && Normal(sc.rest) ==> AgreeAt(next, keys, count, lones, sc, convert(sc), exact)
  }

  lemma ConstraintAgrees(next: KeywordScanner, keys: seq<Keyword>, words: seq<Word>, read: Reader, count: Counter,
                         lones: Scan -> nat, sc: Scan, v: Converted, exact: bool)
    requires read == ReaderFor(next, keys) && count == CounterFor(read) && lones == LonesFor(read)
    requires (exact ==> PlainWords(words)) && ScanOk(sc) && Normal(sc.rest) && v == ConvertConstraint(words, read, sc)
    ensures AgreeAt(next, keys, count, lones, sc, v, exact)
  {
    var c := count(sc);
    if c.Counted? && v.Stored? {
      ConstraintFits(words, read, sc, c, v);
      ConstraintLones(words, read, sc, v);
      CountOnKeeps(read, GoesOn(sc.rest), sc.lines);
      if sc.rest == "\\" {
        LoneIsNone(words, read, sc);
      }
      if v.goesOn {
        PieceBehind(read, v.sc.lines);
        assert v.sc == Scan("", v.sc.lines) && read(v.sc.lines) == Line(next(keys, v.sc).sc);
      }
    }
  }

  lemma PassesAgreeOnConstraints(next: KeywordScanner, keys: seq<Keyword>, words: seq<Word>, read: Reader, exact: bool)
    requires read == ReaderFor(next, keys) && (exact ==> PlainWords(words))
    ensures Agreeing(next, keys, CounterFor(read), ConverterFor(words, read), LonesFor(read), exact)
  {
    var count, convert, lones := CounterFor(read), ConverterFor(words, read), LonesFor(read);
    forall sc | ScanOk(sc) && Normal(sc.rest) ensures AgreeAt(next, keys, count, lones, sc, convert(sc), exact) {
      ConstraintAgrees(next, keys, words, read, count, lones, sc, convert(sc), exact);
    }
  }
}
