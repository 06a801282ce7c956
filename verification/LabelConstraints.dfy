/** labelcomp.c, do_combinations: one combination constraint, which may go on over several lines, as
    the counting pass sizes it and as the conversion pass stores it. */
module LabelConstraints {

  import opened LabelScan
  import opened LabelWords

  // ---------------------------------------------------------------- counting pass

  /** The words the counting pass sees in a line beyond the first: one for each delimiter, but none
      for an ampersand at the end of the line. An ampersand also hides what comes right behind it. */
  function Delims(s: string): nat {
    if s == "" then 0
    else if s[0] == '|' || s[0] == '!' then 1 + Delims(s[1..])
    else if s[0] == '&' then
      (var t := DropBlank(s[1..]);
       if t == "" then 0 else 1 + Delims(t[1..]))
    else Delims(s[1..])
  }

  datatype Counted = Refused | Counted(more: nat, end: Scan)

  /** The words on the lines that continue the current one, and where the scan ends. */
  function CountOn(read: Reader, goesOn: bool, lines: seq<string>): (c: Counted)
    ensures c.Counted? ==> c.end.rest == "" && |c.end.lines| <= |lines| && (goesOn ==> |c.end.lines| < |lines|)
    decreases |lines|
  {
    if !goesOn then Counted(0, Scan("", lines))
    else
      match read(lines)
      case NoLine => Refused
      case Line(sc) =>
        match CountOn(read, GoesOn(sc.rest), sc.lines)
        case Refused => Refused
        case Counted(more, end) => Counted(Delims(sc.rest) + more, end)
  }

  /** The words of the constraint that starts on this line, beyond the first. */
  function CountWords(read: Reader, sc: Scan): (c: Counted)
    ensures c.Counted? ==> c.end.rest == "" && |c.end.lines| <= |sc.lines|
  {
    match CountOn(read, GoesOn(sc.rest), sc.lines)
    case Refused => Refused
    case Counted(more, end) => Counted(Delims(sc.rest) + more, end)
  }

  // ---------------------------------------------------------------- conversion pass

  /** One turn of the loop over the words of a constraint: word i is stored, and then the constraint
      ends or another word must follow. half tells that the second list starts behind word i. */
  datatype Turn =
    | Ended(half: bool, sc: Scan, goesOn: bool)
    | Going(half: bool, onlyWith: bool, sc: Scan, goesOn: bool)
    | Unrecognized
    | Lost              // check_continuation went astray

  predicate Shorter(a: Scan, b: Scan) {
    |a.lines| < |b.lines| || (|a.lines| == |b.lines| && |a.rest| < |b.rest|)
  }

  /** Behind a delimiter, the next word may be on the next line. */
  function GoOn(read: Reader, sc: Scan, goesOn: bool, half: bool, onlyWith: bool): (t: Turn)
    ensures t.Going? ==> |t.sc.lines| < |sc.lines| || (t.sc.lines == sc.lines && |t.sc.rest| <= |sc.rest|)
    ensures t.Going? || t.Lost?
  {
    match CheckContinuation(read, sc, goesOn)
    case Astray => Lost
    case Continued(at, more) => Going(half, onlyWith, at, more)
  }

  /** Behind a word: the end, a bar, or the one delimiter between the halves. */
  function BehindWord(read: Reader, at: Scan, goesOn: bool, firstHalf: bool): (t: Turn)
    ensures t.Going? ==> Shorter(t.sc, at)
    ensures t.Ended? ==> t.sc == Scan("", at.lines)
    ensures t.Going? && t.half ==> firstHalf
  {
    if at.rest == "" then (if firstHalf then Unrecognized else Ended(false, at, goesOn))
    else
      var rest := at.rest[1..];
      if at.rest[0] == '|' then GoOn(read, Scan(rest, at.lines), goesOn, false, false)
      else if at.rest[0] != '&' && at.rest[0] != '!' then Unrecognized
      else if !firstHalf then Unrecognized
      else if at.rest[0] == '!' then GoOn(read, Scan(rest, at.lines), goesOn, true, false)
      else if !goesOn && DropBlank(rest) == "" then Ended(true, Scan("", at.lines), goesOn)
      else GoOn(read, Scan(DropBlank(rest), at.lines), goesOn, true, true)
  }

  function OneWord(words: seq<Word>, read: Reader, sc: Scan, goesOn: bool, firstHalf: bool): (r: (int, Turn))
    ensures TurnOk(sc, firstHalf, r.1)
  {
    var rest := DropBlank(sc.rest);
    var (i, q) := Lookup(words, rest, 0);
    if i == -1 then (i, Unrecognized)
    else match CheckContinuation(read, Scan(rest[q..], sc.lines), goesOn)
         case Astray => (i, Lost)
         case Continued(at, more) => (i, BehindWord(read, at, more, firstHalf))
  }

  /** What a constraint is converted to: the indices stored, where the second list starts among them,
      and whether the constraint is an ONLY_WITH; then the scan position and line_continues. */
  datatype Converted =
    | Stored(list: seq<int>, second: nat, onlyWith: bool, sc: Scan, goesOn: bool)
    | Failed(lost: bool)

  predicate TurnOk(sc: Scan, firstHalf: bool, t: Turn) {
    && (t.Going? ==> Shorter(t.sc, sc) && (t.half ==> firstHalf))
    && (t.Ended? ==> t.sc.rest == "" && |t.sc.lines| <= |sc.lines|)
  }

  function NoTurn(sc: Scan, goesOn: bool, firstHalf: bool): (int, Turn) {
    (0, Unrecognized)
  }

  /** A turn of the loop, from a scan position, line_continues and first_half. */
  type Turner = turn: (Scan, bool, bool) -> (int, Turn) |
      forall sc, goesOn, firstHalf :: TurnOk(sc, firstHalf, turn(sc, goesOn, firstHalf).1) witness NoTurn

  function TurnerFor(words: seq<Word>, read: Reader): (turn: Turner)
    ensures forall sc, goesOn, firstHalf :: turn(sc, goesOn, firstHalf) == OneWord(words, read, sc, goesOn, firstHalf)
  {
    (sc, goesOn, firstHalf) => OneWord(words, read, sc, goesOn, firstHalf)
  }

  /** The loop over the words of a constraint. */
  function Convert(turn: Turner, sc: Scan, goesOn: bool, firstHalf: bool): (v: Converted)
    ensures v.Stored? ==> v.list != [] && v.sc.rest == "" && |v.sc.lines| <= |sc.lines|
    decreases |sc.lines|, |sc.rest|
  {
    match turn(sc, goesOn, firstHalf)
    case (i, Unrecognized) => Failed(false)
    case (i, Lost) => Failed(true)
    case (i, Ended(half, end, on)) => Stored([i], 1, half, end, on)
    case (i, Going(half, onlyWith, at, on)) =>
      match Convert(turn, at, on, firstHalf && !half)
      case Failed(lost) => Failed(lost)
      case Stored(list, second, only, end, more) =>
        if half then Stored([i] + list, 1, onlyWith, end, more)
        else Stored([i] + list, 1 + second, only, end, more)
  }

  /** The whole constraint on the line found by next_keyword: cut the backslash off and start. */
  function ConvertConstraint(words: seq<Word>, read: Reader, sc: Scan): (v: Converted)
    ensures v.Stored? ==> v.list != [] && v.sc.rest == "" && |v.sc.lines| <= |sc.lines|
  {
    Convert(TurnerFor(words, read), Scan(Cut(sc.rest), sc.lines), GoesOn(sc.rest), true)
  }

  // ---------------------------------------------------------------- the passes agree

  lemma {:induction false} DelimsStep(s: string)
    requires s != ""
    ensures Delims(s[1..]) <= Delims(s) <= 1 + Delims(s[1..])
    decreases |s|
  {
    var r := s[1..];
    if s[0] == '&' && r != "" {
      if r[0] == ' ' {
        var t := r[1..];
        assert DropBlank(r) == t && Delims(r) == Delims(t);
        if t != "" {
          DelimsStep(t);
        }
      } else {
        assert DropBlank(r) == r;
        DelimsStep(r);
      }
    }
  }

  lemma {:induction false} DelimsBehind(s: string, k: nat)
    requires k <= |s|
    ensures Delims(s[k..]) <= Delims(s)
    decreases k
  {
    if k > 0 {
      DelimsStep(s);
      DelimsBehind(s[1..], k - 1);
      assert s[1..][k - 1..] == s[k..];
    }
  }

  /** The text the counting pass sees where the conversion pass, which has cut the backslash off, sees
      rest. */
  function Full(rest: string, goesOn: bool): string {
    if goesOn then rest + "\\" else rest
  }

  /** The delimiters counted from here to the end of the constraint. */
  function Ahead(read: Reader, sc: Scan, goesOn: bool): Counted {
    match CountOn(read, goesOn, sc.lines)
    case Refused => Refused
    case Counted(more, end) => Counted(Delims(Full(sc.rest, goesOn)) + more, end)
  }

  lemma DropBlankKeepsDelims(rest: string, goesOn: bool)
    ensures Delims(Full(DropBlank(rest), goesOn)) <= Delims(Full(rest, goesOn))
  {
    var k := |rest| - |DropBlank(rest)|;
    DelimsBehind(Full(rest, goesOn), k);
    assert Full(rest, goesOn)[k..] == Full(DropBlank(rest), goesOn);
  }

  lemma CutAndFull(line: string)
    ensures Full(Cut(line), GoesOn(line)) == line
  {
  }

  lemma ReadOnKeepsAhead(read: Reader, lines: seq<string>, a: Counted, c: Continued)
    requires a == CountOn(read, true, lines) && a.Counted?
    requires c == ReadOn(read, lines)
    ensures c.Continued? && Ahead(read, c.sc, c.goesOn) == a
  {
    CutAndFull(read(lines).sc.rest);
  }

  /** Not more delimiters are ahead at b than at a, and both see the same end. */
  predicate NoMore(b: Counted, a: Counted) {
    b.Counted? && a.Counted? && b.more <= a.more && b.end == a.end
  }

  lemma StayingKeepsAhead(read: Reader, sc: Scan, goesOn: bool, a: Counted)
    requires a == Ahead(read, sc, goesOn) && a.Counted?
    ensures NoMore(Ahead(read, Scan(DropBlank(sc.rest), sc.lines), goesOn), a)
  {
    DropBlankKeepsDelims(sc.rest, goesOn);
  }

  /** Reading on, or dropping a blank, finds no delimiters that were not counted. */
  lemma ContinuingKeepsAhead(read: Reader, sc: Scan, goesOn: bool, a: Counted, c: Continued)
    requires a == Ahead(read, sc, goesOn) && a.Counted?
    requires c == CheckContinuation(read, sc, goesOn)
    ensures c.Continued? && NoMore(Ahead(read, c.sc, c.goesOn), a)
  {
    if goesOn && DropBlank(sc.rest) == "" {
      var b := CountOn(read, true, sc.lines);
      assert b.Counted? && b.more <= a.more && b.end == a.end;
      ReadOnKeepsAhead(read, sc.lines, b, c);
    } else {
      StayingKeepsAhead(read, sc, goesOn, a);
    }
  }

  lemma BehindKeepsAhead(read: Reader, sc: Scan, goesOn: bool, k: nat)
    requires k <= |sc.rest| && Ahead(read, sc, goesOn).Counted?
    ensures NoMore(Ahead(read, Scan(sc.rest[k..], sc.lines), goesOn), Ahead(read, sc, goesOn))
  {
    DelimsBehind(Full(sc.rest, goesOn), k);
    assert Full(sc.rest, goesOn)[k..] == Full(sc.rest[k..], goesOn);
  }

  /** A word is due at sc, and fewer delimiters than a counted are ahead behind its first character. */
  predicate Follows(read: Reader, sc: Scan, goesOn: bool, a: Counted) {
    var rest := DropBlank(sc.rest);
    var b := Ahead(read, sc, goesOn);
    && ScanOk(sc)
    && a.Counted? && b.Counted? && b.end == a.end
    && (rest != "" ==> 1 + Delims(Full(rest[1..], goesOn)) + CountOn(read, goesOn, sc.lines).more <= a.more)
  }

  lemma FewerFollow(read: Reader, sc: Scan, goesOn: bool, a: Counted, b: Counted)
    requires ScanOk(sc) && b == Ahead(read, sc, goesOn) && b.Counted?
    requires a.Counted? && b.end == a.end && b.more < a.more
    ensures Follows(read, sc, goesOn, a)
  {
    var rest := DropBlank(sc.rest);
    if rest != "" {
      DropBlankKeepsDelims(sc.rest, goesOn);
      DelimsStep(Full(rest, goesOn));
      assert Full(rest, goesOn)[1..] == Full(rest[1..], goesOn);
    }
  }

  /** Behind a bar or an exclamation mark. */
  lemma BarFollows(read: Reader, at: Scan, on: bool, a: Counted, c: Continued)
    requires ScanOk(at) && at.rest != "" && (at.rest[0] == '|' || at.rest[0] == '!')
    requires a == Ahead(read, at, on) && a.Counted?
    requires c == CheckContinuation(read, Scan(at.rest[1..], at.lines), on)
    ensures c.Continued? && Follows(read, c.sc, c.goesOn, a)
  {
    var sc := Scan(at.rest[1..], at.lines);
    OneBlankBehind(at.rest, 1);
    assert Full(at.rest, on)[1..] == Full(sc.rest, on);
    var b := Ahead(read, sc, on);
    assert b.more + 1 == a.more;
    ContinuingKeepsAhead(read, sc, on, b, c);
    CheckContinuationOk(read, sc, on, c);
    FewerFollow(read, c.sc, c.goesOn, a, Ahead(read, c.sc, c.goesOn));
  }

  /** What is behind an ampersand, in the text the counting pass sees. */
  lemma FullBehind(rest: string, on: bool)
    requires rest != ""
    ensures Full(rest, on)[0] == rest[0] && Full(rest, on)[1..] == Full(rest[1..], on)
  {
  }

  lemma DropBlankFull(rest: string, on: bool)
    ensures DropBlank(Full(rest, on)) == Full(DropBlank(rest), on)
  {
    if rest != "" {
      FullBehind(rest, on);
    }
  }

  lemma AmpersandDelims(rest: string, on: bool, t: string)
    requires rest != "" && rest[0] == '&' && t == DropBlank(rest[1..])
    ensures t != "" ==> Delims(Full(rest, on)) == 1 + Delims(Full(t[1..], on))
    ensures t == "" ==> Delims(Full(rest, on)) == if on then 1 else 0
  {
    FullBehind(rest, on);
    DropBlankFull(rest[1..], on);
    if t != "" {
      FullBehind(t, on);
    } else if on {
      assert Full(t, on) == "\\" && Full(t, on)[1..] == "";
    }
  }

  lemma BehindAmpersand(at: Scan, rest: string)
    requires ScanOk(at) && at.rest != "" && rest == DropBlank(at.rest[1..])
    ensures ScanOk(Scan(rest, at.lines)) && (rest != "" ==> rest[0] != ' ')
  {
    OneBlankBehind(at.rest, 1);
    DropBlankOk(at.rest[1..]);
  }

  lemma FirstIsSpent(read: Reader, rest: string, lines: seq<string>, on: bool, a: Counted, b: Counted)
    requires ScanOk(Scan(rest, lines)) && rest != "" && rest[0] != ' '
    requires b == CountOn(read, on, lines) && b.Counted?
    requires a == Counted(1 + Delims(Full(rest[1..], on)) + b.more, b.end)
    ensures Follows(read, Scan(rest, lines), on, a)
  {
  }

  /** Behind an ampersand with something behind it on the line. */
  lemma AmpersandHere(read: Reader, at: Scan, on: bool, a: Counted, rest: string, c: Continued)
    requires ScanOk(at) && at.rest != "" && at.rest[0] == '&' && rest == DropBlank(at.rest[1..]) && rest != ""
    requires a == Ahead(read, at, on) && a.Counted?
    requires c == CheckContinuation(read, Scan(rest, at.lines), on)
    ensures c.Continued? && Follows(read, c.sc, c.goesOn, a)
  {
    BehindAmpersand(at, rest);
    AmpersandDelims(at.rest, on, rest);
    FirstIsSpent(read, rest, at.lines, on, a, CountOn(read, on, at.lines));
  }

  /** Behind an ampersand at the end of a line that goes on. */
  lemma AmpersandOn(read: Reader, at: Scan, a: Counted, c: Continued)
    requires ScanOk(at) && at.rest != "" && at.rest[0] == '&' && DropBlank(at.rest[1..]) == ""
    requires a == Ahead(read, at, true) && a.Counted?
    requires c == CheckContinuation(read, Scan("", at.lines), true)
    ensures c.Continued? && Follows(read, c.sc, c.goesOn, a)
  {
    AmpersandDelims(at.rest, true, "");
    var b := CountOn(read, true, at.lines);
    ReadOnKeepsAhead(read, at.lines, b, c);
    CheckContinuationOk(read, Scan("", at.lines), true, c);
    FewerFollow(read, c.sc, c.goesOn, a, b);
  }

  lemma BarTurn(read: Reader, at: Scan, on: bool, half: bool, a: Counted, t: Turn)
    requires ScanOk(at) && at.rest != "" && (at.rest[0] == '|' || at.rest[0] == '!')
    requires a == Ahead(read, at, on) && a.Counted?
    requires t == GoOn(read, Scan(at.rest[1..], at.lines), on, half, false)
    ensures t.Going? && Follows(read, t.sc, t.goesOn, a)
  {
    BarFollows(read, at, on, a, CheckContinuation(read, Scan(at.rest[1..], at.lines), on));
  }

  lemma AmpersandTurn(read: Reader, at: Scan, on: bool, a: Counted, rest: string, t: Turn)
    requires ScanOk(at) && at.rest != "" && at.rest[0] == '&' && rest == DropBlank(at.rest[1..]) && (on || rest != "")
    requires a == Ahead(read, at, on) && a.Counted?
    requires t == GoOn(read, Scan(rest, at.lines), on, true, true)
    ensures t.Going? && Follows(read, t.sc, t.goesOn, a)
  {
    if rest != "" {
      AmpersandHere(read, at, on, a, rest, CheckContinuation(read, Scan(rest, at.lines), on));
    } else {
      AmpersandOn(read, at, a, CheckContinuation(read, Scan(rest, at.lines), on));
    }
  }

  lemma BehindWordFollows(read: Reader, at: Scan, on: bool, firstHalf: bool, a: Counted, t: Turn)
    requires ScanOk(at) && a == Ahead(read, at, on) && a.Counted?
    requires t == BehindWord(read, at, on, firstHalf)
    ensures !t.Lost?
    ensures t.Going? ==> Follows(read, t.sc, t.goesOn, a)
    ensures t.Ended? ==> t.sc == Scan("", at.lines) && t.goesOn == on
  {
    if at.rest == "" {
    } else if at.rest[0] == '|' {
      BarTurn(read, at, on, false, a, t);
    } else if at.rest[0] == '!' && firstHalf {
      BarTurn(read, at, on, true, a, t);
    } else if at.rest[0] == '&' && firstHalf && (on || DropBlank(at.rest[1..]) != "") {
      AmpersandTurn(read, at, on, a, DropBlank(at.rest[1..]), t);
    }
  }

  /** A word found behind a blank takes up text: even an empty name needs a blank behind it. */
  lemma WordMoves(words: seq<Word>, rest: string)
    requires rest != "" ==> rest[0] != ' '
    requires Lookup(words, rest, 0).0 != -1
    ensures rest != "" && Lookup(words, rest, 0).1 >= 1
  {
    var first := FindWord(words, rest, 0, L_NONE, L_NONE, 0);
    assert rest != "" && first.Some? && first.value.1 >= 1;
  }

  /** The constraint ends here for the counting pass as well, or it is still to count the lines that go on, among those
      of a. */
  predicate EndsAt(read: Reader, goesOn: bool, lines: seq<string>, a: Counted) {
    var c := CountOn(read, goesOn, lines);
    c.Counted? && a.Counted? && c.end == a.end && c.more <= a.more
  }

  lemma TurnFollows(read: Reader, behind: Scan, on: bool, firstHalf: bool, a: Counted, b: Counted, t: Turn)
    requires ScanOk(behind) && b == Ahead(read, behind, on) && NoMore(b, a)
    requires t == match CheckContinuation(read, behind, on)
                  case Astray => Lost
                  case Continued(at, more) => BehindWord(read, at, more, firstHalf)
    ensures !t.Lost?
    ensures t.Going? ==> Follows(read, t.sc, t.goesOn, a)
    ensures t.Ended? ==> t.sc.rest == "" && ScanOk(t.sc) && EndsAt(read, t.goesOn, t.sc.lines, a)
  {
    var c := CheckContinuation(read, behind, on);
    ContinuingKeepsAhead(read, behind, on, b, c);
    CheckContinuationOk(read, behind, on, c);
    BehindWordFollows(read, c.sc, c.goesOn, firstHalf, Ahead(read, c.sc, c.goesOn), t);
  }

  lemma BehindFirst(read: Reader, rest: string, lines: seq<string>, on: bool, q: nat, a: Counted)
    requires ScanOk(Scan(rest, lines)) && 1 <= q <= |rest|
    requires a == Ahead(read, Scan(rest[1..], lines), on) && a.Counted?
    ensures ScanOk(Scan(rest[q..], lines)) && NoMore(Ahead(read, Scan(rest[q..], lines), on), a)
  {
    OneBlankBehind(rest, q);
    assert rest[1..][q - 1..] == rest[q..];
    BehindKeepsAhead(read, Scan(rest[1..], lines), on, q - 1);
  }

  /** What one turn leaves ahead, seen from behind the first character of its word. */
  lemma OneWordFollows(words: seq<Word>, read: Reader, sc: Scan, on: bool, firstHalf: bool, rest: string, a: Counted,
                       t: Turn)
    requires ScanOk(sc) && rest == DropBlank(sc.rest) && rest != ""
    requires a == Ahead(read, Scan(rest[1..], sc.lines), on) && a.Counted?
    requires t == OneWord(words, read, sc, on, firstHalf).1
    ensures !t.Lost?
    ensures t.Going? ==> Follows(read, t.sc, t.goesOn, a)
    ensures t.Ended? ==> t.sc.rest == "" && ScanOk(t.sc) && EndsAt(read, t.goesOn, t.sc.lines, a)
  {
    DropBlankOk(sc.rest);
    var (i, q) := Lookup(words, rest, 0);
    if i != -1 {
      WordMoves(words, rest);
      BehindFirst(read, rest, sc.lines, on, q, a);
      var behind := Scan(rest[q..], sc.lines);
      TurnFollows(read, behind, on, firstHalf, a, Ahead(read, behind, on), t);
    }
  }

  /** From a place where a word is due: no more indices are stored than words were counted, even with those that are
      still to be counted where the scan ends, and it never goes astray. */
  lemma {:induction false} ConvertFollows(words: seq<Word>, read: Reader, sc: Scan, on: bool, firstHalf: bool,
                                          a: Counted)
    requires Follows(read, sc, on, a)
    ensures var v := Convert(TurnerFor(words, read), sc, on, firstHalf);
            && (v.Failed? ==> !v.lost)
            && (v.Stored? ==> v.sc.rest == "" && ScanOk(v.sc) && EndsAt(read, v.goesOn, v.sc.lines, a)
                              && |v.list| + CountOn(read, v.goesOn, v.sc.lines).more <= a.more)
    decreases |sc.lines|, |sc.rest|
  {
    var rest := DropBlank(sc.rest);
    var (i, t) := OneWord(words, read, sc, on, firstHalf);
    if rest != "" {
      var b := Ahead(read, Scan(rest[1..], sc.lines), on);
      OneWordFollows(words, read, sc, on, firstHalf, rest, b, t);
      if t.Going? {
        ConvertFollows(words, read, t.sc, t.goesOn, firstHalf && !t.half, b);
      }
    }
  }

  lemma CountsFromStart(read: Reader, sc: Scan, c: Counted)
    requires ScanOk(sc) && Normal(sc.rest) && c == CountWords(read, sc) && c.Counted?
    ensures Follows(read, Scan(Cut(sc.rest), sc.lines), GoesOn(sc.rest), Counted(c.more + 1, c.end))
  {
    CutOk(sc.rest);
    CutAndFull(sc.rest);
    FewerFollow(read, Scan(Cut(sc.rest), sc.lines), GoesOn(sc.rest), Counted(c.more + 1, c.end), c);
  }
}
