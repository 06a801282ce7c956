/** lplf.c, output: which characters of the line are printed as what, and in what order. */
module LplfText {
  import opened Lplf

  // ---------------------------------------------------------------- what is taken and what is shown

  /** One or two characters taken from the line, and what they come to on paper, the indent aside. */
  datatype Unit = Unit(taken: string, shown: string)

  /** The print head behind what is shown. */
  function NextCol(col: nat, shown: string): nat {
    if shown == "" || shown[0] == ESC then col
    else if shown[0] == CR then 0
    else if shown[0] == BS then (if col > 0 then col - 1 else 0)
    else col + |shown|
  }

  /** Spaces, one at least, up to the next multiple of 8. */
  predicate IsTab(col: nat, shown: string) {
    1 <= |shown| <= 8 && (col + |shown|) % 8 == 0 && forall k :: 0 <= k < |shown| ==> shown[k] == ' '
  }

  predicate Ordinary(c: char) {
    c != ESC && c != CR && c != BS && c != TAB && c != FF && c != NL
  }

  predicate OneShown(pr: Printer, c: char, col: nat, shown: string) {
    && (Ordinary(c) ==> shown == if pr.chrmap(c) then " " else [c])
    && (c == CR ==> shown == [CR])
    && (c == BS ==> shown == if col > 0 then [BS] else "")
    && (c == TAB ==> IsTab(col, shown))
    && (c == FF ==> shown == "")
    && (c == ESC ==> shown == if pr.chrmap(ESC) then " " else "")
    && c != NL
  }

  /** An unfiltered escape goes with the character behind it, as they are, or as a space if that one is filtered. */
  predicate UnitOk(pr: Printer, u: Unit, col: nat) {
    || (|u.taken| == 1 && OneShown(pr, u.taken[0], col, u.shown))
    || (|u.taken| == 2 && u.taken[0] == ESC && !pr.chrmap(ESC) && u.taken[1] != NL
        && u.shown == if pr.escmap(u.taken[1]) then " " else u.taken)
  }

  /** A form feed ends the line, and an escape stands alone only at the end of one. */
  predicate Final(pr: Printer, u: Unit) {
    u.taken == [FF] || (u.taken == [ESC] && !pr.chrmap(ESC))
  }

  predicate UnitsOk(pr: Printer, us: seq<Unit>, col: nat) {
    us != [] ==>
      && col < pr.linelen - pr.indent && UnitOk(pr, us[0], col) && (Final(pr, us[0]) ==> |us| == 1)
      && UnitsOk(pr, us[1..], NextCol(col, us[0].shown))
  }

  function Taken(us: seq<Unit>): string {
    if us == [] then "" else us[0].taken + Taken(us[1..])
  }

  /** The indent, for each character that is taken at column 0. */
  function Leads(pr: Printer, col: nat, taken: nat): string {
    if taken == 0 || col > 0 then "" else Spaces(pr.indent) + Leads(pr, col, taken - 1)
  }

  function Shown(pr: Printer, us: seq<Unit>, col: nat): string {
    if us == [] then ""
    else Leads(pr, col, |us[0].taken|) + us[0].shown + Shown(pr, us[1..], NextCol(col, us[0].shown))
  }

  function EndCol(us: seq<Unit>, col: nat): nat {
    if us == [] then col else EndCol(us[1..], NextCol(col, us[0].shown))
  }

  predicate Ejects(us: seq<Unit>) {
    us != [] && us[|us| - 1].taken == [FF]
  }

  /** The line length is reached, the line is over, or a form feed was taken. */
  predicate Stops(pr: Printer, us: seq<Unit>, col: nat, rest: string) {
    EndCol(us, col) >= pr.linelen - pr.indent || rest == "" || rest[0] == NL || Ejects(us)
  }

  // ---------------------------------------------------------------- the loop of output

  /** What the loop does from p on, in units. */
  predicate InUnits(pr: Printer, line: string, p: nat, col: nat, r: Stop, us: seq<Unit>) {
    && p <= r.p <= |line| && UnitsOk(pr, us, col) && line[p..r.p] == Taken(us) && r.text == Shown(pr, us, col)
    && Stops(pr, us, col, line[r.p..]) && r.eject == Ejects(us)
  }

  lemma CharIsShown(pr: Printer, c: char, col: nat)
    requires c != NL && (c == ESC ==> pr.chrmap(ESC))
    ensures var r := PrintChar(pr, c, col, false);
            OneShown(pr, c, col, r.text) && r.count == NextCol(col, r.text) && !r.wasescape && r.eject == (c == FF)
  {
  }

  lemma UnitFirst(pr: Printer, line: string, p: nat, q: nat, col: nat, u: Unit, r: Stop, more: Stop, us: seq<Unit>)
    requires TurnOk(pr, line, p, q, col, u)
    requires col < pr.linelen - pr.indent && InUnits(pr, line, q, NextCol(col, u.shown), more, us)
    requires r == more.(text := Leads(pr, col, |u.taken|) + u.shown + more.text)
    ensures InUnits(pr, line, p, col, r, [u] + us)
  {
    var all := [u] + us;
    assert all[1..] == us && all[0] == u;
    assert line[p..r.p] == line[p..q] + line[q..r.p];
    assert Taken(all) == u.taken + Taken(us);
    if us == [] {
      assert Ejects(all) == (u.taken == [FF]);
    } else {
      assert all[|all| - 1] == us[|us| - 1];
    }
  }

  lemma UnitLast(pr: Printer, line: string, p: nat, col: nat, u: Unit, r: Stop)
    requires p < |line| && u.taken == [line[p]] && UnitOk(pr, u, col) && col < pr.linelen - pr.indent
    requires r == Stop(Leads(pr, col, 1) + u.shown, p + 1, r.count, u.taken == [FF])
    requires u.taken == [FF] || p + 1 == |line| || line[p + 1] == NL
    ensures InUnits(pr, line, p, col, r, [u])
  {
    var all := [u];
    assert all[1..] == [];
    assert line[p..p + 1] == u.taken + "" == Taken(all);
    assert Shown(pr, all, col) == Leads(pr, col, 1) + u.shown + "" == r.text;
    assert line[p + 1..] != "" ==> line[p + 1..][0] == line[p + 1];
  }

  lemma LeadsOnce(pr: Printer, col: nat)
    ensures Leads(pr, col, 1) == Lead(pr, col)
  {
    assert Leads(pr, col, 0) == "";
    assert Spaces(pr.indent) + "" == Spaces(pr.indent);
  }

  lemma LeadsTwice(pr: Printer, col: nat, shown: string, more: string)
    ensures Lead(pr, col) + "" + (Lead(pr, col) + shown + more) == Leads(pr, col, 2) + shown + more
  {
    LeadsOnce(pr, col);
  }

  /** A character by itself, and what follows. */
  lemma OneTurn(pr: Printer, line: string, p: nat, col: nat) returns (u: Unit)
    requires p < |line| && Goes(pr, line, p, col, false) && line[p] != FF && (line[p] == ESC ==> pr.chrmap(ESC))
    ensures u.taken == [line[p]] && UnitOk(pr, u, col)
    ensures var more := Run(pr, line, p + 1, NextCol(col, u.shown), false, false);
            Run(pr, line, p, col, false, false) == more.(text := Leads(pr, col, 1) + u.shown + more.text)
  {
    CharIsShown(pr, line[p], col);
    LeadsOnce(pr, col);
    u := Unit([line[p]], PrintChar(pr, line[p], col, false).text);
  }

  /** A form feed, or an unfiltered escape with nothing behind it. */
  lemma LastTurn(pr: Printer, line: string, p: nat, col: nat) returns (u: Unit)
    requires p < |line| && Goes(pr, line, p, col, false)
    requires line[p] == FF || (line[p] == ESC && !pr.chrmap(ESC) && (p + 1 == |line| || line[p + 1] == NL))
    ensures u == Unit([line[p]], "") && UnitOk(pr, u, col)
    ensures Run(pr, line, p, col, false, false) == Stop(Leads(pr, col, 1) + "", p + 1, col, u.taken == [FF])
  {
    u := Unit([line[p]], "");
    LeadsOnce(pr, col);
    assert Run(pr, line, p + 1, col, line[p] == ESC, line[p] == FF) == Stop("", p + 1, col, line[p] == FF);
    assert Lead(pr, col) + "" + "" == Lead(pr, col) + "";
    assert u.taken[0] == line[p];
  }

  /** An unfiltered escape with a character behind it. */
  lemma EscapeTurn(pr: Printer, line: string, p: nat, col: nat) returns (u: Unit)
    requires p + 1 < |line| && Goes(pr, line, p, col, false) && line[p] == ESC && !pr.chrmap(ESC) && line[p + 1] != NL
    ensures u.taken == [ESC, line[p + 1]] && UnitOk(pr, u, col)
    ensures var more := Run(pr, line, p + 2, NextCol(col, u.shown), false, false);
            Run(pr, line, p, col, false, false) == more.(text := Leads(pr, col, 2) + u.shown + more.text)
  {
    var c := PrintChar(pr, line[p + 1], col, true);
    u := Unit([ESC, line[p + 1]], c.text);
    var more := Run(pr, line, p + 2, c.count, false, false);
    assert Run(pr, line, p + 1, col, true, false) == more.(text := Lead(pr, col) + c.text + more.text);
    LeadsTwice(pr, col, c.text, more.text);
  }

  predicate AtEnd(pr: Printer, line: string, p: nat)
    requires p < |line|
  {
    line[p] == FF || (line[p] == ESC && !pr.chrmap(ESC) && (p + 1 == |line| || line[p + 1] == NL))
  }

  predicate TurnOk(pr: Printer, line: string, p: nat, q: nat, col: nat, u: Unit) {
    p < q <= |line| && line[p..q] == u.taken && UnitOk(pr, u, col) && !Final(pr, u)
  }

  lemma EscapeIsTurn(pr: Printer, line: string, p: nat, q: nat, col: nat, u: Unit)
    requires q == p + 2 <= |line| && u.taken == [ESC, line[p + 1]] && line[p] == ESC && UnitOk(pr, u, col)
    ensures TurnOk(pr, line, p, q, col, u)
  {
  }

  lemma OneIsTurn(pr: Printer, line: string, p: nat, q: nat, col: nat, u: Unit)
    requires q == p + 1 <= |line| && u.taken == [line[p]] && UnitOk(pr, u, col) && !AtEnd(pr, line, p)
    requires line[p] == ESC ==> pr.chrmap(ESC)
    ensures TurnOk(pr, line, p, q, col, u)
  {
    assert u.taken[0] == line[p];
  }

  /** A unit that others may follow. */
  lemma NextTurn(pr: Printer, line: string, p: nat, col: nat, r: Stop) returns (u: Unit, q: nat, next: nat, more: Stop)
    requires p < |line| && Goes(pr, line, p, col, false) && !AtEnd(pr, line, p)
    requires r == Run(pr, line, p, col, false, false)
    ensures TurnOk(pr, line, p, q, col, u) && next == NextCol(col, u.shown)
    ensures more == Run(pr, line, q, next, false, false)
    ensures r == more.(text := Leads(pr, col, |u.taken|) + u.shown + more.text)
  {
    if line[p] == ESC && !pr.chrmap(ESC) {
      u := EscapeTurn(pr, line, p, col);
      q := p + 2;
      EscapeIsTurn(pr, line, p, q, col, u);
    } else {
      u := OneTurn(pr, line, p, col);
      q := p + 1;
      OneIsTurn(pr, line, p, q, col, u);
    }
    next := NextCol(col, u.shown);
    more := Run(pr, line, q, next, false, false);
  }

  lemma NoTurn(pr: Printer, line: string, p: nat, col: nat, r: Stop)
    requires p <= |line| && !Goes(pr, line, p, col, false) && r == Run(pr, line, p, col, false, false)
    ensures InUnits(pr, line, p, col, r, [])
  {
  }

  lemma EndTurn(pr: Printer, line: string, p: nat, col: nat, r: Stop) returns (us: seq<Unit>)
    requires p < |line| && Goes(pr, line, p, col, false) && AtEnd(pr, line, p)
    requires r == Run(pr, line, p, col, false, false)
    ensures InUnits(pr, line, p, col, r, us)
  {
    var u := LastTurn(pr, line, p, col);
    UnitLast(pr, line, p, col, u, r);
    us := [u];
  }

  lemma {:induction false} RunInUnits(pr: Printer, line: string, p: nat, col: nat, r: Stop) returns (us: seq<Unit>)
    requires p <= |line| && r == Run(pr, line, p, col, false, false)
    ensures InUnits(pr, line, p, col, r, us)
    decreases |line| - p
  {
    if !Goes(pr, line, p, col, false) {
      NoTurn(pr, line, p, col, r);
      us := [];
    } else if AtEnd(pr, line, p) {
      us := EndTurn(pr, line, p, col, r);
    } else {
      var u, q, next, more := NextTurn(pr, line, p, col, r);
      var rest := RunInUnits(pr, line, q, next, more);
      UnitFirst(pr, line, p, q, col, u, r, more, rest);
      us := [u] + rest;
    }
  }

  /** One call of output. The line is taken in units, in order, as long as there is room: characters that are not
      filtered are printed as they are and those that are as a space, a tab as spaces up to the next multiple of 8, an
      escape with the character behind it as they are; a backspace at the start of the line and a form feed print
      nothing. Then comes a newline. What is not taken stays, without its newline, and a form feed is reported. */
  lemma FilteredShows(pr: Printer, line: string) returns (us: seq<Unit>, rest: string)
    ensures line == Taken(us) + rest && UnitsOk(pr, us, 0) && Stops(pr, us, 0, rest)
    ensures Filtered(pr, line).text == Shown(pr, us, 0) + [NL] && Filtered(pr, line).eject == Ejects(us)
    ensures Filtered(pr, line).rest == if rest != "" && rest[0] == NL then rest[1..] else rest
  {
    var r := Run(pr, line, 0, 0, false, false);
    us := RunInUnits(pr, line, 0, 0, r);
    rest := line[r.p..];
    assert line[0..r.p] + rest == line;
  }

  // ---------------------------------------------------------------- a plain line

  predicate PlainText(pr: Printer, text: string) {
    forall k :: 0 <= k < |text| ==> Ordinary(text[k]) && !pr.chrmap(text[k])
  }

  lemma {:induction false} PlainRun(pr: Printer, text: string, line: string, p: nat)
    requires PlainText(pr, text) && line == text + [NL] && 0 < p <= |text| <= pr.linelen - pr.indent
    ensures Run(pr, line, p, p, false, false) == Stop(text[p..], |text|, |text|, false)
    decreases |text| - p
  {
    if p < |text| {
      PlainRun(pr, text, line, p + 1);
      assert line[p] == text[p] && text[p..] == [text[p]] + text[p + 1..];
      assert "" + [text[p]] == [text[p]];
    }
  }

  /** A line of characters that are neither controls nor filtered, and that fits, is printed as it is behind the
      indent. */
  lemma PlainIsPrinted(pr: Printer, text: string)
    requires text != "" && PlainText(pr, text) && |text| <= pr.linelen - pr.indent
    ensures Filtered(pr, text + [NL]) == Output(Spaces(pr.indent) + text + [NL], "", false)
  {
    var line := text + [NL];
    PlainRun(pr, text, line, 1);
    assert line[0] == text[0] && text == [text[0]] + text[1..];
    assert Spaces(pr.indent) + [text[0]] + text[1..] == Spaces(pr.indent) + text;
  }
}
