/** lplf.c: the line printer filter. output prints one line of text, filtered and cut at the line length;
    the main loop makes labelled pages of the lines. Literal mode and printers that truncate lines are not
    part of the model. */
module Lplf {

  /** The printer's settings; the maps say which characters are filtered, plain and behind an escape. */
  datatype Printer = Printer(linelen: int, pagelen: int, indent: nat, chrmap: char -> bool, escmap: char -> bool)

  const ESC: char := '\U{1b}'
  const CR: char := '\r'
  const BS: char := '\U{08}'
  const TAB: char := '\t'
  const FF: char := '\U{0c}'
  const NL: char := '\n'

  // ---------------------------------------------------------------- one line of output

  function Spaces(n: nat): (s: string)
    ensures |s| == n && NL !in s && forall k :: 0 <= k < n ==> s[k] == ' '
  {
    if n == 0 then "" else " " + Spaces(n - 1)
  }

  /** The loop of output over one character: what is printed, the new count, and the new flags. */
  datatype Printed = Printed(text: string, count: nat, wasescape: bool, eject: bool)

  function PrintChar(pr: Printer, c: char, count: nat, wasescape: bool): (r: Printed)
    requires c != NL
    ensures NL !in r.text
    ensures r.count <= count || r.count == count + 1 || (c == TAB && r.count <= count + 8)
  {
    if wasescape then
      (if pr.escmap(c) then Printed(" ", count + 1, false, false) else Printed([ESC, c], count, false, false))
    else if c == ESC then
      (if pr.chrmap(c) then Printed(" ", count + 1, false, false) else Printed("", count, true, false))
    else if c == CR then Printed([c], 0, false, false)
    else if c == BS then (if count > 0 then Printed([c], count - 1, false, false) else Printed("", count, false, false))
    else if c == TAB then Printed(Spaces(8 - count % 8), count + 8 - count % 8, false, false)
    else if c == FF then Printed("", count, false, true)
    else Printed(if pr.chrmap(c) then " " else [c], count + 1, false, false)
  }

  /** Nothing has been printed yet, or the print head is back at the start. */
  function Lead(pr: Printer, count: nat): (s: string)
    ensures NL !in s
  {
    if count == 0 then Spaces(pr.indent) else ""
  }

  /** The loop ends at the line length, at the end of the line and behind a form feed. */
  predicate Goes(pr: Printer, line: string, p: nat, count: nat, eject: bool) {
    count < pr.linelen - pr.indent && p < |line| && line[p] != NL && !eject
  }

  /** What the loop prints from p on, and where it stops. */
  datatype Stop = Stop(text: string, p: nat, count: nat, eject: bool)

  function Run(pr: Printer, line: string, p: nat, count: nat, wasescape: bool, eject: bool): (r: Stop)
    requires p <= |line|
    ensures p <= r.p <= |line| && (Goes(pr, line, p, count, eject) ==> r.p > p)
    ensures NL !in r.text
    decreases |line| - p
  {
    if !Goes(pr, line, p, count, eject) then Stop("", p, count, eject)
    else
      var c := PrintChar(pr, line[p], count, wasescape);
      var r := Run(pr, line, p + 1, c.count, c.wasescape, c.eject);
      r.(text := Lead(pr, count) + c.text + r.text)
  }

  /** output: the text printed, what stays in the line buffer, and the result. */
  datatype Output = Output(text: string, rest: string, eject: bool)

  function Filtered(pr: Printer, line: string): Output {
    var r := Run(pr, line, 0, 0, false, false);
    Output(r.text + [NL], if r.p < |line| && line[r.p] == NL then line[r.p + 1..] else line[r.p..], r.eject)
  }

  /** The column the loop stops at overruns the line length by less than a tab. */
  lemma {:induction false} CountIsBounded(pr: Printer, line: string, p: nat, count: nat, wasescape: bool, eject: bool)
    requires p <= |line| && pr.linelen - pr.indent >= 1 && count < pr.linelen - pr.indent + 8
    ensures Run(pr, line, p, count, wasescape, eject).count < pr.linelen - pr.indent + 8
    decreases |line| - p
  {
    if Goes(pr, line, p, count, eject) {
      var c := PrintChar(pr, line[p], count, wasescape);
      CountIsBounded(pr, line, p + 1, c.count, c.wasescape, c.eject);
    }
  }

  /** Each call prints exactly one newline, at the end. What stays in the buffer is the end of the line,
      and it is shorter exactly if there is room on a line or the line starts with its newline. */
  lemma OneNewline(pr: Printer, line: string)
    requires line != ""
    ensures var o := Filtered(pr, line);
            && |o.text| > 0 && o.text[|o.text| - 1] == NL && NL !in o.text[..|o.text| - 1]
            && |o.rest| <= |line| && o.rest == line[|line| - |o.rest|..]
            && (|o.rest| < |line| <==> pr.indent < pr.linelen || line[0] == NL)
  {
    var r := Run(pr, line, 0, 0, false, false);
    assert (r.text + [NL])[..|r.text|] == r.text;
  }

  /** What may reach the printer: characters that are not filtered, spaces in place of those that are,
      carriage returns, backspaces, and an unfiltered escape with an unfiltered character behind it. */
  predicate Clean(pr: Printer, text: string) {
    if text == "" then true
    else if text[0] == ESC && |text| >= 2 then !pr.chrmap(ESC) && !pr.escmap(text[1]) && Clean(pr, text[2..])
    else (text[0] == ' ' || text[0] == CR || text[0] == BS || text[0] == NL || (text[0] != ESC && !pr.chrmap(text[0])))
         && Clean(pr, text[1..])
  }

  lemma {:induction false} CleanJoins(pr: Printer, a: string, b: string)
    requires Clean(pr, a) && Clean(pr, b)
    ensures Clean(pr, a + b)
    decreases |a|
  {
    if a == "" {
      assert a + b == b;
    } else if a[0] == ESC && |a| >= 2 {
      CleanJoins(pr, a[2..], b);
      assert (a + b)[2..] == a[2..] + b;
    } else {
      CleanJoins(pr, a[1..], b);
      assert (a + b)[1..] == a[1..] + b;
    }
  }

  lemma {:induction false} SpacesAreClean(pr: Printer, n: nat)
    ensures Clean(pr, Spaces(n))
  {
    if n > 0 {
      SpacesAreClean(pr, n - 1);
    }
  }

  lemma CharIsClean(pr: Printer, c: char, count: nat, wasescape: bool)
    requires c != NL && (wasescape ==> !pr.chrmap(ESC))
    ensures var r := PrintChar(pr, c, count, wasescape); Clean(pr, r.text) && (r.wasescape ==> !pr.chrmap(ESC))
  {
    var r := PrintChar(pr, c, count, wasescape);
    if !wasescape && c == TAB {
      SpacesAreClean(pr, 8 - count % 8);
    } else if wasescape && !pr.escmap(c) {
      assert r.text[2..] == "";
    } else if r.text != "" {
      assert r.text[1..] == "";
    }
  }

  lemma {:induction false} RunIsClean(pr: Printer, line: string, p: nat, count: nat, wasescape: bool, eject: bool)
    requires p <= |line| && (wasescape ==> !pr.chrmap(ESC))
    ensures Clean(pr, Run(pr, line, p, count, wasescape, eject).text)
    decreases |line| - p
  {
    if Goes(pr, line, p, count, eject) {
      var c := PrintChar(pr, line[p], count, wasescape);
      CharIsClean(pr, line[p], count, wasescape);
      RunIsClean(pr, line, p + 1, c.count, c.wasescape, c.eject);
      SpacesAreClean(pr, pr.indent);
      CleanJoins(pr, Lead(pr, count), c.text);
      CleanJoins(pr, Lead(pr, count) + c.text, Run(pr, line, p + 1, c.count, c.wasescape, c.eject).text);
    }
  }

  /** Nothing that the maps filter reaches the printer. */
  lemma FilteredIsClean(pr: Printer, line: string)
    ensures Clean(pr, Filtered(pr, line).text)
  {
    RunIsClean(pr, line, 0, 0, false, false);
    assert [NL][1..] == "";
    CleanJoins(pr, Run(pr, line, 0, 0, false, false).text, [NL]);
  }

  // ---------------------------------------------------------------- the indent

  /** A carriage return that goes back to the start of the line, for which the indent is due again. */
  predicate Returns(c: char, wasescape: bool) {
    c == CR && !wasescape
  }

  /** What output would print if it set the flag doneindent, which says that this line has its indent. */
  function Once(pr: Printer, line: string, p: nat, count: nat, wasescape: bool, eject: bool, doneindent: bool): string
    requires p <= |line|
    decreases |line| - p
  {
    if !Goes(pr, line, p, count, eject) then ""
    else
      var c := PrintChar(pr, line[p], count, wasescape);
      (if doneindent then "" else Lead(pr, count)) + c.text
      + Once(pr, line, p + 1, c.count, c.wasescape, c.eject, !Returns(line[p], wasescape))
  }

  /** How many characters the loop comes to at column 0 other than the first of the line and those right behind
      a carriage return: behind backspaces, and behind what takes no room there. */
  function Repeats(pr: Printer, line: string, p: nat, count: nat, wasescape: bool, eject: bool, doneindent: bool): nat
    requires p <= |line|
    decreases |line| - p
  {
    if !Goes(pr, line, p, count, eject) then 0
    else
      var c := PrintChar(pr, line[p], count, wasescape);
      (if doneindent && count == 0 then 1 else 0)
      + Repeats(pr, line, p + 1, c.count, c.wasescape, c.eject, !Returns(line[p], wasescape))
  }

  lemma Distributes(a: nat, b: nat, n: nat)
    ensures n * (a + b) == n * a + n * b
  {
  }

  /** One turn of the loop, with and without the flag. */
  lemma TurnRepeats(pr: Printer, count: nat, doneindent: bool, n: nat, text: string, more: string, once: string)
    requires |more| == |once| + pr.indent * n
    ensures var k := if doneindent && count == 0 then 1 else 0;
            |Lead(pr, count) + text + more|
            == |(if doneindent then "" else Lead(pr, count)) + text + once| + pr.indent * (k + n)
  {
    Distributes(if doneindent && count == 0 then 1 else 0, n, pr.indent);
  }

  lemma {:induction false} RepeatsAreIndents(pr: Printer, line: string, p: nat, count: nat, wasescape: bool,
                                             eject: bool, doneindent: bool)
    requires p <= |line|
    ensures |Run(pr, line, p, count, wasescape, eject).text|
         == |Once(pr, line, p, count, wasescape, eject, doneindent)|
            + pr.indent * Repeats(pr, line, p, count, wasescape, eject, doneindent)
    decreases |line| - p
  {
    if Goes(pr, line, p, count, eject) {
      var c := PrintChar(pr, line[p], count, wasescape);
      var done := !Returns(line[p], wasescape);
      RepeatsAreIndents(pr, line, p + 1, c.count, c.wasescape, c.eject, done);
      TurnRepeats(pr, count, doneindent, Repeats(pr, line, p + 1, c.count, c.wasescape, c.eject, done), c.text,
                  Run(pr, line, p + 1, c.count, c.wasescape, c.eject).text,
                  Once(pr, line, p + 1, c.count, c.wasescape, c.eject, done));
    }
  }

  lemma {:induction false} NoRepeats(pr: Printer, line: string, p: nat, count: nat, wasescape: bool, eject: bool,
                                     doneindent: bool)
    requires p <= |line| && (pr.indent == 0 || Repeats(pr, line, p, count, wasescape, eject, doneindent) == 0)
    ensures Run(pr, line, p, count, wasescape, eject).text == Once(pr, line, p, count, wasescape, eject, doneindent)
    decreases |line| - p
  {
    if Goes(pr, line, p, count, eject) {
      var c := PrintChar(pr, line[p], count, wasescape);
      NoRepeats(pr, line, p + 1, c.count, c.wasescape, c.eject, !Returns(line[p], wasescape));
    }
  }

  /** doneindent is never set. So the indent is printed once too often for each character that comes to column 0
      again without a carriage return, and output prints what it should if and only if there is no indent or no
      such character. */
  lemma IndentRepeats(pr: Printer, line: string)
    ensures var once, n := Once(pr, line, 0, 0, false, false, false) + [NL],
                           Repeats(pr, line, 0, 0, false, false, false);
            && |Filtered(pr, line).text| == |once| + pr.indent * n
            && (Filtered(pr, line).text == once <==> pr.indent == 0 || n == 0)
  {
    RepeatsAreIndents(pr, line, 0, 0, false, false, false);
    if pr.indent == 0 || Repeats(pr, line, 0, 0, false, false, false) == 0 {
      NoRepeats(pr, line, 0, 0, false, false, false);
    }
  }

  lemma {:induction false} OneMoreSpace(n: nat)
    ensures Spaces(n + 1) == Spaces(n) + " "
  {
    if n > 0 {
      OneMoreSpace(n - 1);
    }
  }

  /** The loop of output. */
  class Filter {
    const pr: Printer
    var line: string
    var file: string

    constructor (pr: Printer)
      ensures this.pr == pr && line == "" && file == ""
    {
      this.pr, line, file := pr, "", "";
    }

    method PutChar(c: char, count: nat, wasescape: bool) returns (newCount: nat, newEscape: bool, eject: bool)
      requires c != NL
      modifies this`file
      ensures file == old(file) + PrintChar(pr, c, count, wasescape).text
      ensures var r := PrintChar(pr, c, count, wasescape);
              newCount == r.count && newEscape == r.wasescape && eject == r.eject
    {
      newCount, newEscape, eject := count, false, false;
      ghost var was := file;
      if wasescape {
        if pr.escmap(c) {
          file := file + " ";
          newCount := count + 1;
        } else {
          file := file + [ESC];
          file := file + [c];
          assert was + [ESC] + [c] == was + [ESC, c];
        }
      } else if c == ESC {
        if pr.chrmap(c) {
          file := file + " ";
          newCount := count + 1;
        } else {
          newEscape := true;
        }
      } else if c == CR {
        file := file + [c];
        newCount := 0;
      } else if c == BS {
        if count > 0 {
          file := file + [c];
          newCount := count - 1;
        }
      } else if c == TAB {
        newCount := PutTab(count);
      } else if c == FF {
        eject := true;
      } else {
        file := file + if pr.chrmap(c) then " " else [c];
        newCount := count + 1;
      }
    }

    /** do { ... } while (count % 8) */
    method PutTab(count: nat) returns (newCount: nat)
      modifies this`file
      ensures newCount == count + 8 - count % 8 && file == old(file) + Spaces(8 - count % 8)
    {
      ghost var was := file;
      file := file + " ";
      newCount := count + 1;
      assert Spaces(1) == " ";
      while newCount % 8 != 0
        invariant count < newCount <= count + 8 - count % 8
        invariant file == was + Spaces(newCount - count)
        decreases count + 8 - newCount
      {
        file := file + " ";
        OneMoreSpace(newCount - count);
        newCount := newCount + 1;
      }
    }

    /** One turn of the loop. */
    method PutNext(c: char, count: nat, wasescape: bool) returns (newCount: nat, newEscape: bool, eject: bool)
      requires c != NL
      modifies this`file
      ensures file == old(file) + (Lead(pr, count) + PrintChar(pr, c, count, wasescape).text)
      ensures var r := PrintChar(pr, c, count, wasescape);
              newCount == r.count && newEscape == r.wasescape && eject == r.eject
    {
      ghost var was := file;
      if count == 0 {
        file := file + Spaces(pr.indent);
      } else {
        assert was + "" == was;
      }
      assert file == was + Lead(pr, count);
      newCount, newEscape, eject := PutChar(c, count, wasescape);
    }

    /** output */
    method PutLine() returns (eject: bool)
      requires line != ""
      modifies this
      ensures file == old(file) + Filtered(pr, old(line)).text
      ensures line == Filtered(pr, old(line)).rest && eject == Filtered(pr, old(line)).eject
    {
      ghost var was, goal := file, Run(pr, line, 0, 0, false, false);
      var cp, count, wasescape := 0, 0, false;
      eject := false;
      while Goes(pr, line, cp, count, eject)
        invariant cp <= |line| && line == old(line)
        invariant Resumes(Run(pr, line, cp, count, wasescape, eject), file, goal, was)
        decreases |line| - cp
      {
        ghost var before, rest := file, Run(pr, line, cp, count, wasescape, eject);
        count, wasescape, eject := PutNext(line[cp], count, wasescape);
        cp := cp + 1;
        ResumesStill(rest, Run(pr, line, cp, count, wasescape, eject), before, file, goal, was);
      }
      assert file == was + goal.text;
      file := file + [NL];
      assert file == was + (goal.text + [NL]);
      if cp < |line| && line[cp] == NL {
        cp := cp + 1;
      }
      line := line[cp..];
    }
  }

  /** The rest of the run completes what has been printed since was to the goal. */
  predicate Resumes(rest: Stop, file: string, goal: Stop, was: string) {
    file + rest.text == was + goal.text && rest.(text := goal.text) == goal
  }

  lemma ResumesStill(rest: Stop, more: Stop, before: string, file: string, goal: Stop, was: string)
    requires Resumes(rest, before, goal, was) && before <= file
    requires rest == more.(text := file[|before|..] + more.text)
    ensures Resumes(more, file, goal, was)
  {
    assert file + more.text == before + (file[|before|..] + more.text);
  }

  // ---------------------------------------------------------------- pages

  /** What reaches the printer: the label on a line of its own, a line of text, an empty line, the label
      over the last line, and the sequence that ejects the page. */
  datatype Event = LabelLine | Text(s: string) | Blank | LabelCR | Eject

  /** A line of text and whether it held a form feed. */
  datatype Piece = Piece(text: string, eject: bool)

  /** The lines of text that come of the line buffer; with room on a line there is always progress. */
  function Pieces(pr: Printer, line: string): seq<Piece>
    requires pr.indent < pr.linelen
    decreases |line|
  {
    if line == "" then []
    else
      OneNewline(pr, line);
      var o := Filtered(pr, line);
      [Piece(o.text, o.eject)] + Pieces(pr, o.rest)
  }

  function AllPieces(pr: Printer, lines: seq<string>): seq<Piece>
    requires pr.indent < pr.linelen
  {
    if lines == [] then [] else Pieces(pr, lines[0]) + AllPieces(pr, lines[1..])
  }

  function Blanks(n: int): seq<Event> {
    if n <= 0 then [] else [Blank] + Blanks(n - 1)
  }

  /** What is printed so far, the next line's number on the page, and the pages counted. */
  datatype Page = Page(out: seq<Event>, lineno: nat, pages: nat)

  /** The labels due before a line is printed. */
  function Labels(pagelen: nat, p: Page): Page {
    var q := if p.lineno == pagelen - 1 then Page(p.out + [LabelCR, Eject], 0, p.pages + 1) else p;
    if q.lineno == 0 then q.(out := q.out + [LabelLine], lineno := 1) else q
  }

  /** One pass through the main loop. */
  function PrintPiece(pagelen: nat, p: Page, piece: Piece): Page
    requires pagelen > 0
  {
    var q := Labels(pagelen, p);
    var n := (q.lineno + 1) % pagelen;
    var out := q.out + [Text(piece.text)];
    if piece.eject && n != 0 then
      Page(out + Blanks(pagelen - 1 - n), if n < pagelen - 1 then pagelen - 1 else n, q.pages)
    else Page(out, n, if n == 0 then q.pages + 1 else q.pages)
  }

  function PrintPieces(pagelen: nat, p: Page, pieces: seq<Piece>): Page
    requires pagelen > 0
    decreases |pieces|
  {
    if pieces == [] then p else PrintPieces(pagelen, PrintPiece(pagelen, p, pieces[0]), pieces[1..])
  }

  /** Fill out the final page. */
  function LastPage(pagelen: nat, p: Page): Page {
    if p.lineno == 0 then p
    else p.(out := p.out + Blanks(pagelen - 1 - p.lineno) + [LabelCR] + [Eject], pages := p.pages + 1)
  }

  function Job(pagelen: nat, pieces: seq<Piece>): Page
    requires pagelen > 0
  {
    LastPage(pagelen, PrintPieces(pagelen, Page([], 0, 0), pieces))
  }

  // ---------------------------------------------------------------- every page is whole

  predicate IsBody(e: Event) {
    e.Text? || e.Blank?
  }

  /** The label line, n lines of the body. */
  predicate IsTop(page: seq<Event>, n: nat) {
    |page| == n + 1 && page[0] == LabelLine && forall i :: 1 <= i <= n ==> IsBody(page[i])
  }

  /** The label line, exactly pagelen - 2 lines of the body, the label again, and the form feed. */
  predicate IsPage(page: seq<Event>, pagelen: nat) {
    && |page| == pagelen + 1 && pagelen >= 2 && IsTop(page[..pagelen - 1], pagelen - 2)
    && page[pagelen - 1..] == [LabelCR, Eject]
  }

  /** n whole pages, one behind the other. */
  predicate IsBook(out: seq<Event>, pagelen: nat, n: nat) {
    if n == 0 then out == []
    else |out| >= pagelen + 1 && IsPage(out[..pagelen + 1], pagelen) && IsBook(out[pagelen + 1..], pagelen, n - 1)
  }

  lemma {:induction false} BookGrows(out: seq<Event>, pagelen: nat, n: nat, page: seq<Event>)
    requires IsBook(out, pagelen, n) && IsPage(page, pagelen)
    ensures IsBook(out + page, pagelen, n + 1)
    decreases n
  {
    if n == 0 {
      assert out + page == page && page[..pagelen + 1] == page;
      assert page[pagelen + 1..] == [];
    } else {
      BookGrows(out[pagelen + 1..], pagelen, n - 1, page);
      assert (out + page)[..pagelen + 1] == out[..pagelen + 1];
      assert (out + page)[pagelen + 1..] == out[pagelen + 1..] + page;
    }
  }

  /** Whole pages, and an open one with lineno lines on it. */
  ghost predicate Printing(p: Page, pagelen: nat, book: seq<Event>, page: seq<Event>) {
    && p.out == book + page && IsBook(book, pagelen, p.pages)
    && p.lineno <= pagelen - 1
    && if p.lineno == 0 then page == [] else IsTop(page, p.lineno - 1)
  }

  lemma PageCloses(page: seq<Event>, pagelen: nat)
    requires pagelen >= 2 && IsTop(page, pagelen - 2)
    ensures IsPage(page + [LabelCR, Eject], pagelen)
  {
    var whole := page + [LabelCR, Eject];
    assert whole[..pagelen - 1] == page;
  }

  lemma {:induction false} BlanksAreBody(n: int)
    ensures |Blanks(n)| == (if n <= 0 then 0 else n) && forall i :: 0 <= i < |Blanks(n)| ==> IsBody(Blanks(n)[i])
  {
    if n > 0 {
      BlanksAreBody(n - 1);
    }
  }

  lemma LabelsKeep(pagelen: nat, p: Page, book: seq<Event>, page: seq<Event>)
    returns (book1: seq<Event>, page1: seq<Event>)
    requires pagelen >= 3 && Printing(p, pagelen, book, page)
    ensures var q := Labels(pagelen, p); Printing(q, pagelen, book1, page1) && 1 <= q.lineno <= pagelen - 2
  {
    book1, page1 := book, page;
    if p.lineno == pagelen - 1 {
      PageCloses(page, pagelen);
      BookGrows(book, pagelen, p.pages, page + [LabelCR, Eject]);
      book1, page1 := book + (page + [LabelCR, Eject]), [];
      assert p.out + [LabelCR, Eject] == book1;
    }
    if p.lineno == pagelen - 1 || p.lineno == 0 {
      assert page1 + [LabelLine] == [LabelLine];
      page1 := [LabelLine];
    }
  }

  lemma LineIsBody(pagelen: nat, q: Page, piece: Piece, book: seq<Event>, page: seq<Event>, page1: seq<Event>,
                   lines: seq<Event>)
    requires Printing(q, pagelen, book, page) && 1 <= q.lineno <= pagelen - 2
    requires lines == Lines(pagelen, q.lineno, piece)
    requires page1 == page + lines
    ensures IsTop(page1, q.lineno - 1 + |lines|)
    ensures |lines| == if piece.eject then pagelen - 1 - q.lineno else 1
  {
    BlanksAreBody(pagelen - 1 - (q.lineno + 1));
    forall i | 1 <= i < |page1| ensures IsBody(page1[i]) {
      if i >= |page| {
        assert page1[i] == lines[i - |page|];
      }
    }
  }

  /** The text, and empty lines down to the last one if the page is to be ejected. */
  function Lines(pagelen: nat, lineno: nat, piece: Piece): seq<Event> {
    [Text(piece.text)] + if piece.eject then Blanks(pagelen - 1 - (lineno + 1)) else []
  }

  lemma SmallMod(n: nat, m: nat)
    requires n < m
    ensures n % m == n
  {
  }

  lemma PrintPieceIs(pagelen: nat, p: Page, q: Page, piece: Piece)
    requires pagelen >= 3 && q == Labels(pagelen, p) && 1 <= q.lineno <= pagelen - 2
    ensures PrintPiece(pagelen, p, piece) == Page(q.out + Lines(pagelen, q.lineno, piece),
                                                  if piece.eject then pagelen - 1 else q.lineno + 1, q.pages)
  {
    SmallMod(q.lineno + 1, pagelen);
    assert q.out + [Text(piece.text)] + Blanks(pagelen - 1 - (q.lineno + 1))
        == q.out + ([Text(piece.text)] + Blanks(pagelen - 1 - (q.lineno + 1)));
    assert q.out + ([Text(piece.text)] + []) == q.out + [Text(piece.text)];
  }

  lemma PieceKeeps(pagelen: nat, p: Page, piece: Piece, book: seq<Event>, page: seq<Event>)
    returns (book1: seq<Event>, page1: seq<Event>)
    requires pagelen >= 3 && Printing(p, pagelen, book, page)
    ensures Printing(PrintPiece(pagelen, p, piece), pagelen, book1, page1)
  {
    var q := Labels(pagelen, p);
    var page0;
    book1, page0 := LabelsKeep(pagelen, p, book, page);
    page1 := page0 + Lines(pagelen, q.lineno, piece);
    PrintPieceIs(pagelen, p, q, piece);
    LinesKeep(pagelen, q, piece, book1, page0, Lines(pagelen, q.lineno, piece));
  }

  lemma LinesKeep(pagelen: nat, q: Page, piece: Piece, book: seq<Event>, page: seq<Event>, lines: seq<Event>)
    requires pagelen >= 3 && Printing(q, pagelen, book, page) && 1 <= q.lineno <= pagelen - 2
    requires lines == Lines(pagelen, q.lineno, piece)
    ensures Printing(Page(q.out + lines, if piece.eject then pagelen - 1 else q.lineno + 1, q.pages), pagelen, book,
                     page + lines)
  {
    LineIsBody(pagelen, q, piece, book, page, page + lines, lines);
    assert q.out + lines == book + (page + lines);
  }

  lemma {:induction false} PiecesKeep(pagelen: nat, p: Page, pieces: seq<Piece>, book: seq<Event>, page: seq<Event>)
    returns (book1: seq<Event>, page1: seq<Event>)
    requires pagelen >= 3 && Printing(p, pagelen, book, page)
    ensures Printing(PrintPieces(pagelen, p, pieces), pagelen, book1, page1)
    decreases |pieces|
  {
    book1, page1 := book, page;
    if pieces != [] {
      book1, page1 := PieceKeeps(pagelen, p, pieces[0], book, page);
      book1, page1 := PiecesKeep(pagelen, PrintPiece(pagelen, p, pieces[0]), pieces[1..], book1, page1);
    }
  }

  lemma LastPageCloses(pagelen: nat, p: Page, book: seq<Event>, page: seq<Event>)
    requires pagelen >= 3 && Printing(p, pagelen, book, page)
    ensures IsBook(LastPage(pagelen, p).out, pagelen, LastPage(pagelen, p).pages)
  {
    assert book + [] == book;
    if p.lineno > 0 {
      var fill := Blanks(pagelen - 1 - p.lineno);
      BlanksAreBody(pagelen - 1 - p.lineno);
      var whole := page + fill;
      forall i | 1 <= i < |whole| ensures IsBody(whole[i]) {
        if i >= |page| {
          assert whole[i] == fill[i - |page|];
        }
      }
      PageCloses(whole, pagelen);
      BookGrows(book, pagelen, p.pages, whole + [LabelCR, Eject]);
      assert LastPage(pagelen, p).out == book + (whole + [LabelCR, Eject]);
    }
  }

  /** With a page length of at least three lines, whatever is printed is a number of whole pages, the last
      one included, and pages counts them. */
  lemma WholePages(pagelen: nat, pieces: seq<Piece>)
    requires pagelen >= 3
    ensures var job := Job(pagelen, pieces); IsBook(job.out, pagelen, job.pages)
  {
    var book, page := PiecesKeep(pagelen, Page([], 0, 0), pieces, [], []);
    LastPageCloses(pagelen, PrintPieces(pagelen, Page([], 0, 0), pieces), book, page);
  }

  /** A shorter page length never gives whole pages, unless nothing is printed. */
  lemma ShortPages(pagelen: nat, pieces: seq<Piece>)
    requires 1 <= pagelen < 3 && pieces != []
    ensures var job := Job(pagelen, pieces); !IsBook(job.out, pagelen, job.pages)
  {
    var first := PrintPiece(pagelen, Page([], 0, 0), pieces[0]);
    var rest := PrintPieces(pagelen, first, pieces[1..]);
    Appended(pagelen, first, pieces[1..]);
    var job := LastPage(pagelen, rest);
    assert first.out <= rest.out <= job.out && job.pages >= first.pages >= 1;
    if pagelen == 1 {
      assert first.out[0] == LabelCR && job.out[0] == LabelCR;
    } else {
      assert first.out[1] == Text(pieces[0].text) && job.out[1] == first.out[1];
    }
  }

  lemma {:induction false} Appended(pagelen: nat, p: Page, pieces: seq<Piece>)
    requires pagelen > 0
    ensures var q := PrintPieces(pagelen, p, pieces); p.out <= q.out && p.pages <= q.pages
    decreases |pieces|
  {
    if pieces != [] {
      Appended(pagelen, PrintPiece(pagelen, p, pieces[0]), pieces[1..]);
    }
  }

  // ---------------------------------------------------------------- no text is lost

  function TextsOf(out: seq<Event>): seq<string> {
    if out == [] then [] else TextOf(out[0]) + TextsOf(out[1..])
  }

  function TextOf(e: Event): seq<string> {
    if e.Text? then [e.s] else []
  }

  function LinesOf(pieces: seq<Piece>): seq<string> {
    if pieces == [] then [] else [pieces[0].text] + LinesOf(pieces[1..])
  }

  lemma Regroup(a: seq<string>, b: seq<string>, c: seq<string>)
    ensures a + (b + c) == a + b + c
  {
  }

  lemma {:induction false} TextsAppend(a: seq<Event>, b: seq<Event>)
    ensures TextsOf(a + b) == TextsOf(a) + TextsOf(b)
  {
    if a == [] {
      assert a + b == b;
    } else {
      TextsAppend(a[1..], b);
      Regroup(TextOf(a[0]), TextsOf(a[1..]), TextsOf(b));
      assert (a + b)[0] == a[0] && (a + b)[1..] == a[1..] + b;
    }
  }

  lemma TextsOfOne(e: Event)
    ensures TextsOf([e]) == TextOf(e)
  {
    assert [e][1..] == [];
  }

  lemma {:induction false} BlanksHaveNoText(n: int)
    ensures TextsOf(Blanks(n)) == []
  {
    if n > 0 {
      BlanksHaveNoText(n - 1);
      assert ([Blank] + Blanks(n - 1))[1..] == Blanks(n - 1);
    }
  }

  lemma TextAndBlanks(out: seq<Event>, text: string, n: int)
    ensures TextsOf(out + [Text(text)]) == TextsOf(out) + [text]
    ensures TextsOf(out + [Text(text)] + Blanks(n)) == TextsOf(out) + [text]
  {
    TextsOfOne(Text(text));
    TextsAppend(out, [Text(text)]);
    BlanksHaveNoText(n);
    TextsAppend(out + [Text(text)], Blanks(n));
  }

  lemma PieceAddsText(pagelen: nat, p: Page, piece: Piece)
    requires pagelen > 0
    ensures TextsOf(PrintPiece(pagelen, p, piece).out) == TextsOf(p.out) + [piece.text]
  {
    var q := Labels(pagelen, p);
    LabelsAddNoText(pagelen, p);
    TextAndBlanks(q.out, piece.text, pagelen - 1 - (q.lineno + 1) % pagelen);
  }

  lemma LabelsAddNoText(pagelen: nat, p: Page)
    ensures TextsOf(Labels(pagelen, p).out) == TextsOf(p.out)
  {
    assert [LabelCR, Eject] == [LabelCR] + [Eject];
    TextsOfOne(LabelCR);
    TextsOfOne(Eject);
    TextsOfOne(LabelLine);
    TextsAppend([LabelCR], [Eject]);
    TextsAppend(p.out, [LabelCR, Eject]);
    TextsAppend(p.out, [LabelLine]);
    TextsAppend(p.out + [LabelCR, Eject], [LabelLine]);
  }

  lemma {:induction false} PiecesAddText(pagelen: nat, p: Page, pieces: seq<Piece>)
    requires pagelen > 0
    ensures TextsOf(PrintPieces(pagelen, p, pieces).out) == TextsOf(p.out) + LinesOf(pieces)
    decreases |pieces|
  {
    if pieces != [] {
      PieceAddsText(pagelen, p, pieces[0]);
      PiecesAddText(pagelen, PrintPiece(pagelen, p, pieces[0]), pieces[1..]);
    }
  }

  /** The pages hold exactly the lines of text that output makes, in order. */
  lemma NoTextIsLost(pagelen: nat, pieces: seq<Piece>)
    requires pagelen > 0
    ensures TextsOf(Job(pagelen, pieces).out) == LinesOf(pieces)
  {
    var p := PrintPieces(pagelen, Page([], 0, 0), pieces);
    PiecesAddText(pagelen, Page([], 0, 0), pieces);
    EndHasNoText(p.out, pagelen - 1 - p.lineno);
  }

  lemma EndHasNoText(out: seq<Event>, n: int)
    ensures TextsOf(out + Blanks(n) + [LabelCR] + [Eject]) == TextsOf(out)
  {
    BlanksHaveNoText(n);
    TextsAppend(out, Blanks(n));
    TextsAppend(out + Blanks(n), [LabelCR]);
    TextsAppend(out + Blanks(n) + [LabelCR], [Eject]);
    TextsOfOne(LabelCR);
    TextsOfOne(Eject);
  }

  // ---------------------------------------------------------------- the main loop

  lemma FirstPiece(pr: Printer, line: string, o: Output, more: seq<Piece>, p: Page)
    requires pr.pagelen > 0 && pr.indent < pr.linelen && line != "" && o == Filtered(pr, line)
    ensures PrintPieces(pr.pagelen, p, Pieces(pr, line) + more)
         == PrintPieces(pr.pagelen, PrintPiece(pr.pagelen, p, Piece(o.text, o.eject)), Pieces(pr, o.rest) + more)
  {
    var first, rest := Piece(o.text, o.eject), Pieces(pr, o.rest);
    assert ([first] + rest) + more == [first] + (rest + more);
    assert ([first] + (rest + more))[1..] == rest + more;
  }

  /** The variables of main, and what has gone to the printer. */
  class Paginator {
    const pr: Printer
    const filter: Filter
    var out: seq<Event>
    var lineno: nat
    var pages: nat

    constructor (pr: Printer)
      ensures this.pr == pr && filter.pr == pr && fresh(filter) && filter.line == "" && At() == Page([], 0, 0)
    {
      this.pr := pr;
      filter := new Filter(pr);
      out, lineno, pages := [], 0, 0;
    }

    function At(): Page
      reads this
    {
      Page(out, lineno, pages)
    }

    method PutLabels(pagelen: nat)
      modifies this
      ensures At() == Labels(pagelen, old(At()))
    {
      if lineno == pagelen - 1 {
        out := out + [LabelCR, Eject];
        lineno := 0;
        pages := pages + 1;
      }
      if lineno == 0 {
        out := out + [LabelLine];
        lineno := lineno + 1;
      }
    }

    /** while (lineno < pagelen - 1) { putchar('\n'); ++lineno; } */
    method PutBlanks(pagelen: nat)
      modifies this
      ensures out == old(out) + Blanks(pagelen - 1 - old(lineno)) && pages == old(pages)
      ensures lineno == if old(lineno) < pagelen - 1 then pagelen - 1 else old(lineno)
    {
      assert old(out) + [] == old(out);
      while lineno < pagelen - 1
        invariant out + Blanks(pagelen - 1 - lineno) == old(out) + Blanks(pagelen - 1 - old(lineno))
        invariant lineno == old(lineno) || lineno <= pagelen - 1
        invariant pages == old(pages)
      {
        out := out + [Blank];
        lineno := lineno + 1;
      }
    }

    /** One pass through the loop, with something in the line buffer. */
    method PutPiece(pagelen: nat)
      requires pagelen > 0 && filter.line != ""
      modifies this, filter
      ensures var o := Filtered(filter.pr, old(filter.line));
              filter.line == o.rest && At() == PrintPiece(pagelen, old(At()), Piece(o.text, o.eject))
    {
      PutLabels(pagelen);
      var was := filter.file;
      var eject := filter.PutLine();
      out := out + [Text(filter.file[|was|..])];
      lineno := (lineno + 1) % pagelen;
      if eject && lineno != 0 {
        PutBlanks(pagelen);
      }
      if lineno == 0 {
        pages := pages + 1;
      }
    }

    method FinishPage(pagelen: nat)
      modifies this
      ensures out == LastPage(pagelen, old(At())).out && pages == LastPage(pagelen, old(At())).pages
    {
      if lineno != 0 {
        PutBlanks(pagelen);
        out := out + [LabelCR];
        out := out + [Eject];
        pages := pages + 1;
      }
    }

    /** The main loop over the lines that fgets delivers, none of which is empty. */
    method Paginate(stdin: seq<string>)
      requires pr.pagelen > 0 && pr.indent < pr.linelen && filter.pr == pr && filter.line == ""
      requires At() == Page([], 0, 0) && forall l :: l in stdin ==> l != ""
      modifies this, filter
      ensures var job := Job(pr.pagelen, AllPieces(pr, stdin)); out == job.out && pages == job.pages
    {
      var i := 0;
      ghost var goal := PrintPieces(pr.pagelen, At(), AllPieces(pr, stdin));
      assert stdin[0..] == stdin && [] + AllPieces(pr, stdin) == AllPieces(pr, stdin);
      while filter.line != "" || i < |stdin|
        invariant i <= |stdin|
        invariant PrintPieces(pr.pagelen, At(), Pieces(pr, filter.line) + AllPieces(pr, stdin[i..])) == goal
        decreases |stdin| - i, |filter.line|
      {
        if filter.line == "" {
          assert stdin[i] in stdin && stdin[i..][1..] == stdin[i + 1..];
          assert [] + (Pieces(pr, stdin[i]) + AllPieces(pr, stdin[i + 1..]))
              == Pieces(pr, stdin[i]) + AllPieces(pr, stdin[i + 1..]);
          filter.line := stdin[i];
          i := i + 1;
        }
        PutNextPiece(stdin[i..], goal);
      }
      assert stdin[i..] == [];
      FinishPage(pr.pagelen);
    }

    method PutNextPiece(ghost stdin: seq<string>, ghost goal: Page)
      requires pr.pagelen > 0 && pr.indent < pr.linelen && filter.pr == pr && filter.line != ""
      requires PrintPieces(pr.pagelen, At(), Pieces(pr, filter.line) + AllPieces(pr, stdin)) == goal
      modifies this, filter
      ensures |filter.line| < |old(filter.line)|
      ensures PrintPieces(pr.pagelen, At(), Pieces(pr, filter.line) + AllPieces(pr, stdin)) == goal
    {
      OneNewline(pr, filter.line);
      FirstPiece(pr, filter.line, Filtered(pr, filter.line), AllPieces(pr, stdin), At());
      PutPiece(pr.pagelen);
    }
  }
}
