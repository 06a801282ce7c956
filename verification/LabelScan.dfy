/** labelcomp.c: how an encodings file becomes normalized lines, next_keyword, the scanner that both
    passes over the file share, and check_continuation. */
module LabelScan {

  /** Keywords are not empty. */
  type Keyword = k: string | k != "" witness "*"

  // ---------------------------------------------------------------- lines

  /** No two blanks in a row. */
  predicate OneBlank(s: string) {
    |s| >= 2 ==> !(s[0] == ' ' && s[1] == ' ') && OneBlank(s[1..])
  }

  /** What the buffer can hold: one blank at a time, and none in front. */
  predicate Normal(line: string) {
    OneBlank(line) && (line != "" ==> line[0] != ' ')
  }

  function Upper(c: char): char {
    if 'a' <= c <= 'z' then c - 'a' + 'A' else c
  }

  predicate IsBlank(c: char) {
    c == ' ' || c == '\t'
  }

  /** The lines next_keyword reads from the rest of a file, given what is in the buffer and whether
      the last character stored was a blank. A line that fills the buffer is replaced by a notice,
      and what follows it is read as a line of its own. */
  function Lines(file: string, buffer: string, haveBlank: bool, max: nat, notice: string): seq<string> {
    if file == "" then (if buffer == "" then [] else [buffer])
    else if |buffer| == max then [notice] + Lines(file[1..], "", true, max, notice)
    else if file[0] == '\n' then [buffer] + Lines(file[1..], "", true, max, notice)
    else if IsBlank(file[0]) then
      (if haveBlank then Lines(file[1..], buffer, true, max, notice)
       else Lines(file[1..], buffer + " ", true, max, notice))
    else Lines(file[1..], buffer + [Upper(file[0])], false, max, notice)
  }

  lemma {:induction false} OneBlankGrows(s: string, c: char)
    requires OneBlank(s) && (c == ' ' ==> s == "" || s[|s| - 1] != ' ')
    ensures OneBlank(s + [c])
  {
    if |s| >= 1 {
      if |s| >= 2 {
        OneBlankGrows(s[1..], c);
      }
      assert (s + [c])[1..] == s[1..] + [c];
    }
  }

  lemma {:induction false} OneBlankBehind(s: string, k: nat)
    requires OneBlank(s) && k <= |s|
    ensures OneBlank(s[k..])
  {
    if k > 0 && |s| >= 2 {
      OneBlankBehind(s[1..], k - 1);
      assert s[1..][k - 1..] == s[k..];
    }
  }

  lemma {:induction false} OneBlankBefore(s: string, k: nat)
    requires OneBlank(s) && k <= |s|
    ensures OneBlank(s[..k])
  {
    if k >= 2 {
      OneBlankBefore(s[1..], k - 1);
      assert s[..k][1..] == s[1..][..k - 1];
    }
  }

  predicate AllNormal(lines: seq<string>) {
    lines != [] ==> Normal(lines[0]) && AllNormal(lines[1..])
  }

  /** Whatever the file, the lines come out normalized. */
  lemma {:induction false} LinesAreNormal(file: string, buffer: string, haveBlank: bool, max: nat, notice: string)
    requires Normal(notice) && Normal(buffer) && (haveBlank <==> buffer == "" || buffer[|buffer| - 1] == ' ')
    ensures AllNormal(Lines(file, buffer, haveBlank, max, notice))
    decreases |file|
  {
    if file == "" {
    } else if |buffer| == max || file[0] == '\n' {
      var line := if |buffer| == max then notice else buffer;
      var more := Lines(file[1..], "", true, max, notice);
      LinesAreNormal(file[1..], "", true, max, notice);
      assert ([line] + more)[1..] == more;
    } else if IsBlank(file[0]) {
      if haveBlank {
        LinesAreNormal(file[1..], buffer, true, max, notice);
      } else {
        OneBlankGrows(buffer, ' ');
        LinesAreNormal(file[1..], buffer + " ", true, max, notice);
      }
    } else {
      OneBlankGrows(buffer, Upper(file[0]));
      LinesAreNormal(file[1..], buffer + [Upper(file[0])], false, max, notice);
    }
  }

  // ---------------------------------------------------------------- next_keyword

  /** What is left of the line in the buffer, from scan_ptr on, and the lines not yet read. */
  datatype Scan = Scan(rest: string, lines: seq<string>)

  predicate ScanOk(sc: Scan) {
    OneBlank(sc.rest) && AllNormal(sc.lines)
  }

  function DropBlank(s: string): (r: string)
    ensures |r| <= |s| && r == s[|s| - |r|..]
  {
    if s != "" && s[0] == ' ' then s[1..] else s
  }

  lemma DropBlankOk(s: string)
    requires OneBlank(s)
    ensures OneBlank(DropBlank(s)) && (DropBlank(s) != "" ==> DropBlank(s)[0] != ' ')
  {
    if s != "" && s[0] == ' ' && |s| == 1 {
      assert s[1..] == "";
    }
  }

  /** Read lines until one is neither empty nor a comment. */
  function ReadLine(lines: seq<string>): (sc: Scan)
    ensures sc.rest == "" ==> sc.lines == []
    ensures sc.rest != "" ==> |sc.lines| < |lines|
  {
    if lines == [] then Scan("", [])
    else if lines[0] == "" || lines[0][0] == '*' then ReadLine(lines[1..])
    else Scan(lines[0], lines[1..])
  }

  /** Where the scan for a keyword starts: behind a blank, or else on the next line. */
  function Prepare(sc: Scan): (r: Scan)
    ensures r.rest == "" ==> r.lines == []
    ensures |r.lines| <= |sc.lines| && (DropBlank(sc.rest) == "" && r.rest != "" ==> |r.lines| < |sc.lines|)
  {
    var rest := DropBlank(sc.rest);
    if rest == "" then ReadLine(sc.lines) else Scan(rest, sc.lines)
  }

  lemma {:induction false} ReadLineOk(lines: seq<string>)
    requires AllNormal(lines)
    ensures Normal(ReadLine(lines).rest) && AllNormal(ReadLine(lines).lines)
  {
    if lines != [] {
      ReadLineOk(lines[1..]);
    }
  }

  lemma PrepareOk(sc: Scan)
    requires ScanOk(sc)
    ensures ScanOk(Prepare(sc)) && Normal(Prepare(sc).rest)
  {
    DropBlankOk(sc.rest);
    ReadLineOk(sc.lines);
  }

  /** Length of s up to a semicolon. */
  function DataLength(s: string): (n: nat)
    ensures n <= |s| && (n < |s| ==> s[n] == ';') && ';' !in s[..n]
  {
    if s == "" || s[0] == ';' then 0 else 1 + DataLength(s[1..])
  }

  /** The first keyword in the list that begins the text, or the number of keywords. */
  function KeywordAt(keys: seq<Keyword>, s: string, i: nat): (k: nat)
    requires i <= |keys|
    ensures i <= k <= |keys| && (k < |keys| ==> keys[k] <= s)
    ensures forall j :: i <= j < k ==> !(keys[j] <= s)
    decreases |keys| - i
  {
    if i == |keys| || keys[i] <= s then i else KeywordAt(keys, s, i + 1)
  }

  /** next_keyword's answer: the index of the keyword, -1 for none, or -2 at the end of the file; the
      data behind the keyword; and the new scan position. */
  datatype Found = Found(keyword: int, data: string, sc: Scan)

  /** Data may follow only a keyword that ends in an equals sign. */
  predicate Followed(key: Keyword, behind: string) {
    key[|key| - 1] == '=' || behind == "" || behind[0] == ';'
  }

  function Behind(key: Keyword, s: string): (r: string)
    requires key <= s
    ensures |r| < |s| && r == s[|s| - |r|..]
  {
    DropBlank(s[|key|..])
  }

  function Rest(behind: string): string {
    var n := DataLength(behind);
    if n < |behind| then behind[n + 1..] else ""
  }

  function NextKeyword(keys: seq<Keyword>, sc: Scan): (f: Found)
    ensures -2 <= f.keyword < |keys|
    ensures |f.sc.lines| <= |sc.lines| && Left(f.sc) <= Left(sc)
    ensures f.keyword == -1 ==> f.sc == Prepare(sc) && f.sc.rest != ""
    ensures f.keyword >= 0 ==> Left(f.sc) < Left(sc)
  {
    var at := Prepare(sc);
    PrepareShrinks(sc);
    if at.rest == "" then Found(-2, "", Scan(sc.rest, []))
    else
      var k := KeywordAt(keys, at.rest, 0);
      if k == |keys| || !Followed(keys[k], Behind(keys[k], at.rest)) then Found(-1, "", at)
      else
        var behind := Behind(keys[k], at.rest);
        Found(k, behind[..DataLength(behind)], Scan(Rest(behind), at.lines))
  }

  /** What is still to be scanned. */
  function Left(sc: Scan): nat {
    |sc.rest| + Size(sc.lines)
  }

  function Size(lines: seq<string>): nat {
    if lines == [] then 0 else |lines[0]| + 1 + Size(lines[1..])
  }

  lemma {:induction false} ReadLineShrinks(lines: seq<string>)
    ensures Left(ReadLine(lines)) <= Size(lines)
    ensures ReadLine(lines).rest != "" ==> Left(ReadLine(lines)) < Size(lines)
  {
    if lines != [] {
      ReadLineShrinks(lines[1..]);
    }
  }

  lemma PrepareShrinks(sc: Scan)
    ensures Left(Prepare(sc)) <= Left(sc)
  {
    ReadLineShrinks(sc.lines);
  }

  lemma RestOk(key: Keyword, s: string)
    requires OneBlank(s) && key <= s
    ensures OneBlank(Rest(Behind(key, s)))
  {
    var behind := Behind(key, s);
    OneBlankBehind(s, |s| - |behind|);
    if DataLength(behind) < |behind| {
      OneBlankBehind(behind, DataLength(behind) + 1);
    }
  }

  lemma NextKeywordOk(keys: seq<Keyword>, sc: Scan)
    requires ScanOk(sc)
    ensures ScanOk(NextKeyword(keys, sc).sc)
    ensures NextKeyword(keys, sc).keyword == -1 ==> Normal(NextKeyword(keys, sc).sc.rest)
  {
    PrepareOk(sc);
    var at := Prepare(sc);
    var k := NextKeyword(keys, sc).keyword;
    if k >= 0 {
      RestOk(keys[k], at.rest);
    }
  }

  /** What both passes may expect of one call of next_keyword. */
  predicate Scanned(keys: seq<Keyword>, sc: Scan, f: Found) {
    && -2 <= f.keyword < |keys|
    && Left(f.sc) <= Left(sc) && (f.keyword >= 0 ==> Left(f.sc) < Left(sc))
    && (f.keyword == -1 ==>
          f.sc.rest != "" && |f.sc.lines| <= |sc.lines| && (sc.rest == "" ==> |f.sc.lines| < |sc.lines|))
    && (ScanOk(sc) ==> ScanOk(f.sc) && (f.keyword == -1 ==> Normal(f.sc.rest)))
  }

  ghost predicate ScannerOk(next: (seq<Keyword>, Scan) -> Found) {
    forall keys, sc :: Scanned(keys, sc, next(keys, sc))
  }

  function FindNothing(keys: seq<Keyword>, sc: Scan): Found {
    Found(-2, "", sc)
  }

  /** The passes are defined for any scanner of this kind; next_keyword is one. */
  type KeywordScanner = next: (seq<Keyword>, Scan) -> Found | ScannerOk(next) witness FindNothing

  lemma NextKeywordIsScanned(keys: seq<Keyword>, sc: Scan)
    ensures Scanned(keys, sc, NextKeyword(keys, sc))
  {
    if ScanOk(sc) {
      NextKeywordOk(keys, sc);
    }
  }

  lemma NextKeywordIsScanner()
    ensures ScannerOk(NextKeyword)
  {
    forall keys, sc ensures Scanned(keys, sc, NextKeyword(keys, sc)) {
      NextKeywordIsScanned(keys, sc);
    }
  }

  // ---------------------------------------------------------------- check_continuation

  /** A line that goes on ends in a backslash. */
  predicate GoesOn(s: string) {
    s != "" && s[|s| - 1] == '\\'
  }

  function Cut(s: string): string {
    if GoesOn(s) then s[..|s| - 1] else s
  }

  /** The line that continues a constraint, or none: a section keyword or the end of the file. */
  datatype NextLine = Line(sc: Scan) | NoLine

  predicate LineOk(lines: seq<string>, sc: Scan) {
    && |sc.lines| < |lines|
    && (AllNormal(lines) ==> Normal(sc.rest) && AllNormal(sc.lines))
  }

  ghost predicate ReaderOk(read: seq<string> -> NextLine) {
    forall lines :: read(lines).Line? ==> LineOk(lines, read(lines).sc)
  }

  function ReadNothing(lines: seq<string>): NextLine {
    NoLine
  }

  type Reader = read: seq<string> -> NextLine | ReaderOk(read) witness ReadNothing

  /** next_keyword as it is called for a continuation line. */
  function ReadLineFor(next: KeywordScanner, nextSection: seq<Keyword>, lines: seq<string>): NextLine {
    var f := next(nextSection, Scan("", lines));
    if f.keyword == -1 then Line(f.sc) else NoLine
  }

  function ReaderFor(next: KeywordScanner, nextSection: seq<Keyword>): (read: Reader)
    ensures forall lines :: read(lines) == ReadLineFor(next, nextSection, lines)
  {
    ReaderForIsOk(next, nextSection);
    lines => ReadLineFor(next, nextSection, lines)
  }

  lemma ReaderForIsOk(next: KeywordScanner, nextSection: seq<Keyword>)
    ensures ReaderOk(lines => ReadLineFor(next, nextSection, lines))
  {
    forall lines
      ensures ReadLineFor(next, nextSection, lines).Line? ==>
                LineOk(lines, ReadLineFor(next, nextSection, lines).sc)
    {
      assert Scanned(nextSection, Scan("", lines), next(nextSection, Scan("", lines)));
    }
  }

  /** Astray: check_continuation found no line; the source then goes on with whatever scan_ptr points
      to. */
  datatype Continued = Continued(sc: Scan, goesOn: bool) | Astray

  /** Read a line that continues the last one, and cut a backslash off it. */
  function ReadOn(read: Reader, lines: seq<string>): (c: Continued)
    ensures c.Continued? ==> |c.sc.lines| < |lines|
  {
    match read(lines)
    case NoLine => Astray
    case Line(sc) => Continued(Scan(Cut(sc.rest), sc.lines), GoesOn(sc.rest))
  }

  /** check_continuation: skip a blank and, at the end of a line that goes on, read the next one. */
  function CheckContinuation(read: Reader, sc: Scan, goesOn: bool): (c: Continued)
    ensures c.Continued? ==> |c.sc.lines| < |sc.lines| || (c.sc.lines == sc.lines && |c.sc.rest| <= |sc.rest|)
  {
    var rest := DropBlank(sc.rest);
    if goesOn && rest == "" then ReadOn(read, sc.lines) else Continued(Scan(rest, sc.lines), goesOn)
  }

  lemma CutOk(s: string)
    requires Normal(s)
    ensures Normal(Cut(s))
  {
    if GoesOn(s) {
      OneBlankBefore(s, |s| - 1);
    }
  }

  lemma CheckContinuationOk(read: Reader, sc: Scan, goesOn: bool, c: Continued)
    requires ScanOk(sc) && c == CheckContinuation(read, sc, goesOn) && c.Continued?
    ensures ScanOk(c.sc) && Normal(c.sc.rest)
  {
    DropBlankOk(sc.rest);
    if goesOn && DropBlank(sc.rest) == "" {
      CutOk(read(sc.lines).sc.rest);
    }
  }
}
