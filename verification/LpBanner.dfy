/** lpbanner.c: psarray, which breaks a string into lines for a PostScript array. Its cursor runs ahead to
    the line length and back to a word break. */
module LpBanner {

  const NUL: char := '\0'

  /** isascii(c) && isspace(c) */
  predicate IsSpace(c: char) {
    c == ' ' || c == '\t' || c == '\n' || c == '\U{0b}' || c == '\U{0c}' || c == '\r'
  }

  // ---------------------------------------------------------------- one line

  /** The first character from p on that is not white space, or the end. */
  function SkipSpace(s: string, p: nat): (q: nat)
    requires p <= |s|
    ensures p <= q <= |s| && (q < |s| ==> !IsSpace(s[q])) && forall k :: p <= k < q ==> IsSpace(s[k])
    decreases |s| - p
  {
    if p < |s| && IsSpace(s[p]) then SkipSpace(s, p + 1) else p
  }

  /** The end of the text up to e, without the white space in front of e; not below p. */
  function TrimEnd(s: string, p: nat, e: nat): (q: nat)
    requires p <= e <= |s|
    ensures p <= q <= e && (q > p ==> !IsSpace(s[q - 1])) && forall k :: q <= k < e ==> IsSpace(s[k])
  {
    if e > p && IsSpace(s[e - 1]) then TrimEnd(s, p, e - 1) else e
  }

  /** The last white space behind p and before e, or p where there is none. */
  function LastSpace(s: string, p: nat, e: nat): (q: nat)
    requires p < e <= |s|
    ensures p <= q < e && (q > p ==> IsSpace(s[q])) && forall k :: q < k < e ==> !IsSpace(s[k])
    decreases e
  {
    if e - 1 == p || IsSpace(s[e - 1]) then e - 1 else LastSpace(s, p, e - 1)
  }

  /** A line starts at the first character that is no white space. It ends at the end of the string or, at
      the line length, at a word break; failing that, behind the last white space in the line, but before
      it where it is the last character; and failing that it is filled with a part of the word. */
  function LineEnd(s: string, start: nat, vll: nat): (e: nat)
    requires start <= |s| && vll >= 1
    ensures start <= e <= |s| && e <= start + vll
    ensures start < |s| ==> start < e
  {
    if |s| - start <= vll then |s|
    else if IsSpace(s[start + vll]) then start + vll
    else
      var space := LastSpace(s, start, start + vll);
      if space == start then start + vll
      else if space == start + vll - 1 then space
      else space + 1
  }

  /** The lines from p on. A string that ends in white space gives an empty last line. */
  function Lines(s: string, p: nat, vll: nat): seq<string>
    requires p <= |s| && vll >= 1
    decreases |s| - p
  {
    if p == |s| then []
    else
      var start := SkipSpace(s, p);
      var e := LineEnd(s, start, vll);
      [s[start..TrimEnd(s, start, e)]] + Lines(s, e, vll)
  }

  /** The whole array: a string shorter than the line length is taken as it is. */
  function Array(s: string, vll: nat): seq<string>
    requires vll >= 1
  {
    if |s| < vll then [s] else Lines(s, 0, vll)
  }

  // ---------------------------------------------------------------- what the breaks keep

  function Kept(c: char): string {
    if IsSpace(c) then "" else [c]
  }

  function NonSpace(s: string): string {
    if s == "" then "" else Kept(s[0]) + NonSpace(s[1..])
  }

  function Joined(lines: seq<string>): string {
    if lines == [] then "" else lines[0] + Joined(lines[1..])
  }

  lemma Regroup(a: string, b: string, c: string)
    ensures a + (b + c) == a + b + c
  {
  }

  lemma {:induction false} NonSpaceJoins(a: string, b: string)
    ensures NonSpace(a + b) == NonSpace(a) + NonSpace(b)
  {
    if a == "" {
      assert a + b == b;
    } else {
      NonSpaceJoins(a[1..], b);
      Regroup(Kept(a[0]), NonSpace(a[1..]), NonSpace(b));
      assert (a + b)[0] == a[0] && (a + b)[1..] == a[1..] + b;
    }
  }

  lemma {:induction false} OnlySpace(s: string)
    requires forall k :: 0 <= k < |s| ==> IsSpace(s[k])
    ensures NonSpace(s) == ""
  {
    if s != "" {
      OnlySpace(s[1..]);
    }
  }

  lemma Middle(x: string, y: string, z: string)
    requires NonSpace(x) == "" && NonSpace(z) == ""
    ensures NonSpace(x + (y + z)) == NonSpace(y)
  {
    NonSpaceJoins(x, y + z);
    NonSpaceJoins(y, z);
    assert "" + (NonSpace(y) + "") == NonSpace(y);
  }

  /** From p the characters up to e are white space, a line, and white space. */
  lemma LineKeeps(s: string, p: nat, a: nat, b: nat, e: nat)
    requires p <= a <= b <= e <= |s|
    requires forall k :: p <= k < a || b <= k < e ==> IsSpace(s[k])
    ensures NonSpace(s[p..e]) == NonSpace(s[a..b])
  {
    var x, y, z := s[p..a], s[a..b], s[b..e];
    OnlySpace(x);
    OnlySpace(z);
    Middle(x, y, z);
    ThreeParts(s, p, a, b, e);
  }

  lemma ThreeParts(s: string, p: nat, a: nat, b: nat, e: nat)
    requires p <= a <= b <= e <= |s|
    ensures s[p..e] == s[p..a] + (s[a..b] + s[b..e])
  {
  }

  lemma JoinedCons(line: string, more: seq<string>)
    ensures Joined([line] + more) == line + Joined(more)
  {
    assert ([line] + more)[1..] == more;
  }

  lemma TwoParts(s: string, p: nat, e: nat)
    requires p <= e <= |s|
    ensures s[p..] == s[p..e] + s[e..]
  {
  }

  lemma LineAndMore(s: string, p: nat, e: nat, line: string, more: seq<string>)
    requires p <= e <= |s| && NonSpace(s[p..e]) == NonSpace(line) && NonSpace(Joined(more)) == NonSpace(s[e..])
    ensures NonSpace(Joined([line] + more)) == NonSpace(s[p..])
  {
    JoinedCons(line, more);
    TwoParts(s, p, e);
    NonSpaceJoins(line, Joined(more));
    NonSpaceJoins(s[p..e], s[e..]);
  }

  /** The lines hold all the characters that are not white space, in order. */
  lemma {:induction false} LinesKeep(s: string, p: nat, vll: nat)
    requires p <= |s| && vll >= 1
    ensures NonSpace(Joined(Lines(s, p, vll))) == NonSpace(s[p..])
    decreases |s| - p
  {
    if p < |s| {
      var start := SkipSpace(s, p);
      var e := LineEnd(s, start, vll);
      LineKeeps(s, p, start, TrimEnd(s, start, e), e);
      LinesKeep(s, e, vll);
      LineAndMore(s, p, e, s[start..TrimEnd(s, start, e)], Lines(s, e, vll));
    }
  }

  /** Every line fits, and neither starts nor ends with white space. */
  lemma {:induction false} LinesFit(s: string, p: nat, vll: nat)
    requires p <= |s| && vll >= 1
    ensures forall l :: l in Lines(s, p, vll) ==> |l| <= vll && (l != "" ==> !IsSpace(l[0]) && !IsSpace(l[|l| - 1]))
    decreases |s| - p
  {
    if p < |s| {
      LinesFit(s, LineEnd(s, SkipSpace(s, p), vll), vll);
    }
  }

  predicate IsWord(s: string, a: nat, b: nat)
    requires a <= b <= |s|
  {
    forall k :: a <= k < b ==> !IsSpace(s[k])
  }

  /** A line ends inside a word exactly if it is filled by a single piece of a word that goes on. */
  lemma SplitsOnlyLongWords(s: string, p: nat, vll: nat)
    requires p < |s| && vll >= 1
    ensures var start := SkipSpace(s, p);
            var e := LineEnd(s, start, vll);
            (start < e < |s| && !IsSpace(s[e - 1]) && !IsSpace(s[e])) <==>
            (start + vll < |s| && IsWord(s, start, start + vll + 1))
  {
  }

  /** The array of any string: nothing but white space is lost, and the lines fit. */
  lemma ArrayKeeps(s: string, vll: nat)
    requires vll >= 1
    ensures NonSpace(Joined(Array(s, vll))) == NonSpace(s)
    ensures forall l :: l in Array(s, vll) ==> |l| <= vll
  {
    if |s| < vll {
      assert [s][1..] == [] && s + "" == s;
    } else {
      LinesKeep(s, 0, vll);
      LinesFit(s, 0, vll);
      assert s[0..] == s;
    }
  }

  predicate Trimmed(l: string) {
    l != "" ==> !IsSpace(l[0]) && !IsSpace(l[|l| - 1])
  }

  /** Every line of any string fits. None starts or ends with white space, except that a string shorter than the
      line length keeps what it has. */
  lemma ArrayFits(s: string, vll: nat)
    requires vll >= 1
    ensures forall l :: l in Array(s, vll) ==> |l| <= vll
    ensures (forall l :: l in Array(s, vll) ==> Trimmed(l)) <==> |s| >= vll || Trimmed(s)
  {
    if |s| < vll {
      assert s in Array(s, vll);
    } else {
      LinesFit(s, 0, vll);
    }
  }

  // ---------------------------------------------------------------- where the string is cut

  /** Where a line stands in the string. */
  datatype Cut = Cut(a: nat, b: nat)

  predicate AllSpace(s: string, a: nat, b: nat)
    requires a <= b <= |s|
  {
    forall k :: a <= k < b ==> IsSpace(s[k])
  }

  /** A word ends at k. */
  predicate WordEnds(s: string, k: nat)
    requires k <= |s|
  {
    k > 0 && !IsSpace(s[k - 1]) && (k == |s| || IsSpace(s[k]))
  }

  /** From p on the lines are pieces of the string as they stand there, with nothing but white space between them, and
      none could take in another word. One that does not fill its line ends at white space. */
  predicate CutsOk(s: string, p: nat, vll: nat, cuts: seq<Cut>, lines: seq<string>)
    decreases |cuts|
  {
    && p <= |s| && |cuts| == |lines|
    && if cuts == [] then AllSpace(s, p, |s|)
       else
         var c := cuts[0];
         && p <= c.a <= c.b <= |s| && lines[0] == s[c.a..c.b] && AllSpace(s, p, c.a)
         && (forall k :: c.b < k <= c.a + vll && k <= |s| ==> !WordEnds(s, k))
         && (c.b < c.a + vll && c.b < |s| ==> IsSpace(s[c.b]))
         && CutsOk(s, c.b, vll, cuts[1..], lines[1..])
  }

  lemma NoMoreFits(s: string, start: nat, vll: nat, e: nat, b: nat, k: nat)
    requires vll >= 1 && start <= |s| && e == LineEnd(s, start, vll) && b == TrimEnd(s, start, e)
    requires b < k <= start + vll && k <= |s|
    ensures !WordEnds(s, k)
  {
    if k <= e {
      assert IsSpace(s[k - 1]);
    }
  }

  lemma {:induction false} CutsFrom(s: string, p: nat, q: nat, vll: nat, cuts: seq<Cut>, lines: seq<string>)
    requires CutsOk(s, q, vll, cuts, lines) && p <= q && AllSpace(s, p, q)
    ensures CutsOk(s, p, vll, cuts, lines)
  {
  }

  lemma {:induction false} LinesAreCut(s: string, p: nat, vll: nat) returns (cuts: seq<Cut>)
    requires p <= |s| && vll >= 1
    ensures CutsOk(s, p, vll, cuts, Lines(s, p, vll))
    decreases |s| - p
  {
    if p == |s| {
      cuts := [];
    } else {
      var start := SkipSpace(s, p);
      var e := LineEnd(s, start, vll);
      var b := TrimEnd(s, start, e);
      var rest := LinesAreCut(s, e, vll);
      CutsFrom(s, b, e, vll, rest, Lines(s, e, vll));
      forall k | b < k <= start + vll && k <= |s| ensures !WordEnds(s, k) {
        NoMoreFits(s, start, vll, e, b, k);
      }
      cuts := [Cut(start, b)] + rest;
      assert cuts[1..] == rest && Lines(s, p, vll)[1..] == Lines(s, e, vll);
    }
  }

  /** The lines of any string stand in it, one behind the other with nothing but white space around them, and each is as
      long as it can be. A string shorter than the line length is one line. */
  lemma ArrayIsCut(s: string, vll: nat) returns (cuts: seq<Cut>)
    requires vll >= 1
    ensures CutsOk(s, 0, vll, cuts, Array(s, vll))
    ensures |s| < vll ==> Array(s, vll) == [s]
  {
    if |s| < vll {
      cuts := [Cut(0, |s|)];
      assert s[0..|s|] == s && cuts[1..] == [] && [s][1..] == [];
    } else {
      cuts := LinesAreCut(s, 0, vll);
    }
  }

  // ---------------------------------------------------------------- the loops

  /** What the two cursors say while a line is filled: the buffer holds the string from start, where the
      line begins, to the cursor in the string. */
  predicate Holds(line: seq<char>, inLine: nat, s: string, inStr: nat) {
    inLine <= |line| && inLine <= inStr <= |s| && line[..inLine] == s[inStr - inLine..inStr]
  }

  /** Fill the line, without the white space in front of it. */
  method Fill(s: string, p: nat, vll: nat, line: array<char>) returns (inLine: nat, inStr: nat)
    requires p < |s| && vll >= 1 && line.Length == vll + 1
    modifies line
    ensures Holds(line[..], inLine, s, inStr) && inLine <= vll
    ensures inStr - inLine == SkipSpace(s, p)
    ensures inStr == if |s| - SkipSpace(s, p) <= vll then |s| else SkipSpace(s, p) + vll
  {
    inLine, inStr := 0, p;
    while inLine < vll && inStr < |s|
      invariant p <= inStr <= |s| && inLine <= vll
      invariant Holds(line[..], inLine, s, inStr)
      invariant if inLine == 0 then SkipSpace(s, inStr) == SkipSpace(s, p) else inStr - inLine == SkipSpace(s, p)
    {
      ghost var held := line[..inLine];
      line[inLine] := s[inStr];
      assert line[..inLine] == held;
      HeldGrows(held, s, inStr, line[..inLine + 1]);
      if inLine > 0 || !IsSpace(line[inLine]) {
        inLine := inLine + 1;
      }
      inStr := inStr + 1;
    }
  }

  lemma HeldGrows(held: string, s: string, inStr: nat, more: string)
    requires |held| <= inStr < |s| && held == s[inStr - |held|..inStr] && more == held + [s[inStr]]
    ensures more == s[inStr - |held|..inStr + 1]
  {
  }

  /** The search for white space from the end of the line. */
  method SearchBack(line: array<char>, vll: nat, inStr0: nat, ghost text: string)
    returns (l: int, c: int, backTrack: int)
    requires line.Length == vll + 1 && line[..] == text && !IsSpace(text[vll])
    ensures -1 <= l < vll && c == inStr0 - backTrack && backTrack == vll - l
    ensures (l >= 0 ==> IsSpace(text[l])) && forall k :: l < k < |text| ==> !IsSpace(text[k])
  {
    l, c, backTrack := vll, inStr0, 0;
    while l >= 0 && !IsSpace(line[l])
      invariant -1 <= l <= vll && c == inStr0 - backTrack && backTrack == vll - l
      invariant forall k :: l < k < |text| ==> !IsSpace(text[k])
    {
      assert line[l] == text[l];
      l := l - 1;
      c := c - 1;
      backTrack := backTrack + 1;
    }
    assert l >= 0 ==> line[l] == text[l];
  }

  /** Pare the line back to a word break, if there is one. */
  method PareBack(s: string, vll: nat, line: array<char>, inLine0: nat, inStr0: nat) returns (inLine: nat, inStr: nat)
    requires line.Length == vll + 1 && inLine0 == vll >= 1 && Holds(line[..], vll, s, inStr0) && inStr0 < |s|
    requires !IsSpace(s[inStr0 - vll]) && line[vll] == s[inStr0] && !IsSpace(s[inStr0])
    ensures Holds(line[..], inLine, s, inStr) && inStr - inLine == inStr0 - vll
    ensures inStr == LineEnd(s, inStr0 - vll, vll)
  {
    ghost var start, text := inStr0 - vll, s[inStr0 - vll..inStr0 + 1];
    assert line[..] == text;
    var l, c, backTrack := SearchBack(line, vll, inStr0, text);
    BreakIs(s, start, vll, text, l);
    if l >= 0 && l < vll - 1 && IsSpace(line[l]) {
      l := l + 1;
      c := c + 1;
      backTrack := backTrack - 1;
    }
    if l < 0 {
      l := l + backTrack;
      c := c + backTrack;
    }
    inLine, inStr := l, c;
    Shorter(text, s, start, inStr0 + 1, inLine);
    assert line[..inLine] == line[..][..inLine];
  }

  /** Where the search stopped says where the line ends. */
  lemma BreakIs(s: string, start: nat, vll: nat, text: string, l: int)
    requires vll >= 1 && start + vll < |s| && text == s[start..start + vll + 1] && -1 <= l < vll && !IsSpace(text[0])
    requires (l >= 0 ==> IsSpace(text[l])) && forall k :: l < k < |text| ==> !IsSpace(text[k])
    ensures l != 0
    ensures LineEnd(s, start, vll) == if l < 0 then start + vll else if l < vll - 1 then start + l + 1 else start + l
  {
    assert text[vll] == s[start + vll];
    forall k | (if l < 0 then start else start + l) < k < start + vll ensures !IsSpace(s[k]) {
      assert text[k - start] == s[k];
    }
    LastSpaceIs(s, start, start + vll, if l < 0 then start else start + l);
  }

  lemma {:induction false} LastSpaceIs(s: string, p: nat, e: nat, q: nat)
    requires p <= q < e <= |s| && (q == p || IsSpace(s[q])) && forall k :: q < k < e ==> !IsSpace(s[k])
    ensures LastSpace(s, p, e) == q
    decreases e
  {
    if e - 1 > q {
      LastSpaceIs(s, p, e - 1, q);
    }
  }

  /** Get rid of white space at the end of the line. */
  method Trim(s: string, ghost start: nat, inStr: nat, line: array<char>, inLine: nat) returns (end: nat)
    requires Holds(line[..], inLine, s, inStr) && start == inStr - inLine
    ensures end <= inLine && start + end == TrimEnd(s, start, inStr)
  {
    end := inLine;
    ghost var text := line[..inLine];
    while end > 0 && IsSpace(line[end - 1])
      invariant end <= inLine && start + end <= inStr && TrimEnd(s, start, start + end) == TrimEnd(s, start, inStr)
    {
      assert text[end - 1] == s[start + end - 1];
      end := end - 1;
    }
    assert end > 0 ==> text[end - 1] == s[start + end - 1];
  }

  /** A line filled and pared back. */
  method FillAndPare(s: string, p: nat, vll: nat, line: array<char>) returns (inLine: nat, inStr: nat)
    requires p < |s| && vll >= 1 && line.Length == vll + 1
    modifies line
    ensures Holds(line[..], inLine, s, inStr) && inLine <= vll
    ensures inStr - inLine == SkipSpace(s, p) && inStr == LineEnd(s, SkipSpace(s, p), vll)
  {
    inLine, inStr := Fill(s, p, vll, line);
    line[inLine] := if inStr < |s| then s[inStr] else NUL;
    assert Holds(line[..], inLine, s, inStr);
    if inStr < |s| && !IsSpace(line[inLine]) {
      inLine, inStr := PareBack(s, vll, line, inLine, inStr);
    }
  }

  /** One line, trimmed. */
  method OneLine(s: string, p: nat, vll: nat, line: array<char>) returns (text: string, inStr: nat)
    requires p < |s| && vll >= 1 && line.Length == vll + 1
    modifies line
    ensures p < inStr <= |s|
    ensures var start := SkipSpace(s, p); inStr == LineEnd(s, start, vll) && text == s[start..TrimEnd(s, start, inStr)]
  {
    var inLine;
    ghost var start := SkipSpace(s, p);
    inLine, inStr := FillAndPare(s, p, vll, line);
    var end := Trim(s, start, inStr, line, inLine);
    text := line[..end];
    Shorter(line[..inLine], s, start, inStr, end);
    assert text == line[..inLine][..end];
    line[end] := NUL;
  }

  lemma Shorter(held: string, s: string, start: nat, e: nat, end: nat)
    requires start <= e <= |s| && held == s[start..e] && end <= |held|
    ensures held[..end] == s[start..start + end]
  {
  }

  /** psarray, given the line length. It ends, because each line takes up part of the string. */
  method PsArray(s: string, vll: nat) returns (out: seq<string>)
    requires vll >= 1
    ensures out == Array(s, vll)
  {
    if |s| < vll {
      return [s];
    }
    var line := new char[vll + 1];
    line[vll] := NUL;
    out := [];
    var inStr := 0;
    while inStr < |s|
      invariant inStr <= |s|
      invariant out + Lines(s, inStr, vll) == Lines(s, 0, vll)
    {
      ghost var before, p := out, inStr;
      var text;
      text, inStr := OneLine(s, inStr, vll, line);
      out := out + [text];
      assert before + ([text] + Lines(s, inStr, vll)) == out + Lines(s, inStr, vll);
    }
  }
}
