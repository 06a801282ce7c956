/** labelcomp.c: the word table of a label section and word_index, the parser of the words that
    combinations are made of. */
module LabelWords {

  import opened Machine

  const L_NONE := -1
  const L_IS_PREFIX := -2
  const L_IS_SUFFIX := -2

  /** An entry of l_words; prefix and suffix hold a table index, or one of the constants above. */
  datatype Word = Word(outputName: string, shortName: Option<string>, prefix: int, suffix: int)

  /** do_words looks prefixes and suffixes up among the words already stored. */
  predicate TableOk(words: seq<Word>) {
    forall i :: 0 <= i < |words| ==> -2 <= words[i].prefix < |words| && -2 <= words[i].suffix < |words|
  }

  // ---------------------------------------------------------------- specification

  /** The name stands at p, followed by a blank or the end. */
  predicate Stands(s: string, p: nat, name: string) {
    p + |name| <= |s| && s[p..p + |name|] == name && (p + |name| == |s| || s[p + |name|] == ' ')
  }

  /** How much of the text a word's output name, or else its short name, matches at p. */
  function Matched(w: Word, s: string, p: nat): (r: Option<nat>)
    ensures r.Some? ==> p + r.value <= |s|
  {
    if Stands(s, p, w.outputName) then Some(|w.outputName|)
    else if w.shortName.Some? && Stands(s, p, w.shortName.value) then Some(|w.shortName.value|)
    else None
  }

  /** Words not to be ignored, given the prefix and suffix met so far. */
  predicate Visible(words: seq<Word>, i: nat, prefix: int, suffix: int)
    requires i < |words|
  {
    && !(prefix == L_NONE && words[i].prefix >= 0)
    && !(prefix >= 0 && prefix != words[i].prefix)
    && !(suffix == L_NONE && words[i].suffix == L_IS_SUFFIX)
    && !(suffix >= 0 && suffix != words[i].suffix && suffix != i)
  }

  /** The first visible word from i on that matches, with the length matched. */
  function FindWord(words: seq<Word>, s: string, p: nat, prefix: int, suffix: int, i: nat): (r: Option<(nat, nat)>)
    requires i <= |words|
    ensures r.Some? ==> i <= r.value.0 < |words| && Visible(words, r.value.0, prefix, suffix)
                        && Matched(words[r.value.0], s, p) == Some(r.value.1)
    decreases |words| - i
  {
    if i == |words| then None
    else if Visible(words, i, prefix, suffix) && Matched(words[i], s, p).Some? then
      Some((i, Matched(words[i], s, p).value))
    else FindWord(words, s, p, prefix, suffix, i + 1)
  }

  function SkipBlank(s: string, p: nat): nat {
    if p < |s| && s[p] == ' ' then p + 1 else p
  }

  /** What a word found in the table leads to: an answer, or a prefix or suffix to go on with. */
  datatype Move = Answer(index: int) | Seek(prefix: int, suffix: int, found: int)

  function Decide(words: seq<Word>, i: nat, prefix: int, suffix: int, found: int): (m: Move)
    requires i < |words|
    ensures m.Seek? ==>
        prefix < 0 && suffix < 0 && ((m.prefix == prefix && m.suffix >= 0) || (m.prefix >= 0 && m.suffix == suffix))
  {
    if prefix >= 0 then Answer(i)
    else if words[i].prefix == L_IS_PREFIX then (if suffix >= 0 then Answer(-1) else Seek(i, suffix, found))
    else if words[i].prefix >= 0 then Answer(-1)
    else if suffix >= 0 then Answer(if i != suffix then -1 else found)
    else if words[i].suffix == L_IS_SUFFIX then Answer(-1)
    else if words[i].suffix >= 0 then Seek(prefix, words[i].suffix, i)
    else Answer(i)
  }

  /** word_index from p on: the index or -1, and where the scan pointer ends. At most one prefix or
      suffix is met, so the loop ends. */
  function Parse(words: seq<Word>, s: string, p: nat, prefix: int, suffix: int, found: int): (r: (int, nat))
    requires p <= |s|
    ensures p <= r.1 <= |s|
    decreases prefix < 0, suffix < 0
  {
    if p == |s| then (-1, p)
    else match FindWord(words, s, p, prefix, suffix, 0)
         case None => (-1, p)
         case Some((i, len)) =>
           var q := SkipBlank(s, p + len);
           match Decide(words, i, prefix, suffix, found)
           case Answer(index) => (index, q)
           case Seek(pre, suf, best) => Parse(words, s, q, pre, suf, best)
  }

  /** word_index at scan position p. */
  function Lookup(words: seq<Word>, s: string, p: nat): (r: (int, nat))
    requires p <= |s|
    ensures p <= r.1 <= |s|
  {
    Parse(words, s, p, L_NONE, L_NONE, -1)
  }

  // ---------------------------------------------------------------- the loop

  /** The line buffer and the global scan_ptr into it. */
  class Scanner {
    var buffer: string
    var scanPtr: nat

    ghost predicate Valid()
      reads this
    {
      scanPtr <= |buffer|
    }

    constructor (line: string)
      ensures Valid() && buffer == line && scanPtr == 0
    {
      buffer, scanPtr := line, 0;
    }

    /** The inner loop: the first word that may be here and is, or the number of words. */
    method SearchTable(words: seq<Word>, s: nat, prefix: int, suffix: int) returns (i: nat, lenMatched: nat)
      ensures match FindWord(words, buffer, s, prefix, suffix, 0)
              case None => i == |words|
              case Some((j, len)) => i == j && lenMatched == len
    {
      i, lenMatched := 0, 0;
      while i < |words|
        invariant i <= |words|
        invariant FindWord(words, buffer, s, prefix, suffix, 0) == FindWord(words, buffer, s, prefix, suffix, i)
      {
        if Visible(words, i, prefix, suffix) {
          lenMatched := |words[i].outputName|;
          if Stands(buffer, s, words[i].outputName) {
            break;
          }
          if words[i].shortName.Some? {
            lenMatched := |words[i].shortName.value|;
            if Stands(buffer, s, words[i].shortName.value) {
              break;
            }
          }
        }
        i := i + 1;
      }
    }

    /** The chain of tests on the word found. */
    method Judge(words: seq<Word>, i: nat, prefix: int, suffix: int, found: int) returns (m: Move)
      requires i < |words|
      ensures m == Decide(words, i, prefix, suffix, found)
    {
      if prefix >= 0 {
        return Answer(i);
      }
      if words[i].prefix == L_IS_PREFIX {
        return if suffix >= 0 then Answer(-1) else Seek(i, suffix, found);
      } else if words[i].prefix >= 0 {
        return Answer(-1);
      }
      if suffix >= 0 {
        return Answer(if i != suffix then -1 else found);
      } else if words[i].suffix == L_IS_SUFFIX {
        return Answer(-1);
      } else if words[i].suffix >= 0 {
        return Seek(prefix, words[i].suffix, i);
      }
      m := Answer(i);
    }

    /** One turn of the loop. */
    method Turn(words: seq<Word>, prefix: int, suffix: int, found: int) returns (m: Move)
      requires scanPtr < |buffer|
      modifies this`scanPtr
      ensures old(scanPtr) <= scanPtr <= |buffer|
      ensures m.Seek? ==> prefix < 0 && suffix < 0 && (m.prefix >= 0 || m.suffix >= 0)
      ensures Parse(words, buffer, old(scanPtr), prefix, suffix, found)
           == match m
              case Answer(index) => (index, scanPtr)
              case Seek(pre, suf, best) => Parse(words, buffer, scanPtr, pre, suf, best)
    {
      var i, lenMatched := SearchTable(words, scanPtr, prefix, suffix);
      if i == |words| {
        return Answer(-1);
      }
      m := Judge(words, i, prefix, suffix, found);
      scanPtr := SkipBlank(buffer, scanPtr + lenMatched);
    }

    method WordIndex(words: seq<Word>) returns (index: int)
      requires Valid()
      modifies this`scanPtr
      ensures Valid() && (index, scanPtr) == Lookup(words, buffer, old(scanPtr))
    {
      ghost var answer := Lookup(words, buffer, scanPtr);
      var prefix, suffix := L_NONE, L_NONE;
      var returnIndex: int := -1;
      while scanPtr < |buffer|
        invariant scanPtr <= |buffer|
        invariant Parse(words, buffer, scanPtr, prefix, suffix, returnIndex) == answer
        decreases prefix < 0 && suffix < 0
      {
        var move := Turn(words, prefix, suffix, returnIndex);
        if move.Answer? {
          return move.index;
        }
        prefix, suffix, returnIndex := move.prefix, move.suffix, move.found;
      }
      index := -1;
    }
  }

  // ---------------------------------------------------------------- soundness

  /** The text from p to q is word i alone. */
  predicate ReadsAlone(words: seq<Word>, s: string, p: nat, q: nat, i: nat)
    requires i < |words|
  {
    Matched(words[i], s, p).Some? && q == SkipBlank(s, p + Matched(words[i], s, p).value)
  }

  /** The text from p to q is word i, then word j. */
  predicate ReadsPair(words: seq<Word>, s: string, p: nat, q: nat, i: nat, j: nat)
    requires i < |words| && j < |words|
  {
    && Matched(words[i], s, p).Some?
    && ReadsAlone(words, s, SkipBlank(s, p + Matched(words[i], s, p).value), q, j)
  }

  lemma AfterPrefix(words: seq<Word>, s: string, p: nat, prefix: nat)
    requires TableOk(words) && p <= |s| && prefix < |words|
    ensures var (i, q) := Parse(words, s, p, prefix, L_NONE, -1);
            i == -1 || (0 <= i < |words| && words[i].prefix == prefix && ReadsAlone(words, s, p, q, i))
  {
  }

  lemma AfterSuffix(words: seq<Word>, s: string, p: nat, suffix: nat, found: nat)
    requires TableOk(words) && p <= |s| && suffix < |words|
    ensures var (i, q) := Parse(words, s, p, L_NONE, suffix, found);
            i == -1 || (i == found && words[suffix].prefix == L_NONE && ReadsAlone(words, s, p, q, suffix))
  {
  }

  /** The three ways in which word i may have been read from p to q. */
  predicate Reads(words: seq<Word>, s: string, p: nat, q: nat, i: nat)
    requires TableOk(words) && i < |words|
  {
    || (words[i].prefix == L_NONE && words[i].suffix == L_NONE && ReadsAlone(words, s, p, q, i))
    || (words[i].prefix >= 0 && words[words[i].prefix].prefix == L_IS_PREFIX
        && ReadsPair(words, s, p, q, words[i].prefix, i))
    || (words[i].prefix == L_NONE && words[i].suffix >= 0 && words[words[i].suffix].prefix == L_NONE
        && ReadsPair(words, s, p, q, i, words[i].suffix))
  }

  /** An index is answered only for a word by itself, a word after the prefix it needs, or a word
      before the suffix it needs; the scan pointer ends right behind what was read. */
  lemma LookupIsSound(words: seq<Word>, s: string, p: nat)
    requires TableOk(words) && p <= |s|
    ensures var (i, q) := Lookup(words, s, p);
            i == -1 || (0 <= i < |words| && Reads(words, s, p, q, i))
  {
    var first := FindWord(words, s, p, L_NONE, L_NONE, 0);
    if p < |s| && first.Some? {
      var (i, len) := first.value;
      var q := SkipBlank(s, p + len);
      if words[i].prefix == L_IS_PREFIX {
        AfterPrefix(words, s, q, i);
      } else if words[i].suffix >= 0 {
        AfterSuffix(words, s, q, words[i].suffix, i);
      }
    }
  }

  // ---------------------------------------------------------------- printing and back

  /** a is b or the first words of b. */
  predicate Heads(a: string, b: string) {
    a <= b && (|a| == |b| || b[|a|] == ' ')
  }

  predicate IsNameOf(w: Word, name: string) {
    name == w.outputName || w.shortName == Some(name)
  }

  /** No name of one word begins a name of another, and no name is empty. */
  ghost predicate Unambiguous(words: seq<Word>) {
    && (forall i, j, a, b ::
          0 <= i < |words| && 0 <= j < |words| && i != j && IsNameOf(words[i], a) && IsNameOf(words[j], b) ==>
          !Heads(a, b))
    && forall i :: 0 <= i < |words| ==> words[i].outputName != ""
  }

  /** The name that is printed: the short one, where short names are wanted and there is one. */
  function NameOf(w: Word, useShort: bool): string {
    if useShort && w.shortName.Some? then w.shortName.value else w.outputName
  }

  /** The two names of a word are the same, or neither begins the other. */
  predicate OwnNamesApart(words: seq<Word>) {
    forall i :: 0 <= i < |words| && words[i].shortName.Some? && words[i].shortName.value != words[i].outputName ==>
      var short := words[i].shortName.value;
      short != "" && !Heads(short, words[i].outputName) && !Heads(words[i].outputName, short)
  }

  /** Prefixes and suffixes in use are entries of that kind. */
  predicate WellReferenced(words: seq<Word>) {
    && TableOk(words)
    && forall i :: 0 <= i < |words| ==>
         && (words[i].prefix >= 0 ==>
               words[words[i].prefix].prefix == L_IS_PREFIX && words[words[i].prefix].suffix == L_NONE)
         && (words[i].suffix >= 0 ==>
               words[words[i].suffix].suffix == L_IS_SUFFIX && words[words[i].suffix].prefix == L_NONE)
  }

  predicate IsMain(words: seq<Word>, i: nat) {
    i < |words| && words[i].prefix != L_IS_PREFIX && words[i].suffix != L_IS_SUFFIX
  }

  lemma TwoNamesStand(s: string, p: nat, a: string, b: string)
    requires Stands(s, p, a) && Stands(s, p, b)
    ensures Heads(a, b) || Heads(b, a)
  {
    if |a| <= |b| {
      assert s[p..p + |b|][..|a|] == s[p..p + |a|];
      if |a| < |b| {
        assert b[|a|] == s[p + |a|];
      }
    } else {
      assert s[p..p + |a|][..|b|] == s[p..p + |b|];
      assert a[|b|] == s[p + |b|];
    }
  }

  /** Where the name of word i stands, that is what matches. */
  lemma MatchesName(words: seq<Word>, s: string, p: nat, i: nat, useShort: bool)
    requires i < |words| && (useShort ==> OwnNamesApart(words)) && Stands(s, p, NameOf(words[i], useShort))
    ensures Matched(words[i], s, p) == Some(|NameOf(words[i], useShort)|)
  {
    var w := words[i];
    if useShort && w.shortName.Some? && w.shortName.value != w.outputName && Stands(s, p, w.outputName) {
      TwoNamesStand(s, p, w.shortName.value, w.outputName);
    }
  }

  lemma NameIsThere(words: seq<Word>, s: string, p: nat, i: nat, useShort: bool)
    requires i < |words| && Unambiguous(words) && (useShort ==> OwnNamesApart(words))
    requires Stands(s, p, NameOf(words[i], useShort))
    ensures p < |s|
  {
    assert words[i].outputName != "";
  }

  /** Where a name of word i stands and i is visible, the table scan finds i. */
  lemma {:induction false} FindsOnly(words: seq<Word>, s: string, p: nat, prefix: int, suffix: int, k: nat, i: nat,
                                     useShort: bool)
    requires Unambiguous(words) && (useShort ==> OwnNamesApart(words)) && k <= i < |words|
    requires Visible(words, i, prefix, suffix) && Stands(s, p, NameOf(words[i], useShort))
    ensures FindWord(words, s, p, prefix, suffix, k) == Some((i, |NameOf(words[i], useShort)|))
    decreases i - k
  {
    MatchesName(words, s, p, i, useShort);
    if k < i {
      if Matched(words[k], s, p).Some? {
        var name := if Stands(s, p, words[k].outputName) then words[k].outputName else words[k].shortName.value;
        assert IsNameOf(words[k], name) && IsNameOf(words[i], NameOf(words[i], useShort));
        TwoNamesStand(s, p, name, NameOf(words[i], useShort));
      }
      FindsOnly(words, s, p, prefix, suffix, k + 1, i, useShort);
    }
  }

  lemma PartsStand(s: string, p: nat, a: string, b: string)
    requires Stands(s, p, a + " " + b)
    ensures Stands(s, p, a) && SkipBlank(s, p + |a|) == p + |a| + 1 && Stands(s, p + |a| + 1, b)
  {
    var t := a + " " + b;
    var n := |a| + 1;
    assert t[..|a|] == a && t[|a|] == ' ' && t[n..] == b;
    assert s[p..p + |t|][..|a|] == s[p..p + |a|] && s[p..p + |t|][|a|] == s[p + |a|];
    assert s[p..p + |t|][n..] == s[p + n..p + n + |b|];
  }

  /** What l_convert prints for a word and what it needs around it. */
  function Print(words: seq<Word>, i: nat, useShort: bool): string
    requires TableOk(words) && i < |words|
  {
    var w, name := words[i], NameOf(words[i], useShort);
    var named := if w.suffix >= 0 then name + " " + NameOf(words[w.suffix], useShort) else name;
    if w.prefix >= 0 then NameOf(words[w.prefix], useShort) + " " + named else named
  }

  predicate TableGood(words: seq<Word>, useShort: bool) {
    WellReferenced(words) && (useShort ==> OwnNamesApart(words))
  }

  lemma LooksUpAlone(words: seq<Word>, s: string, p: nat, i: nat, useShort: bool)
    requires Unambiguous(words) && TableGood(words, useShort) && i < |words|
    requires words[i].prefix == L_NONE && words[i].suffix == L_NONE && Stands(s, p, NameOf(words[i], useShort))
    ensures p < |s| && Lookup(words, s, p) == (i, SkipBlank(s, p + |NameOf(words[i], useShort)|))
  {
    NameIsThere(words, s, p, i, useShort);
    FindsOnly(words, s, p, L_NONE, L_NONE, 0, i, useShort);
  }

  /** The scan goes on behind a word that needs another, or ends behind one that does not. */
  lemma ParseSeeks(words: seq<Word>, s: string, p: nat, prefix: int, suffix: int, found: int, i: nat, n: nat, q: nat,
                   m: Move)
    requires p < |s| && FindWord(words, s, p, prefix, suffix, 0) == Some((i, n)) && q == SkipBlank(s, p + n)
    requires m == Decide(words, i, prefix, suffix, found)
    ensures Parse(words, s, p, prefix, suffix, found)
         == if m.Seek? then Parse(words, s, q, m.prefix, m.suffix, m.found) else (m.index, q)
  {
  }

  lemma PrefixedParse(words: seq<Word>, s: string, p: nat, q: nat, pre: nat, n: nat, i: nat, m: nat)
    requires pre < |words| && i < |words| && words[pre].prefix == L_IS_PREFIX && p < |s| && q < |s|
    requires FindWord(words, s, p, L_NONE, L_NONE, 0) == Some((pre, n)) && SkipBlank(s, p + n) == q
    requires FindWord(words, s, q, pre, L_NONE, 0) == Some((i, m))
    ensures Lookup(words, s, p) == (i, SkipBlank(s, q + m))
  {
    ParseSeeks(words, s, p, L_NONE, L_NONE, -1, pre, n, q, Seek(pre, L_NONE, -1));
    ParseSeeks(words, s, q, pre, L_NONE, -1, i, m, SkipBlank(s, q + m), Answer(i));
  }

  lemma FindsPrefixed(words: seq<Word>, s: string, p: nat, q: nat, pre: nat, i: nat, useShort: bool)
    requires Unambiguous(words) && TableGood(words, useShort) && i < |words| && words[i].prefix == pre
    requires pre < |words| && words[i].suffix != L_IS_SUFFIX
    requires Stands(s, p, NameOf(words[pre], useShort)) && Stands(s, q, NameOf(words[i], useShort))
    ensures FindWord(words, s, p, L_NONE, L_NONE, 0) == Some((pre, |NameOf(words[pre], useShort)|))
    ensures FindWord(words, s, q, pre, L_NONE, 0) == Some((i, |NameOf(words[i], useShort)|))
    ensures words[pre].prefix == L_IS_PREFIX
  {
    FindsOnly(words, s, p, L_NONE, L_NONE, 0, pre, useShort);
    FindsOnly(words, s, q, pre, L_NONE, 0, i, useShort);
  }

  /** a at p, and b behind a blank at q. */
  predicate Follow(s: string, p: nat, a: string, q: nat, b: string) {
    Stands(s, p, a) && SkipBlank(s, p + |a|) == q && p < q && Stands(s, q, b)
  }

  lemma LooksUpPrefixed(words: seq<Word>, s: string, p: nat, i: nat, pre: nat, q: nat, useShort: bool)
    requires Unambiguous(words) && TableGood(words, useShort) && i < |words| && pre < |words|
    requires words[i].prefix == pre && words[i].suffix != L_IS_SUFFIX
    requires Follow(s, p, NameOf(words[pre], useShort), q, NameOf(words[i], useShort))
    ensures p < |s| && Lookup(words, s, p) == (i, SkipBlank(s, q + |NameOf(words[i], useShort)|))
  {
    NameIsThere(words, s, q, i, useShort);
    FindsPrefixed(words, s, p, q, pre, i, useShort);
    PrefixedParse(words, s, p, q, pre, |NameOf(words[pre], useShort)|, i, |NameOf(words[i], useShort)|);
  }

  lemma LooksUpSuffixed(words: seq<Word>, s: string, p: nat, i: nat, suf: nat, q: nat, useShort: bool)
    requires Unambiguous(words) && TableGood(words, useShort) && i < |words| && words[i].prefix == L_NONE
    requires suf < |words| && words[i].suffix == suf
    requires Follow(s, p, NameOf(words[i], useShort), q, NameOf(words[suf], useShort))
    ensures p < |s| && Lookup(words, s, p) == (i, SkipBlank(s, q + |NameOf(words[suf], useShort)|))
  {
    NameIsThere(words, s, q, suf, useShort);
    FindsSuffix(words, s, p, q, i, suf, useShort);
    SuffixedParse(words, s, p, q, i, |NameOf(words[i], useShort)|, suf, |NameOf(words[suf], useShort)|);
  }

  lemma FindsSuffix(words: seq<Word>, s: string, p: nat, q: nat, i: nat, suf: nat, useShort: bool)
    requires Unambiguous(words) && TableGood(words, useShort) && i < |words| && words[i].prefix == L_NONE
    requires suf < |words| && words[i].suffix == suf
    requires Stands(s, p, NameOf(words[i], useShort)) && Stands(s, q, NameOf(words[suf], useShort))
    ensures FindWord(words, s, p, L_NONE, L_NONE, 0) == Some((i, |NameOf(words[i], useShort)|))
    ensures FindWord(words, s, q, L_NONE, suf, 0) == Some((suf, |NameOf(words[suf], useShort)|))
    ensures words[suf].prefix == L_NONE
  {
    FindsOnly(words, s, p, L_NONE, L_NONE, 0, i, useShort);
    FindsOnly(words, s, q, L_NONE, suf, 0, suf, useShort);
  }

  lemma SuffixedParse(words: seq<Word>, s: string, p: nat, q: nat, i: nat, n: nat, suf: nat, m: nat)
    requires i < |words| && suf < |words| && words[i].prefix == L_NONE && words[i].suffix == suf && p < q < |s|
    requires words[suf].prefix == L_NONE && FindWord(words, s, p, L_NONE, L_NONE, 0) == Some((i, n))
    requires SkipBlank(s, p + n) == q && FindWord(words, s, q, L_NONE, suf, 0) == Some((suf, m))
    ensures Lookup(words, s, p) == (i, SkipBlank(s, q + m))
  {
    ParseSeeks(words, s, p, L_NONE, L_NONE, -1, i, n, q, Seek(L_NONE, suf, i));
    ParseSeeks(words, s, q, L_NONE, suf, i, suf, m, SkipBlank(s, q + m), Answer(i));
  }

  /** Where the scan stops behind the printed word: a word with a prefix is answered before its
      suffix is looked at. */
  function PrintEnd(words: seq<Word>, s: string, p: nat, i: nat, useShort: bool): nat
    requires TableOk(words) && i < |words|
  {
    var w := words[i];
    if w.prefix >= 0 then SkipBlank(s, p + |NameOf(words[w.prefix], useShort)| + 1 + |NameOf(w, useShort)|)
    else SkipBlank(s, p + |Print(words, i, useShort)|)
  }

  lemma PrintIs(words: seq<Word>, i: nat, useShort: bool, pre: string, name: string)
    requires TableOk(words) && i < |words| && words[i].prefix >= 0
    requires pre == NameOf(words[words[i].prefix], useShort) && name == NameOf(words[i], useShort)
    ensures words[i].suffix < 0 ==> Print(words, i, useShort) == pre + " " + name
    ensures words[i].suffix >= 0 ==>
        Print(words, i, useShort) == (pre + " " + name) + " " + NameOf(words[words[i].suffix], useShort)
  {
    if words[i].suffix >= 0 {
      var c := NameOf(words[words[i].suffix], useShort);
      assert pre + " " + (name + " " + c) == (pre + " " + name) + " " + c;
    }
  }

  lemma PrefixStands(words: seq<Word>, s: string, p: nat, i: nat, useShort: bool, both: string, text: string)
    requires TableOk(words) && i < |words| && words[i].prefix >= 0 && Stands(s, p, text)
    requires words[i].suffix < 0 ==> text == both
    requires words[i].suffix >= 0 ==> text == both + " " + NameOf(words[words[i].suffix], useShort)
    ensures Stands(s, p, both)
  {
    if words[i].suffix >= 0 {
      PartsStand(s, p, both, NameOf(words[words[i].suffix], useShort));
    }
  }

  lemma PrefixFollows(words: seq<Word>, s: string, p: nat, i: nat, pre: nat, useShort: bool, q: nat)
    requires TableOk(words) && i < |words| && words[i].prefix == pre && Stands(s, p, Print(words, i, useShort))
    requires q == p + |NameOf(words[pre], useShort)| + 1
    ensures Follow(s, p, NameOf(words[pre], useShort), q, NameOf(words[i], useShort))
    ensures PrintEnd(words, s, p, i, useShort) == SkipBlank(s, q + |NameOf(words[i], useShort)|)
  {
    var a, b := NameOf(words[pre], useShort), NameOf(words[i], useShort);
    PrintIs(words, i, useShort, a, b);
    PrefixStands(words, s, p, i, useShort, a + " " + b, Print(words, i, useShort));
    PartsStand(s, p, a, b);
  }

  lemma SuffixFollows(words: seq<Word>, s: string, p: nat, i: nat, suf: nat, useShort: bool, q: nat)
    requires TableOk(words) && i < |words| && words[i].prefix < 0 && words[i].suffix == suf
    requires Stands(s, p, Print(words, i, useShort)) && q == p + |NameOf(words[i], useShort)| + 1
    ensures Follow(s, p, NameOf(words[i], useShort), q, NameOf(words[suf], useShort))
    ensures PrintEnd(words, s, p, i, useShort) == SkipBlank(s, q + |NameOf(words[suf], useShort)|)
  {
    PartsStand(s, p, NameOf(words[i], useShort), NameOf(words[suf], useShort));
  }

  /** Printing a word, with long names or with short ones, and looking the text up gives the word back, whatever follows
      after a blank. */
  lemma LookupInvertsPrint(words: seq<Word>, s: string, p: nat, i: nat, useShort: bool)
    requires Unambiguous(words) && TableGood(words, useShort) && IsMain(words, i)
    requires p <= |s| && Stands(s, p, Print(words, i, useShort))
    ensures Lookup(words, s, p) == (i, PrintEnd(words, s, p, i, useShort))
  {
    if words[i].prefix >= 0 {
      var pre: nat := words[i].prefix;
      var q := p + |NameOf(words[pre], useShort)| + 1;
      PrefixFollows(words, s, p, i, pre, useShort, q);
      LooksUpPrefixed(words, s, p, i, pre, q, useShort);
    } else if words[i].suffix >= 0 {
      var q := p + |NameOf(words[i], useShort)| + 1;
      SuffixFollows(words, s, p, i, words[i].suffix, useShort, q);
      LooksUpSuffixed(words, s, p, i, words[i].suffix, q, useShort);
    } else {
      LooksUpAlone(words, s, p, i, useShort);
    }
  }
}
