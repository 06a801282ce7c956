/** labelcomp.c: compute_max_length, the buffer size recorded for a word table; and the renderer it
    is for, l_convert of the label library's std_labels.c. */
module LabelLength {
  import opened Machine
  import opened LabelWords

  // ---------------------------------------------------------------- shorts

  /** l_max_length is a short: every store keeps the low 16 bits. */
  function WrapShort(x: int): (r: int)
    ensures -0x8000 <= r < 0x8000 && (x - r) % 0x1_0000 == 0
    ensures -0x8000 <= x < 0x8000 ==> r == x
  {
    (x + 0x8000) % 0x1_0000 - 0x8000
  }

  lemma WrapShortSum(x: int, y: int)
    ensures WrapShort(WrapShort(x) + y) == WrapShort(x + y)
  {
  }

  // ---------------------------------------------------------------- the length

  predicate IsAffix(w: Word) {
    w.prefix == L_IS_PREFIX || w.suffix == L_IS_SUFFIX
  }

  /** Length of the output name of entry k and of the blank next to it; nothing for L_NONE. */
  function Size(words: seq<Word>, k: int): (n: nat)
    requires k < |words|
  {
    if k >= 0 then |words[k].outputName| + 1 else 0
  }

  /** Whether entry i takes part: not a prefix or suffix itself, and selected. */
  predicate Counts(words: seq<Word>, parse: seq<bool>, i: nat)
    requires i < |words| == |parse|
  {
    !IsAffix(words[i]) && parse[i]
  }

  /** What entry w adds after an entry that needed prefix p and suffix s. */
  function Added(words: seq<Word>, w: Word, p: int, s: int): nat
    requires w.prefix < |words| && s < |words|
  {
    (if s != w.suffix then Size(words, s) else 0)
    + (if p != w.prefix then Size(words, w.prefix) else 0)
    + |w.outputName| + 1
  }

  /** The length of the selected entries from i on, prefixes and suffixes counted once per run. */
  function Length(words: seq<Word>, parse: seq<bool>, i: nat, p: int, s: int): nat
    requires TableOk(words) && i <= |words| == |parse| && s < |words|
    decreases |words| - i
  {
    if i == |words| then Size(words, s)
    else if Counts(words, parse, i) then
      Added(words, words[i], p, s) + Length(words, parse, i + 1, words[i].prefix, words[i].suffix)
    else Length(words, parse, i + 1, p, s)
  }

  function All(n: nat): seq<bool> {
    seq(n, _ => true)
  }

  /** The worst case over the whole table, with a classification and the NUL. */
  function WorstCase(words: seq<Word>, firstMain: nat, classLength: nat): nat
    requires TableOk(words) && firstMain <= |words|
  {
    classLength + 1 + Length(words, All(|words|), firstMain, L_NONE, L_NONE)
  }

  /** l_max_length += strlen(...) + 1, in a short; sum is the same without the limit. */
  method Add(maxLength: int, ghost sum: nat, words: seq<Word>, k: nat) returns (more: int, ghost total: nat)
    requires k < |words| && maxLength == WrapShort(sum)
    ensures more == WrapShort(sum + |words[k].outputName| + 1) && total == sum + |words[k].outputName| + 1
  {
    WrapShortSum(sum, |words[k].outputName| + 1);
    more := WrapShort(maxLength + |words[k].outputName| + 1);
    total := sum + |words[k].outputName| + 1;
  }

  method ComputeMaxLength(words: seq<Word>, firstMain: nat, classLength: nat) returns (maxLength: int)
    requires TableOk(words) && firstMain <= |words|
    ensures maxLength == WrapShort(WorstCase(words, firstMain, classLength))
  {
    var prefix, suffix := L_NONE, L_NONE;
    ghost var all := All(|words|);
    ghost var sum: nat := classLength + 1;
    maxLength := WrapShort(classLength + 1);
    for i := firstMain to |words|
      invariant -2 <= suffix < |words| && maxLength == WrapShort(sum)
      invariant sum + Length(words, all, i, prefix, suffix) == WorstCase(words, firstMain, classLength)
    {
      if words[i].prefix == L_IS_PREFIX || words[i].suffix == L_IS_SUFFIX {
        continue;
      }
      if suffix >= 0 && suffix != words[i].suffix {
        maxLength, sum := Add(maxLength, sum, words, suffix);
      }
      suffix := words[i].suffix;
      if words[i].prefix >= 0 && prefix != words[i].prefix {
        maxLength, sum := Add(maxLength, sum, words, words[i].prefix);
      }
      prefix := words[i].prefix;
      maxLength, sum := Add(maxLength, sum, words, i);
    }
    if suffix >= 0 {
      maxLength, sum := Add(maxLength, sum, words, suffix);
    }
  }

  // ---------------------------------------------------------------- the renderer

  function SuffixText(words: seq<Word>, s: int, useShort: bool): string
    requires s < |words|
  {
    if s >= 0 then " " + NameOf(words[s], useShort) else ""
  }

  function PrefixText(words: seq<Word>, p: int, useShort: bool): string
    requires p < |words|
  {
    if p >= 0 then " " + NameOf(words[p], useShort) + " " else " "
  }

  predicate Continues(w: Word, p: int, s: int) {
    (s >= 0 && s == w.suffix) || (p >= 0 && p == w.prefix)
  }

  /** What l_convert puts in front of entry w: a slash where the word continues the open prefix or the
      pending suffix, and otherwise the pending suffix and the prefix w needs. */
  function Separator(words: seq<Word>, w: Word, p: int, s: int, useShort: bool): string
    requires w.prefix < |words| && s < |words|
  {
    if Continues(w, p, s) then "/" else SuffixText(words, s, useShort) + PrefixText(words, w.prefix, useShort)
  }

  /** The open prefix behind entry w; a continuing word leaves it as it is. */
  function OpenPrefix(w: Word, p: int, s: int): int {
    if Continues(w, p, s) then p else if w.prefix >= 0 then w.prefix else L_NONE
  }

  /** What l_convert appends for the entries from i on. */
  function Rendered(words: seq<Word>, parse: seq<bool>, i: nat, p: int, s: int, useShort: bool): string
    requires TableOk(words) && i <= |words| == |parse| && s < |words|
    decreases |words| - i
  {
    if i == |words| then SuffixText(words, s, useShort)
    else if !parse[i] then Rendered(words, parse, i + 1, p, s, useShort)
    else
      var w := words[i];
      Separator(words, w, p, s, useShort) + NameOf(w, useShort)
      + Rendered(words, parse, i + 1, OpenPrefix(w, p, s), w.suffix, useShort)
  }

  /** What goes in front of entry w; the open prefix is given up unless the word continues it. */
  method PutSeparator(words: seq<Word>, w: Word, p: int, s: int, useShort: bool) returns (text: string, prefix: int)
    requires -2 <= w.prefix < |words| && s < |words|
    ensures text == Separator(words, w, p, s, useShort) && prefix == OpenPrefix(w, p, s)
  {
    prefix := p;
    if (s >= 0 && s == w.suffix) || (prefix >= 0 && prefix == w.prefix) {
      text := "/";
    } else {
      text := "";
      if s >= 0 {
        text := " " + NameOf(words[s], useShort);
      }
      prefix := L_NONE;
      if w.prefix >= 0 {
        prefix := w.prefix;
        text := text + (" " + NameOf(words[prefix], useShort) + " ");
      } else {
        text := text + " ";
      }
    }
  }

  method Convert(words: seq<Word>, firstMain: nat, class_: string, parse: seq<bool>,
                 useShort: bool) returns (out: string)
    requires TableOk(words) && firstMain <= |words| == |parse|
    ensures out == class_ + Rendered(words, parse, firstMain, L_NONE, L_NONE, useShort)
  {
    var prefix, suffix := L_NONE, L_NONE;
    out := class_;
    ghost var goal := class_ + Rendered(words, parse, firstMain, L_NONE, L_NONE, useShort);
    for i := firstMain to |words|
      invariant -2 <= suffix < |words|
      invariant out + Rendered(words, parse, i, prefix, suffix, useShort) == goal
    {
      if parse[i] {
        ghost var rest := Rendered(words, parse, i + 1, OpenPrefix(words[i], prefix, suffix), words[i].suffix,
                                   useShort);
        Associate(out, Separator(words, words[i], prefix, suffix, useShort), NameOf(words[i], useShort), rest);
        var separator;
        separator, prefix := PutSeparator(words, words[i], prefix, suffix, useShort);
        suffix := words[i].suffix;
        out := out + separator;
        out := out + NameOf(words[i], useShort);
      }
    }
    if suffix >= 0 {
      out := out + " " + NameOf(words[suffix], useShort);
    }
  }

  lemma Associate(a: string, b: string, c: string, d: string)
    ensures a + (b + c + d) == a + b + c + d
  {
  }

  // ---------------------------------------------------------------- the bound

  /** Leaving one entry out never makes the rest longer. */
  lemma {:induction false} LeavingOut(words: seq<Word>, parse: seq<bool>, i: nat, p: int, s: int, w: Word)
    requires TableOk(words) && i <= |words| == |parse| && s < |words| && w.prefix < |words| && w.suffix < |words|
    ensures Length(words, parse, i, p, s) <= Added(words, w, p, s) + Length(words, parse, i, w.prefix, w.suffix)
    decreases |words| - i
  {
    if i < |words| && !Counts(words, parse, i) {
      LeavingOut(words, parse, i + 1, p, s, w);
    }
  }

  /** Any selection is at most as long as the full table. */
  lemma {:induction false} SelectionIsShorter(words: seq<Word>, parse: seq<bool>, i: nat, p: int, s: int)
    requires TableOk(words) && i <= |words| == |parse| && s < |words|
    ensures Length(words, parse, i, p, s) <= Length(words, All(|words|), i, p, s)
    decreases |words| - i
  {
    if i < |words| {
      SelectionIsShorter(words, parse, i + 1, p, s);
      SelectionIsShorter(words, parse, i + 1, words[i].prefix, words[i].suffix);
      if !IsAffix(words[i]) && !parse[i] {
        LeavingOut(words, All(|words|), i + 1, p, s, words[i]);
      }
    }
  }

  /** Length already counted for prefix q that the renderer, with another prefix open, has not printed. */
  function Credit(words: seq<Word>, open_: int, q: int): nat
    requires q < |words|
  {
    if open_ != q then Size(words, q) else 0
  }

  /** Names that are printed are no longer than the output names that were counted. */
  predicate NamesFit(words: seq<Word>, useShort: bool) {
    forall i :: 0 <= i < |words| ==> |NameOf(words[i], useShort)| <= |words[i].outputName|
  }

  /** Only main entries are selected; prefix and suffix entries carry no bits of their own. */
  predicate MainOnly(words: seq<Word>, parse: seq<bool>)
    requires |words| == |parse|
  {
    forall i :: 0 <= i < |words| && parse[i] ==> !IsAffix(words[i])
  }

  lemma RendersNext(words: seq<Word>, parse: seq<bool>, i: nat, p: int, s: int, useShort: bool)
    requires TableOk(words) && i < |words| == |parse| && s < |words|
    ensures var w := words[i];
            |Rendered(words, parse, i, p, s, useShort)| ==
              if !parse[i] then |Rendered(words, parse, i + 1, p, s, useShort)|
              else |Separator(words, w, p, s, useShort)| + |NameOf(w, useShort)|
                   + |Rendered(words, parse, i + 1, OpenPrefix(w, p, s), w.suffix, useShort)|
  {
  }

  lemma CountsNext(words: seq<Word>, parse: seq<bool>, i: nat, p: int, s: int)
    requires TableOk(words) && i < |words| == |parse| && s < |words| && (parse[i] ==> !IsAffix(words[i]))
    ensures Length(words, parse, i, p, s) ==
              if !parse[i] then Length(words, parse, i + 1, p, s)
              else Added(words, words[i], p, s) + Length(words, parse, i + 1, words[i].prefix, words[i].suffix)
  {
  }

  /** The renderer stays within the counted length, although the prefix it has open may differ from
      the prefix of the last word. */
  lemma {:induction false} RenderedWithin(words: seq<Word>, parse: seq<bool>, i: nat, open_: int, p: int, s: int,
                                          useShort: bool)
    requires TableOk(words) && i <= |words| == |parse| && s < |words| && p < |words|
    requires NamesFit(words, useShort) && MainOnly(words, parse)
    ensures |Rendered(words, parse, i, open_, s, useShort)| <= Length(words, parse, i, p, s) + Credit(words, open_, p)
    decreases |words| - i
  {
    if i < |words| {
      RendersNext(words, parse, i, open_, s, useShort);
      CountsNext(words, parse, i, p, s);
      if parse[i] {
        var w := words[i];
        RenderedWithin(words, parse, i + 1, OpenPrefix(w, open_, s), w.prefix, w.suffix, useShort);
        SeparatorWithin(words, w, open_, p, s, useShort);
      } else {
        RenderedWithin(words, parse, i + 1, open_, p, s, useShort);
      }
    }
  }

  lemma SeparatorWithin(words: seq<Word>, w: Word, open_: int, p: int, s: int, useShort: bool)
    requires w.prefix < |words| && s < |words| && p < |words| && NamesFit(words, useShort)
    ensures |Separator(words, w, open_, s, useShort)| + Credit(words, OpenPrefix(w, open_, s), w.prefix)
            <= Added(words, w, p, s) - |w.outputName| + Credit(words, open_, p)
  {
  }

  /** l_max_length is enough for every label: any classification within the length counted, any
      selection of main words, NUL included, provided the worst case fits a short and the names
      printed are no longer than the output names. */
  lemma MaxLengthSuffices(words: seq<Word>, firstMain: nat, classLength: nat, class_: string, parse: seq<bool>,
                          useShort: bool)
    requires TableOk(words) && firstMain <= |words| == |parse| && |class_| <= classLength
    requires NamesFit(words, useShort) && MainOnly(words, parse) && WorstCase(words, firstMain, classLength) < 0x8000
    ensures |class_ + Rendered(words, parse, firstMain, L_NONE, L_NONE, useShort)| + 1
            <= WrapShort(WorstCase(words, firstMain, classLength))
  {
    RenderedWithin(words, parse, firstMain, L_NONE, L_NONE, L_NONE, useShort);
    SelectionIsShorter(words, parse, firstMain, L_NONE, L_NONE);
  }

  /** With long names the names always fit, so only the short can be too small. */
  lemma LongNamesFit(words: seq<Word>)
    ensures NamesFit(words, false)
  {
  }

  predicate OneAffixEach(words: seq<Word>) {
    forall i :: 0 <= i < |words| ==> words[i].prefix < 0 || words[i].suffix < 0
  }

  /** The bound is tight: where no word needs both a prefix and a suffix, the label with all main
      words has exactly the counted length. */
  lemma {:induction false} RenderedExactly(words: seq<Word>, parse: seq<bool>, i: nat, p: int, s: int)
    requires TableOk(words) && i <= |words| == |parse| && s < |words| && p < |words|
    requires OneAffixEach(words) && MainOnly(words, parse) && (p < 0 || s < 0)
    ensures |Rendered(words, parse, i, if p >= 0 then p else L_NONE, s, false)| == Length(words, parse, i, p, s)
    decreases |words| - i
  {
    if i < |words| {
      if parse[i] {
        RenderedExactly(words, parse, i + 1, words[i].prefix, words[i].suffix);
      } else {
        RenderedExactly(words, parse, i + 1, p, s);
      }
    }
  }

  lemma {:induction false} MainIsAll(words: seq<Word>, main: seq<bool>, i: nat, p: int, s: int)
    requires TableOk(words) && i <= |words| == |main| && s < |words|
    requires forall k :: 0 <= k < |words| ==> main[k] == !IsAffix(words[k])
    ensures Length(words, main, i, p, s) == Length(words, All(|words|), i, p, s)
    decreases |words| - i
  {
    if i < |words| {
      MainIsAll(words, main, i + 1, p, s);
      MainIsAll(words, main, i + 1, words[i].prefix, words[i].suffix);
    }
  }

  /** Every label of any selection of main words fits the limit, NUL included. */
  ghost predicate AllFit(words: seq<Word>, firstMain: nat, class_: string, useShort: bool, limit: int)
    requires TableOk(words) && firstMain <= |words|
  {
    forall parse: seq<bool> :: |parse| == |words| && MainOnly(words, parse) ==>
      |class_ + Rendered(words, parse, firstMain, L_NONE, L_NONE, useShort)| + 1 <= limit
  }

  /** On such tables all labels with long names fit a limit if and only if the worst case does. */
  lemma WorstCaseExactly(words: seq<Word>, firstMain: nat, class_: string, limit: int)
    requires TableOk(words) && firstMain <= |words| && OneAffixEach(words)
    ensures AllFit(words, firstMain, class_, false, limit) <==> WorstCase(words, firstMain, |class_|) <= limit
  {
    var main := seq(|words|, i requires 0 <= i < |words| => !IsAffix(words[i]));
    LongNamesFit(words);
    RenderedExactly(words, main, firstMain, L_NONE, L_NONE);
    MainIsAll(words, main, firstMain, L_NONE, L_NONE);
    assert MainOnly(words, main);
    forall parse: seq<bool> | |parse| == |words| && MainOnly(words, parse)
      ensures |class_ + Rendered(words, parse, firstMain, L_NONE, L_NONE, false)| + 1
              <= WorstCase(words, firstMain, |class_|)
    {
      RenderedWithin(words, parse, firstMain, L_NONE, L_NONE, L_NONE, false);
      SelectionIsShorter(words, parse, firstMain, L_NONE, L_NONE);
    }
  }

  /** Hence on such tables the stored length suffices for all labels with long names if and only if the worst
      case fits a short. */
  lemma MaxLengthExactly(words: seq<Word>, firstMain: nat, class_: string)
    requires TableOk(words) && firstMain <= |words| && OneAffixEach(words)
    ensures AllFit(words, firstMain, class_, false, WrapShort(WorstCase(words, firstMain, |class_|)))
       <==> WorstCase(words, firstMain, |class_|) < 0x8000
  {
    WorstCaseExactly(words, firstMain, class_, WrapShort(WorstCase(words, firstMain, |class_|)));
  }

  // ---------------------------------------------------------------- any table

  /** The longest text that l_convert can append for the entries from i on: each main entry is left out or selected,
      whichever gives more. */
  function Longest(words: seq<Word>, i: nat, p: int, s: int, useShort: bool): nat
    requires TableOk(words) && i <= |words| && s < |words|
    decreases |words| - i
  {
    if i == |words| then |SuffixText(words, s, useShort)|
    else
      var w, without := words[i], Longest(words, i + 1, p, s, useShort);
      if IsAffix(w) then without
      else
        Max(without, |Separator(words, w, p, s, useShort)| + |NameOf(w, useShort)|
                     + Longest(words, i + 1, OpenPrefix(w, p, s), w.suffix, useShort))
  }

  function Max(a: nat, b: nat): nat {
    if a >= b then a else b
  }

  /** Leaving entry i out, or selecting it if it is a main one, gives no more. */
  lemma LongestBounds(words: seq<Word>, i: nat, p: int, s: int, useShort: bool)
    requires TableOk(words) && i < |words| && s < |words|
    ensures Longest(words, i + 1, p, s, useShort) <= Longest(words, i, p, s, useShort)
    ensures var w := words[i];
            !IsAffix(w) ==>
              |Separator(words, w, p, s, useShort)| + |NameOf(w, useShort)|
              + Longest(words, i + 1, OpenPrefix(w, p, s), w.suffix, useShort) <= Longest(words, i, p, s, useShort)
  {
  }

  lemma {:induction false} NoneIsLonger(words: seq<Word>, parse: seq<bool>, i: nat, p: int, s: int, useShort: bool)
    requires TableOk(words) && i <= |words| == |parse| && s < |words| && MainOnly(words, parse)
    ensures |Rendered(words, parse, i, p, s, useShort)| <= Longest(words, i, p, s, useShort)
    decreases |words| - i
  {
    if i < |words| {
      LongestBounds(words, i, p, s, useShort);
      RendersNext(words, parse, i, p, s, useShort);
      if parse[i] {
        NoneIsLonger(words, parse, i + 1, OpenPrefix(words[i], p, s), words[i].suffix, useShort);
      } else {
        NoneIsLonger(words, parse, i + 1, p, s, useShort);
      }
    }
  }

  /** Entries in front of i do not matter. */
  lemma {:induction false} OnlyFrom(words: seq<Word>, a: seq<bool>, b: seq<bool>, i: nat, p: int, s: int,
                                    useShort: bool)
    requires TableOk(words) && i <= |words| == |a| == |b| && s < |words| && a[i..] == b[i..]
    ensures Rendered(words, a, i, p, s, useShort) == Rendered(words, b, i, p, s, useShort)
    decreases |words| - i
  {
    if i < |words| {
      assert a[i] == a[i..][0] && a[i + 1..] == a[i..][1..] && b[i + 1..] == b[i..][1..];
      OnlyFrom(words, a, b, i + 1, p, s, useShort);
      OnlyFrom(words, a, b, i + 1, OpenPrefix(words[i], p, s), words[i].suffix, useShort);
    }
  }

  /** Some selection gives that text. */
  lemma {:induction false} OneIsLongest(words: seq<Word>, i: nat, p: int, s: int, useShort: bool)
    returns (parse: seq<bool>)
    requires TableOk(words) && i <= |words| && s < |words|
    ensures |parse| == |words| && MainOnly(words, parse)
    ensures |Rendered(words, parse, i, p, s, useShort)| == Longest(words, i, p, s, useShort)
    decreases |words| - i
  {
    if i == |words| {
      parse := seq(|words|, _ => false);
    } else {
      var w := words[i];
      var without := OneIsLongest(words, i + 1, p, s, useShort);
      parse := without[i := false];
      OnlyFrom(words, parse, without, i + 1, p, s, useShort);
      if !IsAffix(w) && Longest(words, i, p, s, useShort) > Longest(words, i + 1, p, s, useShort) {
        var with_ := OneIsLongest(words, i + 1, OpenPrefix(w, p, s), w.suffix, useShort);
        parse := with_[i := true];
        OnlyFrom(words, parse, with_, i + 1, OpenPrefix(w, p, s), w.suffix, useShort);
      }
    }
  }

  /** For any table, long names or short: all labels fit a limit if and only if the longest text does. */
  lemma LongestExactly(words: seq<Word>, firstMain: nat, class_: string, useShort: bool, limit: int)
    requires TableOk(words) && firstMain <= |words|
    ensures AllFit(words, firstMain, class_, useShort, limit)
       <==> |class_| + Longest(words, firstMain, L_NONE, L_NONE, useShort) + 1 <= limit
  {
    var longest := OneIsLongest(words, firstMain, L_NONE, L_NONE, useShort);
    forall parse: seq<bool> | |parse| == |words| && MainOnly(words, parse)
      ensures |Rendered(words, parse, firstMain, L_NONE, L_NONE, useShort)|
              <= Longest(words, firstMain, L_NONE, L_NONE, useShort)
    {
      NoneIsLonger(words, parse, firstMain, L_NONE, L_NONE, useShort);
    }
  }

  /** Where words need a prefix and a suffix, more may be counted than the longest label takes: of two such words with
      the same suffix, the second is printed as a slash and its name, whatever its prefix. */
  lemma WorstCaseIsLoose(words: seq<Word>)
    requires words == [Word("P", None, L_IS_PREFIX, L_NONE), Word("Q", None, L_IS_PREFIX, L_NONE),
                       Word("S", None, L_NONE, L_IS_SUFFIX), Word("A", None, 0, 2), Word("B", None, 1, 2)]
    ensures TableOk(words) && WorstCase(words, 3, 1) == 12 && 1 + Longest(words, 3, L_NONE, L_NONE, false) + 1 == 10
  {
    var all := All(5);
    assert Length(words, all, 5, 1, 2) == 2;
    assert Length(words, all, 4, 0, 2) == 6;
    assert Length(words, all, 3, L_NONE, L_NONE) == 10;
    assert Longest(words, 5, L_NONE, L_NONE, false) == 0 && Longest(words, 5, 0, 2, false) == 2;
    assert Longest(words, 5, 1, 2, false) == 2;
    assert Longest(words, 4, L_NONE, L_NONE, false) == 6;
    assert Longest(words, 4, 0, 2, false) == 4;
  }

  // ---------------------------------------------------------------- short names

  /** The table with the name that is printed with short names as the only name of each entry. */
  function Renamed(words: seq<Word>): (r: seq<Word>)
    ensures |r| == |words|
  {
    seq(|words|, i requires 0 <= i < |words| => Word(NameOf(words[i], true), None, words[i].prefix, words[i].suffix))
  }

  lemma {:induction false} RendersRenamed(words: seq<Word>, parse: seq<bool>, i: nat, p: int, s: int)
    requires TableOk(words) && i <= |words| == |parse| && s < |words|
    ensures Rendered(words, parse, i, p, s, true) == Rendered(Renamed(words), parse, i, p, s, false)
    decreases |words| - i
  {
    if i < |words| {
      RendersRenamed(words, parse, i + 1, p, s);
      RendersRenamed(words, parse, i + 1, OpenPrefix(words[i], p, s), words[i].suffix);
    }
  }

  /** With short names the stored length, which counts long names only, suffices for all labels if and only if
      the worst case over the names that are printed is within it. */
  lemma ShortNamesExactly(words: seq<Word>, firstMain: nat, class_: string)
    requires TableOk(words) && firstMain <= |words| && OneAffixEach(words)
    ensures AllFit(words, firstMain, class_, true, WrapShort(WorstCase(words, firstMain, |class_|)))
       <==> WorstCase(Renamed(words), firstMain, |class_|) <= WrapShort(WorstCase(words, firstMain, |class_|))
  {
    var short, limit := Renamed(words), WrapShort(WorstCase(words, firstMain, |class_|));
    WorstCaseExactly(short, firstMain, class_, limit);
    forall parse: seq<bool> | |parse| == |words| ensures MainOnly(words, parse) <==> MainOnly(short, parse) {
    }
    forall parse: seq<bool> | |parse| == |words|
      ensures Rendered(words, parse, firstMain, L_NONE, L_NONE, true)
           == Rendered(short, parse, firstMain, L_NONE, L_NONE, false)
    {
      RendersRenamed(words, parse, firstMain, L_NONE, L_NONE);
    }
  }

  /** A lone word whose short name is the longer one does not fit. */
  lemma ShortNameTooLong()
    ensures var words := [Word("AB", Some("ABC"), L_NONE, L_NONE)];
            TableOk(words) && !AllFit(words, 0, "", true, WrapShort(WorstCase(words, 0, 0)))
  {
    var words := [Word("AB", Some("ABC"), L_NONE, L_NONE)];
    ShortNamesExactly(words, 0, "");
    assert Length(words, All(1), 1, L_NONE, L_NONE) == 0 && Length(Renamed(words), All(1), 1, L_NONE, L_NONE) == 0;
  }
}
