/** std_labels.c, l_convert: the text of a label, told from the words that are selected. */
module LabelText {
  import opened Machine
  import opened LabelWords
  import opened LabelLength

  /** Words that stand together: with the prefix in front of them or the suffix behind them, or one word alone. */
  datatype Group = Group(prefix: int, suffix: int, names: seq<string>)

  predicate Joins(w: Word, g: Group) {
    (w.prefix >= 0 && w.prefix == g.prefix) || (w.suffix >= 0 && w.suffix == g.suffix)
  }

  function Alone(w: Word, useShort: bool): Group {
    Group(w.prefix, w.suffix, [NameOf(w, useShort)])
  }

  /** The selected words from i on; neighbours with the same prefix, or with the same suffix, stand together. */
  function Groups(words: seq<Word>, parse: seq<bool>, i: nat, useShort: bool): seq<Group>
    requires i <= |words| == |parse|
    decreases |words| - i
  {
    if i == |words| then []
    else
      var rest := Groups(words, parse, i + 1, useShort);
      var w := words[i];
      if !parse[i] then rest
      else if rest != [] && Joins(w, rest[0]) then
        [rest[0].(names := [NameOf(w, useShort)] + rest[0].names)] + rest[1..]
      else [Alone(w, useShort)] + rest
  }

  function Slashed(names: seq<string>): string {
    if names == [] then "" else if |names| == 1 then names[0] else names[0] + "/" + Slashed(names[1..])
  }

  predicate GroupOk(words: seq<Word>, g: Group) {
    g.names != [] && g.prefix < |words| && g.suffix < |words| && (g.prefix < 0 || g.suffix < 0)
  }

  /** A blank, the prefix and a blank, the words with slashes between, a blank and the suffix. */
  function GroupText(words: seq<Word>, g: Group, useShort: bool): string
    requires GroupOk(words, g)
  {
    (if g.prefix >= 0 then " " + NameOf(words[g.prefix], useShort) + " " else " ")
    + (Slashed(g.names) + if g.suffix >= 0 then " " + NameOf(words[g.suffix], useShort) else "")
  }

  predicate GroupsOk(words: seq<Word>, gs: seq<Group>) {
    forall k :: 0 <= k < |gs| ==> GroupOk(words, gs[k])
  }

  function Text(words: seq<Word>, gs: seq<Group>, useShort: bool): string
    requires GroupsOk(words, gs)
  {
    if gs == [] then "" else GroupText(words, gs[0], useShort) + Text(words, gs[1..], useShort)
  }

  lemma {:induction false} GroupsAreOk(words: seq<Word>, parse: seq<bool>, i: nat, useShort: bool)
    requires TableOk(words) && OneAffixEach(words) && i <= |words| == |parse|
    ensures GroupsOk(words, Groups(words, parse, i, useShort))
    decreases |words| - i
  {
    if i < |words| {
      GroupsAreOk(words, parse, i + 1, useShort);
    }
  }

  // ---------------------------------------------------------------- the renderer

  /** The first group without what goes in front of it, and all the others. */
  function Body(words: seq<Word>, gs: seq<Group>, useShort: bool): string
    requires GroupsOk(words, gs) && gs != []
  {
    Slashed(gs[0].names) + SuffixText(words, gs[0].suffix, useShort) + Text(words, gs[1..], useShort)
  }

  /** Behind a word with prefix p and suffix s: the first group goes on with it, or starts anew behind its suffix. */
  function Going(words: seq<Word>, gs: seq<Group>, p: int, s: int, useShort: bool): string
    requires GroupsOk(words, gs) && s < |words|
  {
    if gs != [] && ((p >= 0 && p == gs[0].prefix) || (s >= 0 && s == gs[0].suffix)) then
      "/" + Body(words, gs, useShort)
    else SuffixText(words, s, useShort) + Text(words, gs, useShort)
  }

  lemma TextIsBody(words: seq<Word>, gs: seq<Group>, useShort: bool)
    requires GroupsOk(words, gs) && gs != []
    ensures Text(words, gs, useShort) == PrefixText(words, gs[0].prefix, useShort) + Body(words, gs, useShort)
  {
    var g := gs[0];
    assert g.suffix >= 0 || SuffixText(words, g.suffix, useShort) == "";
  }

  /** One more word in front of the groups. */
  lemma WordInFront(words: seq<Word>, w: Word, rest: seq<Group>, gs: seq<Group>, useShort: bool)
    requires GroupsOk(words, rest) && GroupOk(words, Alone(w, useShort))
    requires gs == if rest != [] && Joins(w, rest[0])
                   then [rest[0].(names := [NameOf(w, useShort)] + rest[0].names)] + rest[1..]
                   else [Alone(w, useShort)] + rest
    ensures GroupsOk(words, gs)
    ensures Body(words, gs, useShort) == NameOf(w, useShort) + Going(words, rest, w.prefix, w.suffix, useShort)
  {
    var name := NameOf(w, useShort);
    if rest != [] && Joins(w, rest[0]) {
      var g := rest[0];
      assert gs[1..] == rest[1..] && ([name] + g.names)[1..] == g.names;
      assert Slashed([name] + g.names) == name + "/" + Slashed(g.names);
      JoinedBody(name, Slashed(g.names), SuffixText(words, g.suffix, useShort), Text(words, rest[1..], useShort));
    } else {
      assert gs[1..] == rest;
      assert Slashed([name]) == name;
      JoinedAlone(name, SuffixText(words, w.suffix, useShort), Text(words, rest, useShort));
    }
  }

  lemma JoinedBody(a: string, b: string, c: string, d: string)
    ensures a + "/" + b + c + d == a + ("/" + (b + c + d))
  {
  }

  lemma JoinedAlone(a: string, b: string, c: string)
    ensures a + b + c == a + (b + c)
  {
  }

  /** What is in front of a group is the separator of its first word. */
  lemma SeparatorInFront(words: seq<Word>, w: Word, gs: seq<Group>, p: int, s: int, useShort: bool)
    requires GroupsOk(words, gs) && gs != [] && gs[0].prefix == w.prefix && gs[0].suffix == w.suffix
    requires w.prefix < |words| && s < |words|
    ensures Separator(words, w, p, s, useShort) + Body(words, gs, useShort) == Going(words, gs, p, s, useShort)
  {
    if !Continues(w, p, s) {
      TextIsBody(words, gs, useShort);
      JoinedAlone(SuffixText(words, s, useShort), PrefixText(words, w.prefix, useShort), Body(words, gs, useShort));
    }
  }

  /** Words next to each other have one affix, so a group has those of its first word. */
  lemma FirstGroup(w: Word, rest: seq<Group>, gs: seq<Group>, useShort: bool)
    requires w.prefix < 0 || w.suffix < 0
    requires -1 <= w.prefix && -1 <= w.suffix
    requires rest != [] ==> -1 <= rest[0].prefix && -1 <= rest[0].suffix && (rest[0].prefix < 0 || rest[0].suffix < 0)
    requires gs == if rest != [] && Joins(w, rest[0])
                   then [rest[0].(names := [NameOf(w, useShort)] + rest[0].names)] + rest[1..]
                   else [Alone(w, useShort)] + rest
    ensures gs[0].prefix == w.prefix && gs[0].suffix == w.suffix
  {
  }

  predicate FirstPlain(gs: seq<Group>) {
    gs != [] ==> -1 <= gs[0].prefix && -1 <= gs[0].suffix && (gs[0].prefix < 0 || gs[0].suffix < 0)
  }

  lemma {:induction false} GroupsArePlain(words: seq<Word>, parse: seq<bool>, i: nat, useShort: bool)
    requires TableOk(words) && OneAffixEach(words) && i <= |words| == |parse| && MainOnly(words, parse)
    ensures FirstPlain(Groups(words, parse, i, useShort))
    decreases |words| - i
  {
    if i < |words| {
      GroupsArePlain(words, parse, i + 1, useShort);
    }
  }

  lemma RestOpens(words: seq<Word>, w: Word, p: int, s: int)
    requires (p < 0 || s < 0) && (w.prefix < 0 || w.suffix < 0) && -1 <= p && -1 <= w.prefix
    ensures OpenPrefix(w, p, s) == w.prefix
  {
  }

  lemma {:induction false} RendersGroups(words: seq<Word>, parse: seq<bool>, i: nat, p: int, s: int, useShort: bool,
                                         gs: seq<Group>)
    requires TableOk(words) && OneAffixEach(words) && i <= |words| == |parse| && MainOnly(words, parse)
    requires -1 <= p && s < |words| && (p < 0 || s < 0)
    requires gs == Groups(words, parse, i, useShort) && GroupsOk(words, gs)
    ensures Rendered(words, parse, i, p, s, useShort) == Going(words, gs, p, s, useShort)
    decreases |words| - i
  {
    if i == |words| {
      assert SuffixText(words, s, useShort) + "" == SuffixText(words, s, useShort);
    } else {
      var rest := Groups(words, parse, i + 1, useShort);
      GroupsAreOk(words, parse, i + 1, useShort);
      GroupsArePlain(words, parse, i + 1, useShort);
      if !parse[i] {
        RendersGroups(words, parse, i + 1, p, s, useShort, rest);
      } else {
        var w := words[i];
        RestOpens(words, w, p, s);
        RendersGroups(words, parse, i + 1, w.prefix, w.suffix, useShort, rest);
        WordInFront(words, w, rest, gs, useShort);
        FirstGroup(w, rest, gs, useShort);
        SeparatorInFront(words, w, gs, p, s, useShort);
        JoinedAlone(Separator(words, w, p, s, useShort), NameOf(w, useShort),
                    Going(words, rest, w.prefix, w.suffix, useShort));
      }
    }
  }

  /** The label of any selection of main words, where no word needs both a prefix and a suffix: behind the
      classification the groups in order, each with a blank and its prefix in front, slashes between its words, and a
      blank and its suffix behind. */
  lemma LabelReads(words: seq<Word>, parse: seq<bool>, firstMain: nat, useShort: bool)
    requires TableOk(words) && OneAffixEach(words) && firstMain <= |words| == |parse| && MainOnly(words, parse)
    ensures GroupsOk(words, Groups(words, parse, firstMain, useShort))
    ensures Rendered(words, parse, firstMain, L_NONE, L_NONE, useShort)
         == Text(words, Groups(words, parse, firstMain, useShort), useShort)
  {
    var gs := Groups(words, parse, firstMain, useShort);
    GroupsAreOk(words, parse, firstMain, useShort);
    RendersGroups(words, parse, firstMain, L_NONE, L_NONE, useShort, gs);
    assert "" + Text(words, gs, useShort) == Text(words, gs, useShort);
  }
}
