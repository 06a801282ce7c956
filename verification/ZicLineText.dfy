/** zic.c, getfields: what the fields of a line are, read off from how the line is written. */
module ZicLineText {
  import opened Machine
  import opened ZicFields

  // ---------------------------------------------------------------- text behind a place

  /** From p on, the line reads text. */
  predicate Reads(s: string, p: nat, text: string) {
    p + |text| == |s| && forall k :: 0 <= k < |text| ==> s[p + k] == text[k]
  }

  /** From p on, the line starts with a. */
  predicate Starts(s: string, p: nat, a: string) {
    p + |a| <= |s| && forall k :: 0 <= k < |a| ==> s[p + k] == a[k]
  }

  lemma ReadsOn(s: string, p: nat, a: string, rest: string)
    requires Reads(s, p, a + rest)
    ensures Starts(s, p, a) && Reads(s, p + |a|, rest)
  {
    var text := a + rest;
    forall k | 0 <= k < |a| ensures s[p + k] == a[k] {
      assert text[k] == a[k];
    }
    forall k | 0 <= k < |rest| ensures s[p + |a| + k] == rest[k] {
      assert s[p + (|a| + k)] == text[|a| + k] == rest[k];
    }
  }

  // ---------------------------------------------------------------- fields

  /** A field is written as a row of characters as they are and texts in double quotes. */
  datatype Piece = Plain(c: char) | InQuotes(text: string)

  predicate PieceOk(x: Piece) {
    match x
    case Plain(c) => !IsBlank(c) && c != '"' && c != '#'
    case InQuotes(text) => '"' !in text
  }

  predicate PiecesOk(xs: seq<Piece>) {
    forall k :: 0 <= k < |xs| ==> PieceOk(xs[k])
  }

  function Spelled(x: Piece): string {
    match x
    case Plain(c) => [c]
    case InQuotes(text) => ['"'] + text + ['"']
  }

  function Text(x: Piece): string {
    match x
    case Plain(c) => [c]
    case InQuotes(text) => text
  }

  function Written(xs: seq<Piece>): string {
    if xs == [] then "" else Spelled(xs[0]) + Written(xs[1..])
  }

  /** What it stands for: the same without the quotes. */
  function Meant(xs: seq<Piece>): string {
    if xs == [] then "" else Text(xs[0]) + Meant(xs[1..])
  }

  /** One piece at p; the next character is at q. */
  lemma PieceIsRead(s: string, p: nat, x: Piece, q: nat)
    requires PieceOk(x) && Starts(s, p, Spelled(x)) && q == p + |Spelled(x)|
    ensures p < q <= |s|
    ensures Field(s, p) == After(Text(x), if FieldEnds(s, q) then Some(("", q)) else Field(s, q))
  {
    match x
    case Plain(c) =>
      assert s[p + 0] == [c][0];
      assert [c] + "" == [c];
    case InQuotes(text) =>
      QuotesAreRead(s, p, text, Spelled(x));
      assert text + "" == text;
  }

  lemma QuotesAreRead(s: string, p: nat, text: string, spelled: string)
    requires '"' !in text && spelled == ['"'] + text + ['"'] && Starts(s, p, spelled)
    ensures s[p] == '"' && Closing(s, p + 1) == p + 1 + |text| && s[p + 1..Closing(s, p + 1)] == text
  {
    assert s[p + 0] == spelled[0];
    assert s[p + (1 + |text|)] == spelled[1 + |text|];
    forall k | 0 <= k < |text| ensures s[p + 1 + k] == text[k] {
      assert s[p + (1 + k)] == spelled[1 + k];
    }
    assert s[p + 1..p + 1 + |text|] == text;
    ClosingOf(s, p + 1, text);
  }

  /** Behind a field there is nothing, a blank or a comment. */
  predicate EndsField(rest: string) {
    rest == "" || IsBlank(rest[0]) || rest[0] == '#'
  }

  /** Text that a field may start with. */
  predicate StartsField(text: string) {
    text != "" && !EndsField(text)
  }

  lemma ReadsFirst(s: string, q: nat, text: string)
    requires Reads(s, q, text)
    ensures q <= |s| && (FieldEnds(s, q) <==> EndsField(text)) && (Stops(s, q) <==> text == "" || text[0] == '#')
  {
    if text != "" {
      assert s[q + 0] == text[0];
    }
  }

  lemma WrittenStarts(xs: seq<Piece>, rest: string)
    requires PiecesOk(xs) && xs != []
    ensures StartsField(Written(xs) + rest)
  {
    assert PieceOk(xs[0]);
    assert (Written(xs) + rest)[0] == Spelled(xs[0])[0];
  }

  lemma WrittenUnfolds(xs: seq<Piece>, x: Piece, ys: seq<Piece>, rest: string)
    requires xs != [] && x == xs[0] && ys == xs[1..]
    ensures Written(xs) + rest == Spelled(x) + (Written(ys) + rest) && Meant(xs) == Text(x) + Meant(ys)
  {
  }

  lemma PutInFront(f: Option<(string, nat)>, r: Option<(string, nat)>, t: string, more: string, e: nat)
    requires f == After(t, r) && r == Some((more, e))
    ensures f == Some((t + more, e))
  {
  }

  /** The first piece of a field; the others, if there are any, are at q. */
  lemma FirstPiece(s: string, p: nat, xs: seq<Piece>, x: Piece, ys: seq<Piece>, rest: string, q: nat)
    requires xs != [] && x == xs[0] && ys == xs[1..] && PiecesOk(xs) && Reads(s, p, Written(xs) + rest)
    requires EndsField(rest) && q == p + |Spelled(x)|
    ensures p < q <= |s| && Reads(s, q, Written(ys) + rest)
    ensures Field(s, p) == After(Text(x), if ys == [] then Some(("", q)) else Field(s, q))
  {
    WrittenUnfolds(xs, x, ys, rest);
    ReadsOn(s, p, Spelled(x), Written(ys) + rest);
    PieceIsRead(s, p, x, q);
    ReadsFirst(s, q, Written(ys) + rest);
    if ys == [] {
      assert Written(ys) + rest == rest;
    } else {
      WrittenStarts(ys, rest);
    }
  }

  lemma {:induction false} FieldIsMeant(s: string, p: nat, xs: seq<Piece>, rest: string, e: nat)
    requires xs != [] && PiecesOk(xs) && Reads(s, p, Written(xs) + rest) && EndsField(rest) && e == p + |Written(xs)|
    ensures p < e <= |s| && Field(s, p) == Some((Meant(xs), e))
    decreases |xs|
  {
    var x, ys := xs[0], xs[1..];
    var q := p + |Spelled(x)|;
    FirstPiece(s, p, xs, x, ys, rest, q);
    if ys == [] {
      PutInFront(Field(s, p), Some(("", q)), Text(x), "", e);
    } else {
      FieldIsMeant(s, q, ys, rest, e);
      PutInFront(Field(s, p), Field(s, q), Text(x), Meant(ys), e);
    }
  }

  // ---------------------------------------------------------------- lines

  predicate AllBlank(gap: string) {
    forall k :: 0 <= k < |gap| ==> IsBlank(gap[k])
  }

  lemma {:induction false} SkipsGap(s: string, p: nat, gap: string)
    requires AllBlank(gap) && Starts(s, p, gap)
    ensures SkipBlanks(s, p) == SkipBlanks(s, p + |gap|)
    decreases |gap|
  {
    if gap != "" {
      assert s[p + 0] == gap[0];
      forall k | 0 <= k < |gap| - 1 ensures s[p + 1 + k] == gap[1..][k] {
        assert s[p + (1 + k)] == gap[1 + k];
      }
      SkipsGap(s, p + 1, gap[1..]);
    }
  }

  /** A field with the blanks in front of it. */
  datatype Item = Item(gap: string, pieces: seq<Piece>)

  predicate ItemOk(x: Item) {
    AllBlank(x.gap) && x.pieces != [] && PiecesOk(x.pieces)
  }

  function LineOf(xs: seq<Item>, tail: string): string {
    if xs == [] then tail else xs[0].gap + (Written(xs[0].pieces) + LineOf(xs[1..], tail))
  }

  function FieldsOf(xs: seq<Item>): seq<string> {
    if xs == [] then [] else [Meant(xs[0].pieces)] + FieldsOf(xs[1..])
  }

  /** Between two fields there is a blank at least. */
  predicate ItemsOk(xs: seq<Item>) {
    (forall k :: 0 <= k < |xs| ==> ItemOk(xs[k])) && forall k :: 1 <= k < |xs| ==> xs[k].gap != ""
  }

  /** The end of a line: blanks, and a comment or none. */
  predicate TailOk(blanks: string, comment: string) {
    AllBlank(blanks) && (comment != "" ==> comment[0] == '#')
  }

  lemma TailSplits(s: string, p: nat, blanks: string, comment: string)
    requires TailOk(blanks, comment) && Reads(s, p, blanks + comment)
    ensures p <= |s| && Split(s, p) == Some([])
  {
    ReadsOn(s, p, blanks, comment);
    SkipsGap(s, p, blanks);
    ReadsFirst(s, p + |blanks|, comment);
  }

  lemma LineEnds(xs: seq<Item>, blanks: string, comment: string)
    requires TailOk(blanks, comment) && (xs != [] ==> ItemOk(xs[0]) && xs[0].gap != "")
    ensures EndsField(LineOf(xs, blanks + comment))
  {
    if xs != [] {
      assert LineOf(xs, blanks + comment)[0] == xs[0].gap[0];
    } else if blanks != "" {
      assert (blanks + comment)[0] == blanks[0];
    } else {
      assert blanks + comment == comment;
    }
  }

  lemma ResumeSplits(s: string, q: nat)
    requires q <= |s|
    ensures Split(s, q) == Split(s, Resume(s, q))
  {
  }

  lemma FieldIsSplit(s: string, p: nat, b: nat, f: string, q: nat)
    requires p <= b < q <= |s| && b == SkipBlanks(s, p) && !Stops(s, b) && Field(s, b) == Some((f, q))
    ensures Split(s, p) == Then([f], Split(s, q))
  {
    SplitStep(s, p, b, [], f, q);
    ResumeSplits(s, q);
    assert [] + [f] == [f];
    assert Split(s, p).Some? ==> [] + Split(s, p).value == Split(s, p).value;
  }

  lemma SkipsTo(s: string, p: nat, gap: string, text: string, b: nat)
    requires AllBlank(gap) && Starts(s, p, gap) && b == p + |gap| && Reads(s, b, text) && StartsField(text)
    ensures b == SkipBlanks(s, p) && b < |s| && !Stops(s, b)
  {
    SkipsGap(s, p, gap);
    ReadsFirst(s, b, text);
  }

  /** One field with the blanks in front of it; it ends at e. */
  lemma ItemSplits(s: string, p: nat, x: Item, rest: string, text: string, e: nat)
    requires ItemOk(x) && text == Written(x.pieces) + rest && Reads(s, p, x.gap + text) && EndsField(rest)
    requires e == p + |x.gap| + |Written(x.pieces)|
    ensures p < e && Reads(s, e, rest) && Split(s, p) == Then([Meant(x.pieces)], Split(s, e))
  {
    var b := p + |x.gap|;
    ReadsOn(s, p, x.gap, text);
    WrittenStarts(x.pieces, rest);
    SkipsTo(s, p, x.gap, text, b);
    FieldIsMeant(s, b, x.pieces, rest, e);
    ReadsOn(s, b, Written(x.pieces), rest);
    FieldIsSplit(s, p, b, Meant(x.pieces), e);
  }

  lemma Put(all: Option<seq<string>>, rest: Option<seq<string>>, f: string, more: seq<string>)
    requires all == Then([f], rest) && rest == Some(more)
    ensures all == Some([f] + more)
  {
  }

  lemma {:induction false} SplitsFrom(s: string, p: nat, xs: seq<Item>, blanks: string, comment: string)
    requires ItemsOk(xs) && TailOk(blanks, comment) && Reads(s, p, LineOf(xs, blanks + comment))
    ensures p <= |s| && Split(s, p) == Some(FieldsOf(xs))
    decreases |xs|
  {
    if xs == [] {
      TailSplits(s, p, blanks, comment);
    } else {
      var x, rest := xs[0], LineOf(xs[1..], blanks + comment);
      var e := p + |x.gap| + |Written(x.pieces)|;
      LineEnds(xs[1..], blanks, comment);
      ItemSplits(s, p, x, rest, Written(x.pieces) + rest, e);
      SplitsFrom(s, e, xs[1..], blanks, comment);
      Put(Split(s, p), Split(s, e), Meant(x.pieces), FieldsOf(xs[1..]));
    }
  }

  /** Any line: fields, each a row of characters that are no blank, quote or #, and of texts in double quotes, with
      blanks between, and at the end blanks and a comment or none. It splits into what the fields stand for. */
  lemma SplitReadsLine(xs: seq<Item>, blanks: string, comment: string)
    requires ItemsOk(xs) && TailOk(blanks, comment)
    ensures Split(LineOf(xs, blanks + comment), 0) == Some(FieldsOf(xs))
  {
    SplitsFrom(LineOf(xs, blanks + comment), 0, xs, blanks, comment);
  }

  // ---------------------------------------------------------------- plain fields

  predicate PlainField(f: string) {
    f != "" && forall k :: 0 <= k < |f| ==> PieceOk(Plain(f[k]))
  }

  function Plains(f: string): (xs: seq<Piece>)
    ensures |xs| == |f| && forall k :: 0 <= k < |f| ==> xs[k] == Plain(f[k])
  {
    seq(|f|, k requires 0 <= k < |f| => Plain(f[k]))
  }

  lemma {:induction false} PlainsAreThemselves(f: string)
    ensures Written(Plains(f)) == f && Meant(Plains(f)) == f
  {
    if f != "" {
      PlainsAreThemselves(f[1..]);
      assert Plains(f)[1..] == Plains(f[1..]);
      assert [f[0]] + f[1..] == f;
    }
  }

  function PlainLine(fs: seq<string>, gaps: seq<string>, tail: string): string
    requires |fs| == |gaps|
  {
    if fs == [] then tail else gaps[0] + (fs[0] + PlainLine(fs[1..], gaps[1..], tail))
  }

  function PlainItems(fs: seq<string>, gaps: seq<string>): (xs: seq<Item>)
    requires |fs| == |gaps|
    ensures |xs| == |fs| && forall k :: 0 <= k < |fs| ==> xs[k] == Item(gaps[k], Plains(fs[k]))
  {
    seq(|fs|, k requires 0 <= k < |fs| => Item(gaps[k], Plains(fs[k])))
  }

  lemma {:induction false} PlainItemsRead(fs: seq<string>, gaps: seq<string>, tail: string)
    requires |fs| == |gaps|
    ensures LineOf(PlainItems(fs, gaps), tail) == PlainLine(fs, gaps, tail) && FieldsOf(PlainItems(fs, gaps)) == fs
    decreases |fs|
  {
    if fs != [] {
      PlainsAreThemselves(fs[0]);
      PlainItemsRead(fs[1..], gaps[1..], tail);
      assert PlainItems(fs, gaps)[1..] == PlainItems(fs[1..], gaps[1..]);
      assert [fs[0]] + fs[1..] == fs;
    }
  }

  /** In particular a line of plain fields, with any blanks between them and a comment or none behind, splits into
      just these. */
  lemma SplitReadsPlain(fs: seq<string>, gaps: seq<string>, blanks: string, comment: string)
    requires |fs| == |gaps| && (forall k :: 0 <= k < |fs| ==> PlainField(fs[k]) && AllBlank(gaps[k]))
    requires TailOk(blanks, comment) && forall k :: 1 <= k < |fs| ==> gaps[k] != ""
    ensures Split(PlainLine(fs, gaps, blanks + comment), 0) == Some(fs)
  {
    var xs := PlainItems(fs, gaps);
    forall k | 0 <= k < |xs| ensures ItemOk(xs[k]) {
      assert PlainField(fs[k]) && AllBlank(gaps[k]);
    }
    PlainItemsRead(fs, gaps, blanks + comment);
    SplitReadsLine(xs, blanks, comment);
  }
}
