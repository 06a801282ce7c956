/** zic.c: getfields splits a line into fields in place: it removes quotes and ends every field with
    a NUL in the line's own buffer. */
module ZicFields {
  import opened Machine
  import opened ZicTables

  predicate IsBlank(c: char) {
    c in {' ', '\t', '\n', '\r', 11 as char, 12 as char}
  }

  // ---------------------------------------------------------------- specification

  function SkipBlanks(s: string, p: nat): (q: nat)
    requires p <= |s|
    ensures p <= q <= |s| && (q < |s| ==> !IsBlank(s[q]))
    decreases |s| - p
  {
    if p < |s| && IsBlank(s[p]) then SkipBlanks(s, p + 1) else p
  }

  /** The index of the closing quote, or the end of the line. */
  function Closing(s: string, p: nat): (q: nat)
    requires p <= |s|
    ensures p <= q <= |s| && (q < |s| ==> s[q] == '"')
    decreases |s| - p
  {
    if p < |s| && s[p] != '"' then Closing(s, p + 1) else p
  }

  predicate FieldEnds(s: string, p: nat)
    requires p <= |s|
  {
    p == |s| || s[p] == '#' || IsBlank(s[p])
  }

  /** The field that starts at p and the index after it; None if a quote is never closed. */
  function Field(s: string, p: nat): (r: Option<(string, nat)>)
    requires p < |s|
    ensures r.Some? ==> p < r.value.1 <= |s| && |r.value.0| <= r.value.1 - p && FieldEnds(s, r.value.1)
    decreases |s| - p
  {
    var quoted := s[p] == '"';
    var c := if quoted then Closing(s, p + 1) else p;
    if c == |s| then None
    else
      var piece := if quoted then s[p + 1..c] else [s[p]];
      if FieldEnds(s, c + 1) then Some((piece, c + 1))
      else match Field(s, c + 1)
           case None => None
           case Some((more, q)) => Some((piece + more, q))
  }

  /** All fields of s from p on. */
  function Split(s: string, p: nat): (r: Option<seq<string>>)
    requires p <= |s|
    ensures r.Some? ==> |r.value| <= |s| - p
    decreases |s| - p
  {
    var b := SkipBlanks(s, p);
    if b == |s| || s[b] == '#' then Some([])
    else match Field(s, b)
         case None => None
         case Some((f, q)) =>
           match Split(s, if q < |s| && IsBlank(s[q]) then q + 1 else q)
           case None => None
           case Some(fs) => Some([f] + fs)
  }

  // ---------------------------------------------------------------- in place

  /** The buffer still holds the line and its NUL from p on. */
  ghost predicate Unread(buf: array<char>, s: string, p: nat)
    reads buf
  {
    && buf.Length == |s| + 1 && p <= |s| && buf[|s|] == '\0'
    && forall k :: p <= k < |s| ==> buf[k] == s[k]
  }

  /** r with b in front of its field. */
  function After(b: string, r: Option<(string, nat)>): Option<(string, nat)> {
    match r
    case None => None
    case Some((f, q)) => Some((b + f, q))
  }

  lemma AfterNothing(r: Option<(string, nat)>)
    ensures After("", r) == r
  {
    if r.Some? {
      assert "" + r.value.0 == r.value.0;
    }
  }

  lemma AfterTwice(b: string, c: string, r: Option<(string, nat)>)
    ensures After(b, After(c, r)) == After(b + c, r)
  {
    if r.Some? {
      assert b + (c + r.value.0) == b + c + r.value.0;
    }
  }

  /** *dp = *cp++ within a piece that starts at start and whose text goes to dp0. */
  method CopyChar(buf: array<char>, ghost s: string, ghost dp0: nat, ghost start: nat, dp: nat, cp: nat)
    requires Unread(buf, s, cp) && dp0 <= dp < cp <= |s| && start <= cp && buf[dp0..dp] == s[start..cp]
    modifies buf
    ensures forall k :: 0 <= k < buf.Length && k != dp ==> buf[k] == old(buf[k])
    ensures buf[dp] == if cp < |s| then s[cp] else '\0'
    ensures cp < |s| ==> buf[dp0..dp + 1] == s[start..cp + 1]
    ensures buf[dp0..dp] == s[start..cp]
  {
    ghost var was := buf[dp0..dp];
    buf[dp] := buf[cp];
    assert buf[dp0..dp] == was;
    if cp < |s| {
      assert buf[dp0..dp + 1] == was + [s[cp]] && s[start..cp + 1] == s[start..cp] + [s[cp]];
    }
  }

  /** The inner loop: copy up to the closing quote. Without one the C loop leaves the buffer. */
  method ScanQuoted(buf: array<char>, ghost s: string, dp0: nat, cp0: nat) returns (ok: bool, dp: nat, cp: nat)
    requires Unread(buf, s, cp0) && IsCString(s) && dp0 <= cp0 < |s| && s[cp0] == '"'
    modifies buf
    ensures forall k :: 0 <= k < dp0 ==> buf[k] == old(buf[k])
    ensures ok <==> Closing(s, cp0 + 1) < |s|
    ensures ok ==> cp == Closing(s, cp0 + 1) + 1 && dp0 <= dp <= cp && Unread(buf, s, cp)
    ensures ok ==> buf[dp0..dp] == s[cp0 + 1..cp - 1]
  {
    buf[dp0] := buf[cp0];
    dp, cp := dp0, cp0 + 1;
    while true
      invariant dp0 <= dp < cp <= |s| && dp - dp0 == cp - cp0 - 1
      invariant forall k :: 0 <= k < dp0 ==> buf[k] == old(buf[k])
      invariant buf[dp0..dp] == s[cp0 + 1..cp]
      invariant Unread(buf, s, cp)
      invariant Closing(s, cp) == Closing(s, cp0 + 1)
      decreases |s| - cp
    {
      CopyChar(buf, s, dp0, cp0 + 1, dp, cp);
      cp := cp + 1;
      if buf[dp] == '"' {
        return true, dp, cp;
      }
      if buf[dp] == '\0' {
        return false, dp, cp;
      }
      dp := dp + 1;
    }
  }

  /** What one round of the do-while loop copies: the text of a quoted piece, or a character. */
  predicate IsPiece(s: string, c: nat, next: nat, piece: string)
    requires c < |s|
  {
    && c < next <= |s|
    && if s[c] == '"' then Closing(s, c + 1) < |s| && next == Closing(s, c + 1) + 1 && piece == s[c + 1..next - 1]
       else next == c + 1 && piece == [s[c]]
  }

  /** One round: cp reads ahead of dp, which writes. */
  method ScanPiece(buf: array<char>, ghost s: string, ghost start: nat, dp0: nat, cp0: nat)
    returns (ok: bool, dp: nat, cp: nat, ghost piece: string)
    requires Unread(buf, s, cp0) && IsCString(s) && start <= dp0 <= cp0 < |s|
    modifies buf
    ensures forall k :: 0 <= k < start ==> buf[k] == old(buf[k])
    ensures ok <==> s[cp0] != '"' || Closing(s, cp0 + 1) < |s|
    ensures ok ==> IsPiece(s, cp0, cp, piece) && dp0 <= dp <= cp && Unread(buf, s, cp)
    ensures ok ==> buf[start..dp] == old(buf[start..dp0]) + piece
  {
    ghost var done := buf[start..dp0];
    if buf[cp0] != '"' {
      buf[dp0] := buf[cp0];
      ok, dp, cp, piece := true, dp0 + 1, cp0 + 1, [s[cp0]];
    } else {
      ok, dp, cp := ScanQuoted(buf, s, dp0, cp0);
      piece := if ok then buf[dp0..dp] else "";
    }
    if ok {
      assert buf[start..dp0] == done;
      assert buf[start..dp] == buf[start..dp0] + buf[dp0..dp];
    }
  }

  /** The do-while loop of getfields. */
  method ScanField(buf: array<char>, ghost s: string, start: nat) returns (ok: bool, dp: nat, cp: nat)
    requires Unread(buf, s, start) && IsCString(s) && start < |s| && !FieldEnds(s, start)
    modifies buf
    ensures forall k :: 0 <= k < start ==> buf[k] == old(buf[k])
    ensures ok <==> Field(s, start).Some?
    ensures ok ==> start <= dp <= cp <= |s|
    ensures ok ==> Unread(buf, s, cp) && Field(s, start) == Some((buf[start..dp], cp))
  {
    dp, cp := start, start;
    ghost var goal := Field(s, start);
    AfterNothing(goal);
    assert buf[start..start] == "";
    var more := true;
    while more
      invariant start <= dp <= cp <= |s|
      invariant forall k :: 0 <= k < start ==> buf[k] == old(buf[k])
      invariant Unread(buf, s, cp)
      invariant more <==> !FieldEnds(s, cp)
      invariant goal == if more then After(buf[start..dp], Field(s, cp)) else Some((buf[start..dp], cp))
      decreases |s| - cp
    {
      ghost var c0, done := cp, buf[start..dp];
      ghost var piece;
      ok, dp, cp, piece := ScanPiece(buf, s, start, dp, cp);
      if !ok {
        return;
      }
      Advance(s, c0, cp, done, piece);
      more := buf[cp] != '\0' && buf[cp] != '#' && !IsBlank(buf[cp]);
    }
    ok := true;
  }

  /** One round of ScanField on the specification's side. */
  lemma Advance(s: string, c: nat, next: nat, done: string, piece: string)
    requires c < |s| && !FieldEnds(s, c) && IsPiece(s, c, next, piece)
    ensures After(done, Field(s, c))
         == if FieldEnds(s, next) then Some((done + piece, next)) else After(done + piece, Field(s, next))
  {
    if !FieldEnds(s, next) {
      AfterTwice(done, piece, Field(s, next));
    }
  }

  /** Field f stands at index st of the buffer. */
  ghost predicate FieldAt(buf: array<char>, st: nat, f: string)
    reads buf
  {
    st + |f| < buf.Length && buf[st..st + |f|] == f && buf[st + |f|] == '\0'
  }

  predicate Stops(s: string, p: nat)
    requires p <= |s|
  {
    p == |s| || s[p] == '#'
  }

  /** fs in front of the fields still to come. */
  function Then(fs: seq<string>, r: Option<seq<string>>): Option<seq<string>> {
    match r
    case None => None
    case Some(more) => Some(fs + more)
  }

  /** The fields found so far stand in the buffer below cp, where nothing is written any more. */
  ghost predicate Fixed(buf: array<char>, s: string, array_: array<int>, fs: seq<string>, cp: nat)
    reads buf, array_
  {
    && |fs| <= array_.Length && cp <= |s| && buf.Length == |s| + 1
    && forall i :: 0 <= i < |fs| ==>
         && 0 <= array_[i] && FieldAt(buf, array_[i], fs[i])
         && (array_[i] + |fs[i]| < cp || (array_[i] + |fs[i]| == cp && Stops(s, cp)))
  }

  /** Where the next field is looked for after one that ended at q. */
  function Resume(s: string, q: nat): nat
    requires q <= |s|
  {
    if q < |s| && IsBlank(s[q]) then q + 1 else q
  }

  lemma SplitStep(s: string, c: nat, b: nat, fs: seq<string>, f: string, q: nat)
    requires c <= |s| && b == SkipBlanks(s, c) && !Stops(s, b) && Field(s, b) == Some((f, q))
    ensures Then(fs, Split(s, c)) == Then(fs + [f], Split(s, Resume(s, q)))
  {
    var more := Split(s, Resume(s, q));
    if more.Some? {
      assert fs + ([f] + more.value) == fs + [f] + more.value;
    }
  }

  /** Skipping blanks; the buffer may have been cut off at a comment. */
  method SkipLoop(buf: array<char>, ghost s: string, c: nat) returns (cp: nat)
    requires c <= |s| && buf.Length == |s| + 1 && IsCString(s)
    requires Unread(buf, s, c) || (c < |s| && s[c] == '#' && buf[c] == '\0')
    ensures cp == SkipBlanks(s, c)
    ensures Unread(buf, s, c) ==> Unread(buf, s, cp) && !Stops(s, cp) == (buf[cp] != '\0' && buf[cp] != '#')
    ensures !Unread(buf, s, c) ==> cp == c
  {
    cp := c;
    while IsBlank(buf[cp])
      invariant c <= cp <= |s| && SkipBlanks(s, cp) == SkipBlanks(s, c)
      invariant Unread(buf, s, cp) || cp == c
      invariant Unread(buf, s, c) ==> Unread(buf, s, cp)
      decreases |s| - cp
    {
      cp := cp + 1;
    }
  }

  /** End field f at dp, after its last character, and step over a blank. */
  method EndField(buf: array<char>, ghost s: string, array_: array<int>, ghost fs: seq<string>, nsubs: nat,
                  start: nat, dp: nat, q: nat) returns (cp: nat)
    requires IsCString(s) && start <= dp <= q <= |s| && start < |s| && Unread(buf, s, q) && FieldEnds(s, q)
    requires nsubs == |fs| < array_.Length
    requires Fixed(buf, s, array_, fs, start) && !Stops(s, start)
    modifies buf, array_
    ensures cp == Resume(s, q)
    ensures Unread(buf, s, cp) || (cp < |s| && s[cp] == '#' && buf[cp] == '\0')
    ensures Fixed(buf, s, array_, fs + [old(buf[start..dp])], cp)
  {
    ghost var f := buf[start..dp];
    cp := q;
    if IsBlank(buf[cp]) {
      cp := cp + 1;
    }
    buf[dp] := '\0';
    array_[nsubs] := start;
    assert FieldAt(buf, start, f) by {
      assert buf[start..dp] == f;
    }
    forall i | 0 <= i < |fs|
      ensures FieldAt(buf, array_[i], fs[i]) && array_[i] + |fs[i]| < cp
    {
      assert old(FieldAt(buf, array_[i], fs[i]));
      assert buf[array_[i]..array_[i] + |fs[i]|] == old(buf[array_[i]..array_[i] + |fs[i]|]);
    }
  }

  /** One field: scan it and end it. */
  method NextField(buf: array<char>, ghost s: string, array_: array<int>, ghost fs: seq<string>, nsubs: nat, start: nat)
    returns (ok: bool, cp: nat)
    requires IsCString(s) && start < |s| && Unread(buf, s, start) && !FieldEnds(s, start)
    requires nsubs == |fs| < array_.Length
    requires Fixed(buf, s, array_, fs, start)
    modifies buf, array_
    ensures ok <==> Field(s, start).Some?
    ensures ok ==> cp == Resume(s, Field(s, start).value.1) && Fixed(buf, s, array_, fs + [Field(s, start).value.0], cp)
    ensures ok ==> Unread(buf, s, cp) || (cp < |s| && s[cp] == '#' && buf[cp] == '\0')
  {
    var dp;
    ok, dp, cp := ScanField(buf, s, start);
    if !ok {
      return;
    }
    forall i | 0 <= i < |fs|
      ensures FieldAt(buf, array_[i], fs[i])
    {
      assert buf[array_[i]..array_[i] + |fs[i]|] == old(buf[array_[i]..array_[i] + |fs[i]|]);
    }
    cp := EndField(buf, s, array_, fs, nsubs, start, dp, cp);
  }

  /** getfields on a NUL-terminated line s: the starts of the fields, then -1 for NULL. It leaves the
      buffer exactly when a quote is never closed; otherwise the fields stand in the line's own
      buffer, and their starts fit an array of strlen + 1 entries. */
  method Getfields(buf: array<char>, ghost s: string) returns (ok: bool, array_: array<int>, nsubs: nat)
    requires Unread(buf, s, 0) && IsCString(s)
    modifies buf
    ensures fresh(array_) && array_.Length == |s| + 1
    ensures ok <==> Split(s, 0).Some?
    ensures ok ==> nsubs == |Split(s, 0).value| < array_.Length && array_[nsubs] == -1
    ensures ok ==> forall i :: 0 <= i < nsubs ==> 0 <= array_[i] && FieldAt(buf, array_[i], Split(s, 0).value[i])
  {
    array_ := new int[buf.Length];
    nsubs := 0;
    var cp := 0;
    ghost var fs: seq<string> := [];
    assert Split(s, 0).Some? ==> [] + Split(s, 0).value == Split(s, 0).value;
    while true
      invariant cp <= |s| && nsubs == |fs| <= cp
      invariant Unread(buf, s, cp) || (cp < |s| && s[cp] == '#' && buf[cp] == '\0')
      invariant Split(s, 0) == Then(fs, Split(s, cp))
      invariant Fixed(buf, s, array_, fs, cp)
      decreases |s| - cp + (if Stops(s, cp) then 0 else 1)
    {
      ghost var c0 := cp;
      cp := SkipLoop(buf, s, cp);
      if buf[cp] == '\0' || buf[cp] == '#' {
        assert Split(s, c0) == Some([]);
        break;
      }
      ghost var start := cp;
      ok, cp := NextField(buf, s, array_, fs, nsubs, cp);
      if !ok {
        return;
      }
      SplitStep(s, c0, start, fs, Field(s, start).value.0, Field(s, start).value.1);
      fs := fs + [Field(s, start).value.0];
      nsubs := nsubs + 1;
    }
    array_[nsubs] := -1;
    ok := true;
  }

  // ---------------------------------------------------------------- what splitting means

  /** Reading the line character by character: quotes open and close, and a # outside quotes ends the
      line. */
  predicate Balanced(s: string, p: nat, inQuote: bool)
    requires p <= |s|
    decreases |s| - p
  {
    if p == |s| then !inQuote
    else if s[p] == '"' then Balanced(s, p + 1, !inQuote)
    else if s[p] == '#' && !inQuote then true
    else Balanced(s, p + 1, inQuote)
  }

  lemma {:induction false} BlanksAreBalanced(s: string, p: nat)
    requires p <= |s|
    ensures Balanced(s, p, false) == Balanced(s, SkipBlanks(s, p), false)
    decreases |s| - p
  {
    if p < |s| && IsBlank(s[p]) {
      BlanksAreBalanced(s, p + 1);
    }
  }

  lemma {:induction false} QuoteIsBalanced(s: string, p: nat)
    requires p <= |s|
    ensures Balanced(s, p, true) <==> Closing(s, p) < |s| && Balanced(s, Closing(s, p) + 1, false)
    decreases |s| - p
  {
    if p < |s| && s[p] != '"' {
      QuoteIsBalanced(s, p + 1);
    }
  }

  lemma {:induction false} FieldIsBalanced(s: string, p: nat)
    requires p < |s| && !FieldEnds(s, p)
    ensures Balanced(s, p, false) <==> Field(s, p).Some? && Balanced(s, Field(s, p).value.1, false)
    decreases |s| - p
  {
    var c := if s[p] == '"' then Closing(s, p + 1) else p;
    if s[p] == '"' {
      QuoteIsBalanced(s, p + 1);
    }
    if c < |s| && !FieldEnds(s, c + 1) {
      FieldIsBalanced(s, c + 1);
    }
  }

  lemma ResumeIsBalanced(s: string, q: nat)
    requires q <= |s|
    ensures Balanced(s, q, false) == Balanced(s, Resume(s, q), false)
  {
  }

  /** getfields stays inside its buffer exactly on the lines whose quotes are balanced. */
  lemma {:induction false} SplitNeedsBalance(s: string, p: nat)
    requires p <= |s|
    ensures Split(s, p).Some? <==> Balanced(s, p, false)
    decreases |s| - p
  {
    var b := SkipBlanks(s, p);
    BlanksAreBalanced(s, p);
    if !Stops(s, b) {
      FieldIsBalanced(s, b);
      var r := Field(s, b);
      if r.Some? {
        ResumeIsBalanced(s, r.value.1);
        SplitNeedsBalance(s, Resume(s, r.value.1));
        SplitStep(s, p, b, [], r.value.0, r.value.1);
      }
    }
  }

  // ---------------------------------------------------------------- quoting and back

  function Quoted(f: string): string {
    ['"'] + f + ['"', ' ']
  }

  function Quote(fs: seq<string>): string {
    if fs == [] then "" else Quoted(fs[0]) + Quote(fs[1..])
  }

  lemma {:induction false} ClosingOf(s: string, p: nat, f: string)
    requires '"' !in f && p + |f| < |s| && s[p..p + |f|] == f && s[p + |f|] == '"'
    ensures Closing(s, p) == p + |f|
    decreases |f|
  {
    if f != "" {
      assert s[p] == f[0];
      assert s[p + 1..p + 1 + |f[1..]|] == f[1..];
      ClosingOf(s, p + 1, f[1..]);
    }
  }

  lemma QuotedStands(s: string, p: nat, f: string, rest: string)
    requires p <= |s| && s[p..] == Quoted(f) + rest
    ensures p + |f| + 2 < |s|
    ensures s[p] == '"' && s[p + 1..p + 1 + |f|] == f && s[p + 1 + |f|] == '"' && s[p + 2 + |f|] == ' '
    ensures s[p + 3 + |f|..] == rest
  {
    var q := Quoted(f) + rest;
    assert |s| == p + |q|;
    assert forall k :: 0 <= k < |q| ==> s[p + k] == q[k];
    assert q[1..1 + |f|] == f && q[3 + |f|..] == rest;
    assert s[p + 1..p + 1 + |f|] == s[p..][1..1 + |f|];
    assert s[p + 3 + |f|..] == s[p..][3 + |f|..];
  }

  /** One quoted field followed by a blank. */
  lemma QuotedSplits(s: string, p: nat, f: string, q: nat)
    requires '"' !in f && p + |f| + 3 == q <= |s|
    requires s[p] == '"' && s[p + 1..p + 1 + |f|] == f && s[p + 1 + |f|] == '"' && s[p + 2 + |f|] == ' '
    ensures Split(s, p) == Then([f], Split(s, q))
  {
    ClosingOf(s, p + 1, f);
    assert Field(s, p) == Some((f, p + 2 + |f|));
    SplitStep(s, p, p, [], f, p + 2 + |f|);
    assert [] + [f] == [f];
    assert Split(s, p).Some? ==> [] + Split(s, p).value == Split(s, p).value;
  }

  lemma QuotedFirst(s: string, p: nat, f: string, rest: string, q: nat)
    requires p <= |s| && s[p..] == Quoted(f) + rest && '"' !in f && q == p + |f| + 3
    ensures q <= |s| && s[q..] == rest && Split(s, p) == Then([f], Split(s, q))
  {
    QuotedStands(s, p, f, rest);
    QuotedSplits(s, p, f, q);
  }

  predicate QuoteFree(fs: seq<string>) {
    fs != [] ==> '"' !in fs[0] && QuoteFree(fs[1..])
  }

  lemma {:induction false} SplitInvertsQuoteFrom(s: string, p: nat, fs: seq<string>)
    requires p <= |s| && s[p..] == Quote(fs) && QuoteFree(fs)
    ensures Split(s, p) == Some(fs)
    decreases |fs|
  {
    if fs == [] {
      NothingLeft(s, p);
    } else {
      var q, more := QuotedStep(s, p, fs);
      SplitInvertsQuoteFrom(s, q, more);
      Consed(s, p, q, fs, more);
    }
  }

  lemma NothingLeft(s: string, p: nat)
    requires p <= |s| && s[p..] == Quote([])
    ensures Split(s, p) == Some([])
  {
    assert p == |s|;
  }

  lemma QuoteUnfolds(fs: seq<string>, f: string, more: seq<string>, text: string)
    requires fs != [] && f == fs[0] && more == fs[1..] && text == Quote(fs) && QuoteFree(fs)
    ensures fs == [f] + more && text == Quoted(f) + Quote(more) && '"' !in f && QuoteFree(more)
  {
  }

  lemma QuotedStep(s: string, p: nat, fs: seq<string>) returns (q: nat, more: seq<string>)
    requires p <= |s| && s[p..] == Quote(fs) && QuoteFree(fs) && fs != []
    ensures fs == [fs[0]] + more && QuoteFree(more) && |more| < |fs|
    ensures q <= |s| && s[q..] == Quote(more) && Split(s, p) == Then([fs[0]], Split(s, q))
  {
    more := fs[1..];
    q := p + |fs[0]| + 3;
    QuoteUnfolds(fs, fs[0], more, Quote(fs));
    QuotedFirst(s, p, fs[0], Quote(more), q);
  }

  lemma Consed(s: string, p: nat, q: nat, fs: seq<string>, more: seq<string>)
    requires p <= |s| && q <= |s| && fs != [] && fs == [fs[0]] + more
    requires Split(s, p) == Then([fs[0]], Split(s, q)) && Split(s, q) == Some(more)
    ensures Split(s, p) == Some(fs)
  {
  }

  /** Splitting inverts quoting: any list of fields without quotes, printed in double quotes and
      separated by blanks, splits into itself. */
  lemma SplitInvertsQuote(fs: seq<string>)
    requires QuoteFree(fs)
    ensures Split(Quote(fs), 0) == Some(fs)
  {
    assert Quote(fs)[0..] == Quote(fs);
    SplitInvertsQuoteFrom(Quote(fs), 0, fs);
  }
}
