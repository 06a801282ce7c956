/** lplf.c, main: which lines of text come on which page. */
module LplfPages {
  import opened Lplf

  /** A page takes no more lines: it is full, or its last line held a form feed. */
  predicate Closed(pagelen: nat, page: seq<Piece>) {
    page != [] && (|page| >= pagelen - 2 || page[|page| - 1].eject)
  }

  /** The lines dealt out to pages, of which one is open: each page takes lines until it is closed. */
  function Pages(pagelen: nat, open_: seq<Piece>, rest: seq<Piece>): seq<seq<Piece>>
    decreases |rest|, |open_|
  {
    if Closed(pagelen, open_) then [open_] + Pages(pagelen, [], rest)
    else if rest != [] then Pages(pagelen, open_ + [rest[0]], rest[1..])
    else if open_ == [] then []
    else [open_]
  }

  function Texts(page: seq<Piece>): (out: seq<Event>)
    ensures |out| == |page| && forall k :: 0 <= k < |page| ==> out[k] == Text(page[k].text)
  {
    seq(|page|, k requires 0 <= k < |page| => Text(page[k].text))
  }

  /** A page on paper: the label, its lines, empty lines to fill it up, the label again, and the form feed. */
  function Sheet(pagelen: nat, page: seq<Piece>): seq<Event> {
    [LabelLine] + Texts(page) + Blanks(pagelen - 2 - |page|) + [LabelCR, Eject]
  }

  function Sheets(pagelen: nat, pages: seq<seq<Piece>>): seq<Event> {
    if pages == [] then [] else Sheet(pagelen, pages[0]) + Sheets(pagelen, pages[1..])
  }

  // ---------------------------------------------------------------- the main loop

  /** What of the open page has been printed. A form feed has filled it up. */
  function Top(pagelen: nat, page: seq<Piece>): seq<Event> {
    if page == [] then []
    else [LabelLine] + Texts(page) + if page[|page| - 1].eject then Blanks(pagelen - 2 - |page|) else []
  }

  function LineOf(pagelen: nat, page: seq<Piece>): nat
    requires pagelen >= 3
  {
    if page == [] then 0 else if page[|page| - 1].eject then pagelen - 1 else |page| + 1
  }

  /** The state behind the pages done, with one open. */
  predicate At(pagelen: nat, p: Page, done: seq<Event>, n: nat, open_: seq<Piece>)
    requires pagelen >= 3
  {
    && |open_| <= pagelen - 2 && p.out == done + Top(pagelen, open_) && p.lineno == LineOf(pagelen, open_)
    && p.pages == n
  }

  lemma SheetIsTop(pagelen: nat, page: seq<Piece>)
    requires pagelen >= 3 && page != [] && |page| <= pagelen - 2
    ensures Sheet(pagelen, page)
         == Top(pagelen, page) + Blanks(pagelen - 1 - LineOf(pagelen, page)) + [LabelCR, Eject]
  {
    if page[|page| - 1].eject {
      assert Top(pagelen, page) + [] == Top(pagelen, page);
    } else {
      assert [LabelLine] + Texts(page) + [] == [LabelLine] + Texts(page);
    }
  }

  /** The labels due: those that end the open page if it is closed, and the one of a new page. */
  lemma LabelsTurn(pagelen: nat, p: Page, done: seq<Event>, n: nat, open_: seq<Piece>)
    requires pagelen >= 3 && At(pagelen, p, done, n, open_)
    ensures var q := Labels(pagelen, p);
            if Closed(pagelen, open_)
            then q == Page(done + Sheet(pagelen, open_) + [LabelLine], 1, n + 1)
            else q == Page(done + ([LabelLine] + Texts(open_)), |open_| + 1, n)
  {
    if open_ == [] {
      assert done + [] + [LabelLine] == done + [LabelLine] && [LabelLine] + Texts([]) == [LabelLine];
    } else if Closed(pagelen, open_) {
      SheetIsTop(pagelen, open_);
      assert Blanks(pagelen - 1 - LineOf(pagelen, open_)) == [];
      assert Top(pagelen, open_) + [] == Top(pagelen, open_);
      assert done + Top(pagelen, open_) + [LabelCR, Eject] == done + (Top(pagelen, open_) + [LabelCR, Eject]);
    } else {
      assert [LabelLine] + Texts(open_) + [] == [LabelLine] + Texts(open_);
    }
  }

  /** A line on the open page, which still takes one. */
  lemma LineTurn(pagelen: nat, q: Page, done: seq<Event>, n: nat, open_: seq<Piece>, piece: Piece)
    requires pagelen >= 3 && |open_| < pagelen - 2 && q == Page(done + ([LabelLine] + Texts(open_)), |open_| + 1, n)
    ensures At(pagelen, Page(q.out + Lines(pagelen, q.lineno, piece), if piece.eject then pagelen - 1 else q.lineno + 1,
                             q.pages), done, n, open_ + [piece])
  {
    var more := open_ + [piece];
    assert more[|more| - 1] == piece;
    assert Texts(more) == Texts(open_) + [Text(piece.text)];
    var fill := if piece.eject then Blanks(pagelen - 2 - |more|) else [];
    assert done + ([LabelLine] + Texts(open_)) + ([Text(piece.text)] + fill)
        == done + ([LabelLine] + (Texts(open_) + [Text(piece.text)]) + fill);
  }

  lemma PieceTurn(pagelen: nat, p: Page, done: seq<Event>, n: nat, open_: seq<Piece>, piece: Piece)
    requires pagelen >= 3 && At(pagelen, p, done, n, open_)
    ensures if Closed(pagelen, open_)
            then At(pagelen, PrintPiece(pagelen, p, piece), done + Sheet(pagelen, open_), n + 1, [piece])
            else At(pagelen, PrintPiece(pagelen, p, piece), done, n, open_ + [piece])
  {
    var q := Labels(pagelen, p);
    LabelsTurn(pagelen, p, done, n, open_);
    PrintPieceIs(pagelen, p, q, piece);
    if Closed(pagelen, open_) {
      assert [LabelLine] + Texts([]) == [LabelLine] && [] + [piece] == [piece];
      LineTurn(pagelen, q, done + Sheet(pagelen, open_), n + 1, [], piece);
    } else {
      LineTurn(pagelen, q, done, n, open_, piece);
    }
  }

  lemma SheetFirst(pagelen: nat, done: seq<Event>, page: seq<Piece>, more: seq<seq<Piece>>)
    ensures done + Sheets(pagelen, [page] + more) == done + Sheet(pagelen, page) + Sheets(pagelen, more)
  {
    assert ([page] + more)[1..] == more;
  }

  lemma LastTurn(pagelen: nat, p: Page, done: seq<Event>, n: nat, open_: seq<Piece>)
    requires pagelen >= 3 && At(pagelen, p, done, n, open_)
    ensures LastPage(pagelen, p).out == done + Sheets(pagelen, if open_ == [] then [] else [open_])
    ensures LastPage(pagelen, p).pages == n + if open_ == [] then 0 else 1
  {
    if open_ == [] {
      assert done + [] == done;
    } else {
      SheetIsTop(pagelen, open_);
      SheetFirst(pagelen, done, open_, []);
      assert [open_] + [] == [open_] && done + Sheet(pagelen, open_) + [] == done + Sheet(pagelen, open_);
      var fill := Blanks(pagelen - 1 - p.lineno);
      assert done + Top(pagelen, open_) + fill + [LabelCR] + [Eject]
          == done + (Top(pagelen, open_) + fill + [LabelCR, Eject]);
    }
  }

  lemma NothingLeft(pagelen: nat, open_: seq<Piece>)
    requires pagelen >= 3
    ensures Pages(pagelen, open_, []) == if open_ == [] then [] else [open_]
  {
    if Closed(pagelen, open_) {
      assert Pages(pagelen, [], []) == [];
    }
  }

  lemma {:induction false} PiecesTurn(pagelen: nat, p: Page, done: seq<Event>, n: nat, open_: seq<Piece>,
                                      pieces: seq<Piece>)
    requires pagelen >= 3 && At(pagelen, p, done, n, open_)
    ensures var last := LastPage(pagelen, PrintPieces(pagelen, p, pieces));
            && last.out == done + Sheets(pagelen, Pages(pagelen, open_, pieces))
            && last.pages == n + |Pages(pagelen, open_, pieces)|
    decreases |pieces|
  {
    if pieces == [] {
      LastTurn(pagelen, p, done, n, open_);
      NothingLeft(pagelen, open_);
    } else {
      var piece, rest := pieces[0], pieces[1..];
      PieceTurn(pagelen, p, done, n, open_, piece);
      if Closed(pagelen, open_) {
        PiecesTurn(pagelen, PrintPiece(pagelen, p, piece), done + Sheet(pagelen, open_), n + 1, [piece], rest);
        assert [] + [piece] == [piece];
        assert Pages(pagelen, [], pieces) == Pages(pagelen, [piece], rest);
        SheetFirst(pagelen, done, open_, Pages(pagelen, [piece], rest));
      } else {
        PiecesTurn(pagelen, PrintPiece(pagelen, p, piece), done, n, open_ + [piece], rest);
      }
    }
  }

  /** A job with a page length of three at least: the lines of text in order, page by page. A page takes lines until it
      is full or one of them held a form feed; it is then filled up, and the next line starts a new page. */
  lemma JobIsPages(pagelen: nat, pieces: seq<Piece>)
    requires pagelen >= 3
    ensures Job(pagelen, pieces).out == Sheets(pagelen, Pages(pagelen, [], pieces))
    ensures Job(pagelen, pieces).pages == |Pages(pagelen, [], pieces)|
  {
    PiecesTurn(pagelen, Page([], 0, 0), [], 0, [], pieces);
    assert [] + Sheets(pagelen, Pages(pagelen, [], pieces)) == Sheets(pagelen, Pages(pagelen, [], pieces));
  }
}
