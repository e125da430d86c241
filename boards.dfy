/** The 8x8 position matrix and the application of one move to a copy of
    it (Logic::make_turn). Cell codes: 0 empty, 1 white man, 2 black man,
    3 white king, 4 black king; the parity of a code gives its side. */
module Boards {
  import opened Moves

  type Board = seq<seq<int>>

  predicate InBounds(i: int, j: int) {
    0 <= i < 8 && 0 <= j < 8
  }

  /** A well-formed position: 8 rows of 8 cells, every code in 0..4. */
  predicate IsBoard(b: Board) {
    |b| == 8 &&
    forall i :: 0 <= i < 8 ==> |b[i]| == 8 && forall j :: 0 <= j < 8 ==> 0 <= b[i][j] <= 4
  }

  /** The board with cell (i, j) set to v and every other cell kept. */
  function Put(b: Board, i: int, j: int, v: int): (r: Board)
    requires IsBoard(b) && InBounds(i, j) && 0 <= v <= 4
    ensures IsBoard(r)
  {
    b[i := b[i][j := v]]
  }

  lemma PutCells(b: Board, i: int, j: int, v: int)
    requires IsBoard(b) && InBounds(i, j) && 0 <= v <= 4
    ensures Put(b, i, j, v)[i][j] == v
    ensures forall i', j' :: InBounds(i', j') && (i', j') != (i, j) ==> Put(b, i, j, v)[i'][j'] == b[i'][j']
  {
  }

  /** The code a piece carries after landing on row `row`: a white man
      reaching row 0 or a black man reaching row 7 becomes a king. */
  function Promoted(p: int, row: int): int {
    if (p == 1 && row == 0) || (p == 2 && row == 7) then p + 2 else p
  }

  /** The coordinates a move touches are on the board. */
  predicate MoveInBounds(m: MovePos) {
    InBounds(m.x, m.y) && InBounds(m.x2, m.y2) && (m.xb != -1 ==> InBounds(m.xb, m.yb))
  }

  /** A capture as the generator produces it: an occupied captured cell, an
      empty landing cell, and three distinct cells. */
  predicate CaptureOn(b: Board, m: MovePos)
    requires IsBoard(b)
  {
    InBounds(m.x, m.y) && InBounds(m.x2, m.y2) && InBounds(m.xb, m.yb) &&
    b[m.xb][m.yb] != 0 && b[m.x2][m.y2] == 0 &&
    (m.x, m.y) != (m.x2, m.y2) && (m.xb, m.yb) != (m.x, m.y) && (m.xb, m.yb) != (m.x2, m.y2)
  }

  /** A non-capturing move as the generator produces it. */
  predicate StepOn(b: Board, m: MovePos)
    requires IsBoard(b)
  {
    InBounds(m.x, m.y) && InBounds(m.x2, m.y2) && m.xb == -1 && m.yb == -1 &&
    b[m.x2][m.y2] == 0 && (m.x, m.y) != (m.x2, m.y2)
  }

  /** Applies a move to a copy of the board, in the source's order: clear
      the captured cell, promote the piece in place, copy it to the
      destination, clear the source cell. */
  function MakeTurn(b: Board, m: MovePos): (r: Board)
    requires IsBoard(b) && MoveInBounds(m)
    ensures IsBoard(r)
  {
    var b1 := if m.xb != -1 then Put(b, m.xb, m.yb, 0) else b;
    var p := b1[m.x][m.y];
    var b2 := if (p == 1 && m.x2 == 0) || (p == 2 && m.x2 == 7) then Put(b1, m.x, m.y, p + 2) else b1;
    var b3 := Put(b2, m.x2, m.y2, b2[m.x][m.y]);
    Put(b3, m.x, m.y, 0)
  }

  /** The cells make_turn writes: the source cell is cleared, the
      destination holds the (possibly promoted) piece, the captured cell is
      cleared, and every other cell is kept. */
  lemma MakeTurnCells(b: Board, m: MovePos)
    requires IsBoard(b) && MoveInBounds(m)
    ensures var r := MakeTurn(b, m);
      r[m.x][m.y] == 0 &&
      ((m.x2, m.y2) != (m.x, m.y) && (m.xb == -1 || (m.xb, m.yb) != (m.x, m.y)) ==>
         r[m.x2][m.y2] == Promoted(b[m.x][m.y], m.x2)) &&
      (m.xb != -1 && (m.xb, m.yb) != (m.x2, m.y2) ==> r[m.xb][m.yb] == 0) &&
      forall i, j ::
        (InBounds(i, j) && (i, j) != (m.x, m.y) && (i, j) != (m.x2, m.y2) &&
         (m.xb == -1 || (i, j) != (m.xb, m.yb))) ==> r[i][j] == b[i][j]
  {
  }

  function Indicator(c: bool): int {
    if c then 1 else 0
  }

  /** The occupied cells. */
  function Pieces(b: Board): set<(int, int)>
    requires IsBoard(b)
  {
    set i, j | 0 <= i < 8 && 0 <= j < 8 && b[i][j] != 0 :: (i, j)
  }

  /** Number of pieces on the board. */
  function PieceCount(b: Board): nat
    requires IsBoard(b)
  {
    |Pieces(b)|
  }

  /** Writing one cell adds it to the occupied cells or removes it from
      them, and leaves the other cells as they were. */
  lemma PiecesPut(b: Board, i: int, j: int, v: int)
    requires IsBoard(b) && InBounds(i, j) && 0 <= v <= 4
    ensures Pieces(Put(b, i, j, v)) == if v != 0 then Pieces(b) + {(i, j)} else Pieces(b) - {(i, j)}
  {
    var r := Put(b, i, j, v);
    forall c | c in Pieces(r)
      ensures c in (if v != 0 then Pieces(b) + {(i, j)} else Pieces(b) - {(i, j)})
    {
      if c != (i, j) {
        assert r[c.0][c.1] == b[c.0][c.1];
      }
    }
    forall c | c in (if v != 0 then Pieces(b) + {(i, j)} else Pieces(b) - {(i, j)})
      ensures c in Pieces(r)
    {
      if c != (i, j) {
        assert r[c.0][c.1] == b[c.0][c.1];
      }
    }
  }

  /** Adding or removing one element changes a set's size by one at
      most. */
  lemma SingletonCard<T>(s: set<T>, a: T)
    ensures |s - {a}| == if a in s then |s| - 1 else |s|
    ensures |s + {a}| == |s - {a}| + 1
  {
    var t := s - {a};
    assert t * {a} == {};
    if a in s {
      assert s == t + {a};
    } else {
      assert s == t;
    }
    assert s + {a} == t + {a};
  }

  lemma PieceCountPut(b: Board, i: int, j: int, v: int)
    requires IsBoard(b) && InBounds(i, j) && 0 <= v <= 4
    ensures PieceCount(Put(b, i, j, v)) == PieceCount(b) + Indicator(v != 0) - Indicator(b[i][j] != 0)
  {
    PiecesPut(b, i, j, v);
    SingletonCard(Pieces(b), (i, j));
    if b[i][j] != 0 {
      assert (i, j) in Pieces(b);
    }
  }

  /** Every capture removes exactly one piece from the board. */
  lemma {:induction false} CaptureRemovesOnePiece(b: Board, m: MovePos)
    requires IsBoard(b) && CaptureOn(b, m)
    ensures PieceCount(MakeTurn(b, m)) == PieceCount(b) - 1
  {
    var b1 := Put(b, m.xb, m.yb, 0);
    PieceCountPut(b, m.xb, m.yb, 0);
    var p := b1[m.x][m.y];
    var b2 := if (p == 1 && m.x2 == 0) || (p == 2 && m.x2 == 7) then Put(b1, m.x, m.y, p + 2) else b1;
    if (p == 1 && m.x2 == 0) || (p == 2 && m.x2 == 7) {
      PieceCountPut(b1, m.x, m.y, p + 2);
    }
    assert PieceCount(b2) == PieceCount(b) - 1;
    assert b2[m.x2][m.y2] == 0;
    var b3 := Put(b2, m.x2, m.y2, b2[m.x][m.y]);
    PieceCountPut(b2, m.x2, m.y2, b2[m.x][m.y]);
    assert b3[m.x][m.y] == b2[m.x][m.y];
    PieceCountPut(b3, m.x, m.y, 0);
  }

  /** A non-capturing move keeps the number of pieces. */
  lemma {:induction false} StepKeepsPieces(b: Board, m: MovePos)
    requires IsBoard(b) && StepOn(b, m)
    ensures PieceCount(MakeTurn(b, m)) == PieceCount(b)
  {
    var p := b[m.x][m.y];
    var b2 := if (p == 1 && m.x2 == 0) || (p == 2 && m.x2 == 7) then Put(b, m.x, m.y, p + 2) else b;
    if (p == 1 && m.x2 == 0) || (p == 2 && m.x2 == 7) {
      PieceCountPut(b, m.x, m.y, p + 2);
    }
    assert b2[m.x2][m.y2] == 0;
    var b3 := Put(b2, m.x2, m.y2, b2[m.x][m.y]);
    PieceCountPut(b2, m.x2, m.y2, b2[m.x][m.y]);
    assert b3[m.x][m.y] == b2[m.x][m.y];
    PieceCountPut(b3, m.x, m.y, 0);
  }

  /** A man that lands on the far row becomes the king of its side; a king
      or a man elsewhere keeps its code. */
  lemma PromotionOnBackRank(b: Board, m: MovePos)
    requires IsBoard(b) && (CaptureOn(b, m) || StepOn(b, m))
    ensures b[m.x][m.y] == 1 && m.x2 == 0 ==> MakeTurn(b, m)[m.x2][m.y2] == 3
    ensures b[m.x][m.y] == 2 && m.x2 == 7 ==> MakeTurn(b, m)[m.x2][m.y2] == 4
    ensures !(b[m.x][m.y] == 1 && m.x2 == 0) && !(b[m.x][m.y] == 2 && m.x2 == 7) ==>
              MakeTurn(b, m)[m.x2][m.y2] == b[m.x][m.y]
    ensures MakeTurn(b, m)[m.x2][m.y2] % 2 == b[m.x][m.y] % 2
  {
  }
}
