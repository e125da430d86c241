/** A single ply of checkers: the moving piece's cell, its destination and,
    for a capture, the cell of the captured piece. (-1, -1) in the captured
    fields means "nothing captured". Coordinates are (row, column). */
module Moves {

  /** The record itself; its datatype constructor is the six-argument
      constructor of the source, storing every coordinate as given. */
  datatype MovePos = MovePos(x: int, y: int, x2: int, y2: int, xb: int, yb: int)

  /** The four-argument constructor: a move that captures nothing. */
  function Quiet(x: int, y: int, x2: int, y2: int): (m: MovePos)
    ensures m.x == x && m.y == y && m.x2 == x2 && m.y2 == y2
    ensures m.xb == -1 && m.yb == -1
    ensures !IsCaptureMove(m)
  {
    MovePos(x, y, x2, y2, -1, -1)
  }

  /** A move records a capture exactly when its captured row is not -1. */
  predicate IsCaptureMove(m: MovePos) {
    m.xb != -1
  }

  /** The placeholder the search stores for "no move recorded". */
  const NoMove: MovePos := Quiet(-1, -1, -1, -1)

  /** The move comparison of the source: source and destination only. */
  predicate SameMove(a: MovePos, b: MovePos) {
    a.x == b.x && a.y == b.y && a.x2 == b.x2 && a.y2 == b.y2
  }

  /** The inequality of the source: the negation of SameMove. */
  predicate DifferentMove(a: MovePos, b: MovePos) {
    !SameMove(a, b)
  }

  /** Changing only the captured cell never changes the comparison, and two
      moves that compare equal differ at most in their captured cell. */
  lemma SameMoveIgnoresCapture(a: MovePos, b: MovePos)
    ensures SameMove(a, b) <==> a.(xb := b.xb, yb := b.yb) == b
    ensures SameMove(a, a.(xb := b.xb, yb := b.yb))
  {
  }

  /** The comparison is an equivalence relation, coarser than identity. */
  lemma SameMoveIsEquivalence(a: MovePos, b: MovePos, c: MovePos)
    ensures SameMove(a, a)
    ensures SameMove(a, b) ==> SameMove(b, a)
    ensures SameMove(a, b) && SameMove(b, c) ==> SameMove(a, c)
    ensures a == b ==> SameMove(a, b)
  {
  }

  /** Inequality holds exactly when the comparison fails. */
  lemma DifferentMoveIsNegation(a: MovePos, b: MovePos)
    ensures DifferentMove(a, b) <==> !SameMove(a, b)
    ensures DifferentMove(a, b) <==> (a.x != b.x || a.y != b.y || a.x2 != b.x2 || a.y2 != b.y2)
  {
  }
}
