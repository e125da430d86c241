/** The move generator of Logic (both find_turns overloads) as functions,
    producing moves in the order the source's loops visit them (before
    the side-level shuffle), together with the rules of checkers they
    implement, stated independently as predicates on a single move. */
module MoveGen {
  import opened Moves
  import opened Boards

  /** Moves found, and whether they are captures (the source's have_beats). */
  datatype Gen = Gen(moves: seq<MovePos>, beats: bool)

  /** Codes 1 and 2 are men; every other code takes the king branch. */
  predicate IsMan(t: int) {
    t == 1 || t == 2
  }

  predicate IsDir(d: int) {
    d == 1 || d == -1
  }

  /** The coordinate k steps from c in direction d (d is 1 or -1). */
  function Ray(c: int, d: int, k: int): int {
    if d == 1 then c + k else c - k
  }

  // ---------------------------------------------------------------------
  // Captures (Logic.h:274-317)
  // ---------------------------------------------------------------------

  /** A man's capture landing on (i, j), if the jump is legal there. */
  function ManJump(b: Board, x: int, y: int, i: int, j: int): seq<MovePos>
    requires IsBoard(b) && InBounds(x, y)
  {
    if !InBounds(i, j) then []
    else
      var xb, yb := (x + i) / 2, (y + j) / 2;
      if b[i][j] != 0 || b[xb][yb] == 0 || b[xb][yb] % 2 == b[x][y] % 2 then []
      else [MovePos(x, y, i, j, xb, yb)]
  }

  /** The two man captures landing on row i, left column first. */
  function ManJumpRow(b: Board, x: int, y: int, i: int): seq<MovePos>
    requires IsBoard(b) && InBounds(x, y)
  {
    ManJump(b, x, y, i, y - 2) + ManJump(b, x, y, i, y + 2)
  }

  function ManCaptures(b: Board, x: int, y: int): seq<MovePos>
    requires IsBoard(b) && InBounds(x, y)
  {
    ManJumpRow(b, x, y, x - 2) + ManJumpRow(b, x, y, x + 2)
  }

  /** The king's capture scan along direction (di, dj), from step k on; p is
      the step of the piece already jumped, or -1 while none is. */
  function KingJumps(b: Board, x: int, y: int, di: int, dj: int, k: int, p: int): seq<MovePos>
    requires IsBoard(b) && InBounds(x, y) && IsDir(di) && IsDir(dj)
    requires 1 <= k && (p == -1 || 1 <= p < k)
    decreases 8 - k
  {
    var i2, j2 := Ray(x, di, k), Ray(y, dj, k);
    if !InBounds(i2, j2) then []
    else if b[i2][j2] != 0 &&
            (b[i2][j2] % 2 == b[x][y] % 2 || (b[i2][j2] % 2 != b[x][y] % 2 && p != -1)) then []
    else
      var p' := if b[i2][j2] != 0 then k else p;
      (if p' != -1 && p' != k then [MovePos(x, y, i2, j2, Ray(x, di, p'), Ray(y, dj, p'))] else [])
      + KingJumps(b, x, y, di, dj, k + 1, p')
  }

  /** The king's capture scans towards row x + di, left diagonal first. */
  function KingJumpDir(b: Board, x: int, y: int, di: int): seq<MovePos>
    requires IsBoard(b) && InBounds(x, y) && IsDir(di)
  {
    KingJumps(b, x, y, di, -1, 1, -1) + KingJumps(b, x, y, di, 1, 1, -1)
  }

  function KingCaptures(b: Board, x: int, y: int): seq<MovePos>
    requires IsBoard(b) && InBounds(x, y)
  {
    KingJumpDir(b, x, y, -1) + KingJumpDir(b, x, y, 1)
  }

  // ---------------------------------------------------------------------
  // Quiet moves (Logic.h:323-351)
  // ---------------------------------------------------------------------

  /** The row a man steps to: up for odd codes, down for even ones. */
  function Forward(t: int, x: int): int {
    if t % 2 == 1 then x - 1 else x + 1
  }

  function ManStep(b: Board, x: int, y: int, i: int, j: int): seq<MovePos>
    requires IsBoard(b)
  {
    if !InBounds(i, j) || b[i][j] != 0 then [] else [Quiet(x, y, i, j)]
  }

  function ManSteps(b: Board, x: int, y: int): seq<MovePos>
    requires IsBoard(b) && InBounds(x, y)
  {
    var i := Forward(b[x][y], x);
    ManStep(b, x, y, i, y - 1) + ManStep(b, x, y, i, y + 1)
  }

  /** The king's slide along direction (di, dj), from step k on. */
  function KingSlides(b: Board, x: int, y: int, di: int, dj: int, k: int): seq<MovePos>
    requires IsBoard(b) && InBounds(x, y) && IsDir(di) && IsDir(dj) && 1 <= k
    decreases 8 - k
  {
    var i2, j2 := Ray(x, di, k), Ray(y, dj, k);
    if !InBounds(i2, j2) || b[i2][j2] != 0 then []
    else [Quiet(x, y, i2, j2)] + KingSlides(b, x, y, di, dj, k + 1)
  }

  function KingSlideDir(b: Board, x: int, y: int, di: int): seq<MovePos>
    requires IsBoard(b) && InBounds(x, y) && IsDir(di)
  {
    KingSlides(b, x, y, di, -1, 1) + KingSlides(b, x, y, di, 1, 1)
  }

  function KingQuiet(b: Board, x: int, y: int): seq<MovePos>
    requires IsBoard(b) && InBounds(x, y)
  {
    KingSlideDir(b, x, y, -1) + KingSlideDir(b, x, y, 1)
  }

  /** find_turns(x, y, mtx): the captures of the piece on (x, y) if it has
      any, otherwise its quiet moves. */
  function PieceMoves(b: Board, x: int, y: int): Gen
    requires IsBoard(b) && InBounds(x, y)
  {
    var caps := if IsMan(b[x][y]) then ManCaptures(b, x, y) else KingCaptures(b, x, y);
    if caps != [] then Gen(caps, true)
    else Gen(if IsMan(b[x][y]) then ManSteps(b, x, y) else KingQuiet(b, x, y), false)
  }

  // ---------------------------------------------------------------------
  // A whole side (Logic.h:243-268)
  // ---------------------------------------------------------------------

  /** The source's bool colour as the code parity it skips: false (white)
      selects odd codes, true (black) even ones. */
  function Bit(color: bool): int {
    if color then 1 else 0
  }

  /** (i, j) holds a piece of the side `color`. */
  predicate Own(b: Board, color: bool, i: int, j: int)
    requires IsBoard(b)
  {
    InBounds(i, j) && b[i][j] != 0 && b[i][j] % 2 != Bit(color)
  }

  /** One step of the side scan: the result so far after visiting a piece
      whose own moves are g. The first capture found discards every quiet
      move collected before it; once captures are found, quiet moves are
      no longer collected. */
  function Collect(acc: Gen, g: Gen): Gen {
    if g.beats && !acc.beats then Gen(g.moves, true)
    else if (acc.beats && g.beats) || !acc.beats then Gen(acc.moves + g.moves, acc.beats)
    else acc
  }

  /** The side scan from cell (i, j) on, row by row and left to right
      within a row. */
  function SideScan(b: Board, color: bool, i: int, j: int, acc: Gen): Gen
    requires IsBoard(b) && 0 <= i <= 8 && 0 <= j <= 8
    decreases 8 - i, 8 - j
  {
    if i == 8 then acc
    else if j == 8 then SideScan(b, color, i + 1, 0, acc)
    else if b[i][j] != 0 && b[i][j] % 2 != Bit(color) then SideScan(b, color, i, j + 1, Collect(acc, PieceMoves(b, i, j)))
    else SideScan(b, color, i, j + 1, acc)
  }

  /** find_turns(color, mtx), in scan order. */
  function SideMoves(b: Board, color: bool): Gen
    requires IsBoard(b)
  {
    SideScan(b, color, 0, 0, Gen([], false))
  }

  // ---------------------------------------------------------------------
  // The rules, one move at a time
  // ---------------------------------------------------------------------

  function Dist(c: int, c2: int): int {
    if c2 >= c then c2 - c else c - c2
  }

  function Sign(d: int): int {
    if d > 0 then 1 else -1
  }

  /** (x2, y2) is on a diagonal through (x, y), and not (x, y) itself. */
  predicate OnDiagonal(x: int, y: int, x2: int, y2: int) {
    x2 != x && Dist(x, x2) == Dist(y, y2)
  }

  /** Steps lo..hi along direction (di, dj) from (x, y) are on the board
      and empty. */
  predicate PathEmpty(b: Board, x: int, y: int, di: int, dj: int, lo: int, hi: int)
    requires IsBoard(b)
  {
    forall l :: lo <= l <= hi ==>
      InBounds(Ray(x, di, l), Ray(y, dj, l)) && b[Ray(x, di, l)][Ray(y, dj, l)] == 0
  }

  /** A man's capture: over an adjacent diagonal piece of the other parity
      to the empty cell two steps away, in any of the four directions; the
      captured cell is the midpoint. */
  predicate IsManJump(b: Board, x: int, y: int, m: MovePos)
    requires IsBoard(b) && InBounds(x, y)
  {
    m.x == x && m.y == y &&
    (m.x2 == x - 2 || m.x2 == x + 2) && (m.y2 == y - 2 || m.y2 == y + 2) && InBounds(m.x2, m.y2) &&
    2 * m.xb == x + m.x2 && 2 * m.yb == y + m.y2 &&
    b[m.x2][m.y2] == 0 && b[m.xb][m.yb] != 0 && b[m.xb][m.yb] % 2 != b[x][y] % 2
  }

  /** A man's quiet move: one step diagonally forward (row x - 1 for a
      white man, x + 1 for a black one) to an empty cell. */
  predicate IsManStep(b: Board, x: int, y: int, m: MovePos)
    requires IsBoard(b) && InBounds(x, y)
  {
    m.x == x && m.y == y && m.xb == -1 && m.yb == -1 &&
    m.x2 == (if b[x][y] == 1 then x - 1 else x + 1) && (m.y2 == y - 1 || m.y2 == y + 1) &&
    InBounds(m.x2, m.y2) && b[m.x2][m.y2] == 0
  }

  /** A king's capture: along a diagonal, over empty cells, exactly one
      piece of the other parity, then any distance over empty cells. */
  predicate IsKingJump(b: Board, x: int, y: int, m: MovePos)
    requires IsBoard(b) && InBounds(x, y)
  {
    var di, dj, k, p := Sign(m.x2 - x), Sign(m.y2 - y), Dist(x, m.x2), Dist(x, m.xb);
    m.x == x && m.y == y && InBounds(m.x2, m.y2) && OnDiagonal(x, y, m.x2, m.y2) &&
    1 <= p < k && m.xb == Ray(x, di, p) && m.yb == Ray(y, dj, p) &&
    PathEmpty(b, x, y, di, dj, 1, p - 1) &&
    b[m.xb][m.yb] != 0 && b[m.xb][m.yb] % 2 != b[x][y] % 2 &&
    PathEmpty(b, x, y, di, dj, p + 1, k)
  }

  /** A king's quiet move: any distance along a diagonal over empty cells. */
  predicate IsKingSlide(b: Board, x: int, y: int, m: MovePos)
    requires IsBoard(b) && InBounds(x, y)
  {
    m.x == x && m.y == y && m.xb == -1 && m.yb == -1 &&
    InBounds(m.x2, m.y2) && OnDiagonal(x, y, m.x2, m.y2) &&
    PathEmpty(b, x, y, Sign(m.x2 - x), Sign(m.y2 - y), 1, Dist(x, m.x2))
  }

  /** A capture by the piece on (x, y), by the rule its code selects. */
  predicate IsJump(b: Board, x: int, y: int, m: MovePos)
    requires IsBoard(b) && InBounds(x, y)
  {
    if IsMan(b[x][y]) then IsManJump(b, x, y, m) else IsKingJump(b, x, y, m)
  }

  /** A quiet move of the piece on (x, y), by the rule its code selects. */
  predicate IsStep(b: Board, x: int, y: int, m: MovePos)
    requires IsBoard(b) && InBounds(x, y)
  {
    if IsMan(b[x][y]) then IsManStep(b, x, y, m) else IsKingSlide(b, x, y, m)
  }

  /** Every move is a capture of b when `beats`, a quiet move otherwise. */
  predicate MovesOn(b: Board, moves: seq<MovePos>, beats: bool)
    requires IsBoard(b)
  {
    forall m :: m in moves ==> if beats then CaptureOn(b, m) else StepOn(b, m)
  }
}
