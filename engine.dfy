/** The engine object of Game/Logic.h: the member fields the move generator
    and the search write (turns, have_beats, next_move, next_best_state)
    and the methods that write them, each proved against the functions of
    MoveGen, Scoring and Search. */
module Engine {
  import opened Moves
  import opened Boards
  import opened MoveGen
  import opened MoveGenFacts
  import opened Scoring
  import opened Search

  // ---------------------------------------------------------------------
  // The scanning loops of find_turns(x, y, mtx)
  // ---------------------------------------------------------------------

  /** Concatenation regrouped, as the scans need it when a finished inner
      loop's moves join the outer loop's. */
  lemma AppendAssoc(a: seq<MovePos>, b: seq<MovePos>, c: seq<MovePos>)
    ensures (a + b) + c == a + (b + c)
  {
  }

  lemma AppendEmpty(a: seq<MovePos>)
    ensures a + [] == a && [] + a == a
  {
  }

  /** A prefix of a prefix survives an update past its end. */
  lemma PrefixStep<T>(o: seq<T>, a: seq<T>, b: seq<T>, k: int, v: T)
    requires o <= a && a <= b && |o| <= k < |b|
    ensures o <= b && o <= b[k := v]
  {
  }

  /** The man captures the loop over landing columns has found in row i
      before column j. */
  function ManColsBefore(b: Board, x: int, y: int, i: int, j: int): seq<MovePos>
    requires IsBoard(b) && InBounds(x, y)
  {
    if j == y - 2 then [] else if j == y + 2 then ManJump(b, x, y, i, y - 2) else ManJumpRow(b, x, y, i)
  }

  /** The man captures the loop over landing rows has found before row i. */
  function ManRowsBefore(b: Board, x: int, y: int, i: int): seq<MovePos>
    requires IsBoard(b) && InBounds(x, y)
  {
    if i == x - 2 then [] else if i == x + 2 then ManJumpRow(b, x, y, x - 2) else ManCaptures(b, x, y)
  }

  /** Column j of row i joins what was found before it; j' is the next
      column. */
  lemma ManColStep(b: Board, x: int, y: int, i: int, j: int, j': int,
                   rowStart: seq<MovePos>, before: seq<MovePos>, found: seq<MovePos>)
    requires IsBoard(b) && InBounds(x, y) && (j == y - 2 || j == y + 2) && j' == j + 4
    requires before == rowStart + ManColsBefore(b, x, y, i, j)
    requires found == before + ManJump(b, x, y, i, j)
    ensures found == rowStart + ManColsBefore(b, x, y, i, j')
  {
    AppendEmpty(rowStart);
    AppendAssoc(rowStart, ManJump(b, x, y, i, y - 2), ManJump(b, x, y, i, y + 2));
  }

  /** Row i joins what was found before it; i' is the next row. */
  lemma ManRowStep(b: Board, x: int, y: int, i: int, i': int, found: seq<MovePos>)
    requires IsBoard(b) && InBounds(x, y) && (i == x - 2 || i == x + 2) && i' == i + 4
    requires found == ManRowsBefore(b, x, y, i) + ManColsBefore(b, x, y, i, y + 6)
    ensures found == ManRowsBefore(b, x, y, i')
  {
    AppendEmpty(ManJumpRow(b, x, y, i));
  }

  /** The man-capture loops: landing rows x - 2 then x + 2, landing
      columns y - 2 then y + 2. */
  method ScanManCaptures(mtx: Board, x: int, y: int) returns (found: seq<MovePos>)
    requires IsBoard(mtx) && InBounds(x, y)
    ensures found == ManCaptures(mtx, x, y)
  {
    found := [];
    var i := x - 2;
    while i <= x + 2
      invariant i == x - 2 || i == x + 2 || i == x + 6
      invariant found == ManRowsBefore(mtx, x, y, i)
    {
      ghost var rowStart := found;
      var j := y - 2;
      AppendEmpty(rowStart);
      while j <= y + 2
        invariant j == y - 2 || j == y + 2 || j == y + 6
        invariant found == rowStart + ManColsBefore(mtx, x, y, i, j)
      {
        ghost var before, jump, j0 := found, ManJump(mtx, x, y, i, j), j;
        if !(i < 0 || i > 7 || j < 0 || j > 7) {
          var xb, yb := (x + i) / 2, (y + j) / 2;
          if !(mtx[i][j] != 0 || mtx[xb][yb] == 0 || mtx[xb][yb] % 2 == mtx[x][y] % 2) {
            found := found + [MovePos(x, y, i, j, xb, yb)];
          }
        }
        AppendEmpty(before);
        assert found == before + jump;
        j := j + 4;
        ManColStep(mtx, x, y, i, j0, j, rowStart, before, found);
      }
      ghost var i0 := i;
      i := i + 4;
      ManRowStep(mtx, x, y, i0, i, found);
    }
  }

  /** One diagonal of the king's capture scan: walk outwards until the
      board edge, an own piece, or a second piece; after the first piece of
      the other side every empty cell is a landing square. */
  method ScanKingCaptureRay(mtx: Board, x: int, y: int, di: int, dj: int) returns (found: seq<MovePos>)
    requires IsBoard(mtx) && InBounds(x, y) && IsDir(di) && IsDir(dj)
    ensures found == KingJumps(mtx, x, y, di, dj, 1, -1)
  {
    found := [];
    var xb, yb := -1, -1;
    var i2, j2 := x + di, y + dj;
    ghost var k, p := 1, -1;
    while i2 != 8 && j2 != 8 && i2 != -1 && j2 != -1
      invariant ScanAt(x, y, di, dj, k, p, i2, j2, xb, yb)
      invariant JumpsSoFar(mtx, x, y, di, dj, k, p, found)
      decreases 8 - k
    {
      ghost var k0, p0, i20, j20, xb0, yb0, before := k, p, i2, j2, xb, yb, found;
      if mtx[i2][j2] != 0 {
        if mtx[i2][j2] % 2 == mtx[x][y] % 2 || (mtx[i2][j2] % 2 != mtx[x][y] % 2 && xb != -1) {
          JumpStop(mtx, x, y, di, dj, k, p, i2, j2, xb, yb, found);
          break;
        }
        xb, yb := i2, j2;
        p := k;
      }
      if xb != -1 && xb != i2 {
        found := found + [MovePos(x, y, i2, j2, xb, yb)];
      }
      i2, j2 := i2 + di, j2 + dj;
      k := k + 1;
      JumpAdvance(mtx, x, y, di, dj, k0, p0, i20, j20, xb0, yb0, before, k, p, i2, j2, xb, yb, found);
    }
    if !InBounds(i2, j2) {
      JumpStop(mtx, x, y, di, dj, k, p, i2, j2, xb, yb, found);
    }
  }

  /** The king's capture loops: row direction -1 then 1, column direction
      -1 then 1. */
  method ScanKingCaptures(mtx: Board, x: int, y: int) returns (found: seq<MovePos>)
    requires IsBoard(mtx) && InBounds(x, y)
    ensures found == KingCaptures(mtx, x, y)
  {
    found := [];
    var i := -1;
    while i <= 1
      invariant i == -1 || i == 1 || i == 3
      invariant found == if i == -1 then [] else if i == 1 then KingJumpDir(mtx, x, y, -1) else KingCaptures(mtx, x, y)
    {
      ghost var dirStart := found;
      var j := -1;
      while j <= 1
        invariant j == -1 || j == 1 || j == 3
        invariant found == dirStart + if j == -1 then [] else if j == 1 then KingJumps(mtx, x, y, i, -1, 1, -1)
                                      else KingJumpDir(mtx, x, y, i)
      {
        var ray := ScanKingCaptureRay(mtx, x, y, i, j);
        found := found + ray;
        AppendEmpty(dirStart);
        AppendAssoc(dirStart, KingJumps(mtx, x, y, i, -1, 1, -1), KingJumps(mtx, x, y, i, 1, 1, -1));
        j := j + 2;
      }
      AppendEmpty(KingJumpDir(mtx, x, y, i));
      i := i + 2;
    }
  }

  /** The man's quiet-move loop: one row forward, columns y - 1 then
      y + 1. */
  method ScanManSteps(mtx: Board, x: int, y: int) returns (found: seq<MovePos>)
    requires IsBoard(mtx) && InBounds(x, y)
    ensures found == ManSteps(mtx, x, y)
  {
    found := [];
    var i := if mtx[x][y] % 2 == 1 then x - 1 else x + 1;
    var j := y - 1;
    while j <= y + 1
      invariant j == y - 1 || j == y + 1 || j == y + 3
      invariant found == if j == y - 1 then [] else if j == y + 1 then ManStep(mtx, x, y, i, y - 1) else ManSteps(mtx, x, y)
    {
      if !(i < 0 || i > 7 || j < 0 || j > 7 || mtx[i][j] != 0) {
        found := found + [Quiet(x, y, i, j)];
      }
      j := j + 2;
    }
  }

  /** One diagonal of the king's quiet moves: every cell up to the first
      occupied one or the edge. */
  method ScanKingSlideRay(mtx: Board, x: int, y: int, di: int, dj: int) returns (found: seq<MovePos>)
    requires IsBoard(mtx) && InBounds(x, y) && IsDir(di) && IsDir(dj)
    ensures found == KingSlides(mtx, x, y, di, dj, 1)
  {
    found := [];
    var i2, j2 := x + di, y + dj;
    ghost var k := 1;
    while i2 != 8 && j2 != 8 && i2 != -1 && j2 != -1
      invariant 1 <= k <= 8
      invariant i2 == Ray(x, di, k) && j2 == Ray(y, dj, k)
      invariant -1 <= i2 <= 8 && -1 <= j2 <= 8
      invariant found + KingSlides(mtx, x, y, di, dj, k) == KingSlides(mtx, x, y, di, dj, 1)
      decreases 8 - k
    {
      ghost var before, k0 := found, k;
      assert InBounds(Ray(x, di, k), Ray(y, dj, k)) && mtx[i2][j2] == mtx[Ray(x, di, k)][Ray(y, dj, k)];
      if mtx[i2][j2] != 0 {
        SlideStop(mtx, x, y, di, dj, k, found);
        break;
      }
      found := found + [Quiet(x, y, i2, j2)];
      i2, j2 := i2 + di, j2 + dj;
      k := k + 1;
      SlideAdvance(mtx, x, y, di, dj, k0, k, before, found);
    }
    if !InBounds(i2, j2) {
      SlideStop(mtx, x, y, di, dj, k, found);
    }
  }

  method ScanKingSlides(mtx: Board, x: int, y: int) returns (found: seq<MovePos>)
    requires IsBoard(mtx) && InBounds(x, y)
    ensures found == KingQuiet(mtx, x, y)
  {
    found := [];
    var i := -1;
    while i <= 1
      invariant i == -1 || i == 1 || i == 3
      invariant found == if i == -1 then [] else if i == 1 then KingSlideDir(mtx, x, y, -1) else KingQuiet(mtx, x, y)
    {
      ghost var dirStart := found;
      var j := -1;
      while j <= 1
        invariant j == -1 || j == 1 || j == 3
        invariant found == dirStart + if j == -1 then [] else if j == 1 then KingSlides(mtx, x, y, i, -1, 1)
                                      else KingSlideDir(mtx, x, y, i)
      {
        var ray := ScanKingSlideRay(mtx, x, y, i, j);
        found := found + ray;
        AppendEmpty(dirStart);
        AppendAssoc(dirStart, KingSlides(mtx, x, y, i, -1, 1), KingSlides(mtx, x, y, i, 1, 1));
        j := j + 2;
      }
      AppendEmpty(KingSlideDir(mtx, x, y, i));
      i := i + 2;
    }
  }

  // ---------------------------------------------------------------------
  // Loop steps of the ray scans
  // ---------------------------------------------------------------------

  /** One cell of the side scan: a piece of the side to move adds its
      moves to the accumulator, any other cell leaves it as it is. */
  lemma SideScanStep(b: Board, color: bool, i: int, j: int, j': int, acc: Gen, acc': Gen)
    requires IsBoard(b) && InBounds(i, j) && j' == j + 1
    requires acc' == if b[i][j] != 0 && b[i][j] % 2 != Bit(color) then Collect(acc, PieceMoves(b, i, j)) else acc
    ensures SideScan(b, color, i, j, acc) == SideScan(b, color, i, j', acc')
  {
  }

  /** The end of row i is the start of row i'. */
  lemma SideScanRow(b: Board, color: bool, i: int, i': int, acc: Gen)
    requires IsBoard(b) && 0 <= i < 8 && i' == i + 1
    ensures SideScan(b, color, i, 8, acc) == SideScan(b, color, i', 0, acc)
  {
  }

  /** The slide scan ends past the board edge or at an occupied cell. */
  lemma SlideStop(b: Board, x: int, y: int, di: int, dj: int, k: int, found: seq<MovePos>)
    requires IsBoard(b) && InBounds(x, y) && IsDir(di) && IsDir(dj) && 1 <= k
    requires found + KingSlides(b, x, y, di, dj, k) == KingSlides(b, x, y, di, dj, 1)
    requires !InBounds(Ray(x, di, k), Ray(y, dj, k)) || b[Ray(x, di, k)][Ray(y, dj, k)] != 0
    ensures found == KingSlides(b, x, y, di, dj, 1)
  {
    AppendEmpty(found);
  }

  /** An empty on-board cell k is emitted and the scan goes on at k'. */
  lemma SlideAdvance(b: Board, x: int, y: int, di: int, dj: int, k: int, k': int,
                     found: seq<MovePos>, found': seq<MovePos>)
    requires IsBoard(b) && InBounds(x, y) && IsDir(di) && IsDir(dj) && 1 <= k && k' == k + 1
    requires found + KingSlides(b, x, y, di, dj, k) == KingSlides(b, x, y, di, dj, 1)
    requires InBounds(Ray(x, di, k), Ray(y, dj, k)) && b[Ray(x, di, k)][Ray(y, dj, k)] == 0
    requires found' == found + [Quiet(x, y, Ray(x, di, k), Ray(y, dj, k))]
    ensures found' + KingSlides(b, x, y, di, dj, k') == KingSlides(b, x, y, di, dj, 1)
  {
    var q := [Quiet(x, y, Ray(x, di, k), Ray(y, dj, k))];
    assert KingSlides(b, x, y, di, dj, k) == q + KingSlides(b, x, y, di, dj, k');
    AppendAssoc(found, q, KingSlides(b, x, y, di, dj, k'));
  }

  /** The moves emitted before cell k, followed by the rest of the scan
      from cell k with captured piece p, make up the whole scan. */
  predicate JumpsSoFar(b: Board, x: int, y: int, di: int, dj: int, k: int, p: int, found: seq<MovePos>)
    requires IsBoard(b) && InBounds(x, y) && IsDir(di) && IsDir(dj) && 1 <= k && (p == -1 || 1 <= p < k)
  {
    found + KingJumps(b, x, y, di, dj, k, p) == KingJumps(b, x, y, di, dj, 1, -1)
  }

  /** The scalar state of the capture scan at cell k: the cursor (i2, j2)
      is cell k of the ray, and (xb, yb) is cell p, the captured piece, or
      (-1, -1) while p is -1. */
  predicate ScanAt(x: int, y: int, di: int, dj: int, k: int, p: int, i2: int, j2: int, xb: int, yb: int) {
    1 <= k <= 8 && (p == -1 || 1 <= p < k) &&
    i2 == Ray(x, di, k) && j2 == Ray(y, dj, k) && -1 <= i2 <= 8 && -1 <= j2 <= 8 &&
    (p != -1 ==> InBounds(Ray(x, di, p), Ray(y, dj, p))) &&
    xb == (if p == -1 then -1 else Ray(x, di, p)) && yb == (if p == -1 then -1 else Ray(y, dj, p))
  }

  /** The capture scan ends where the source's loop ends: past the board
      edge, at an own piece, or at a second piece of the other side. */
  lemma JumpStop(b: Board, x: int, y: int, di: int, dj: int, k: int, p: int, i2: int, j2: int, xb: int, yb: int,
                 found: seq<MovePos>)
    requires IsBoard(b) && InBounds(x, y) && IsDir(di) && IsDir(dj)
    requires ScanAt(x, y, di, dj, k, p, i2, j2, xb, yb) && JumpsSoFar(b, x, y, di, dj, k, p, found)
    requires InBounds(i2, j2) ==>
      b[i2][j2] != 0 && (b[i2][j2] % 2 == b[x][y] % 2 || (b[i2][j2] % 2 != b[x][y] % 2 && xb != -1))
    ensures found == KingJumps(b, x, y, di, dj, 1, -1)
  {
    AppendEmpty(found);
  }

  /** One cell of the capture scan that does not stop it: a piece of the
      other side becomes the captured piece, and the cell's move (if any)
      is emitted. */
  lemma JumpAdvance(b: Board, x: int, y: int, di: int, dj: int,
                    k: int, p: int, i2: int, j2: int, xb: int, yb: int, found: seq<MovePos>,
                    k': int, p': int, i2': int, j2': int, xb': int, yb': int, found': seq<MovePos>)
    requires IsBoard(b) && InBounds(x, y) && IsDir(di) && IsDir(dj)
    requires ScanAt(x, y, di, dj, k, p, i2, j2, xb, yb) && JumpsSoFar(b, x, y, di, dj, k, p, found)
    requires InBounds(i2, j2)
    requires !(b[i2][j2] != 0 && (b[i2][j2] % 2 == b[x][y] % 2 || (b[i2][j2] % 2 != b[x][y] % 2 && xb != -1)))
    requires if b[i2][j2] != 0 then p' == k && xb' == i2 && yb' == j2 else p' == p && xb' == xb && yb' == yb
    requires found' == found + if xb' != -1 && xb' != i2 then [MovePos(x, y, i2, j2, xb', yb')] else []
    requires k' == k + 1 && i2' == i2 + di && j2' == j2 + dj
    ensures ScanAt(x, y, di, dj, k', p', i2', j2', xb', yb') && JumpsSoFar(b, x, y, di, dj, k', p', found')
  {
    ScanAtStep(x, y, di, dj, k, p, i2, j2, xb, yb, k', p', i2', j2', xb', yb');
    JumpsStep(b, x, y, di, dj, k, k', p, p', found, found');
  }

  /** The cursor and the captured piece's coordinates follow k and p. */
  lemma ScanAtStep(x: int, y: int, di: int, dj: int,
                   k: int, p: int, i2: int, j2: int, xb: int, yb: int,
                   k': int, p': int, i2': int, j2': int, xb': int, yb': int)
    requires InBounds(x, y) && IsDir(di) && IsDir(dj)
    requires ScanAt(x, y, di, dj, k, p, i2, j2, xb, yb) && InBounds(i2, j2)
    requires (p' == k && xb' == i2 && yb' == j2) || (p' == p && xb' == xb && yb' == yb)
    requires k' == k + 1 && i2' == i2 + di && j2' == j2 + dj
    ensures ScanAt(x, y, di, dj, k', p', i2', j2', xb', yb')
    ensures xb' != -1 && xb' != i2 <==> p' != -1 && p' != k
    ensures p' != -1 ==> xb' == Ray(x, di, p') && yb' == Ray(y, dj, p')
  {
  }

  /** The scan's decomposition at cell k, stated on ray positions. */
  lemma JumpsStep(b: Board, x: int, y: int, di: int, dj: int, k: int, k': int, p: int, p': int,
                  found: seq<MovePos>, found': seq<MovePos>)
    requires IsBoard(b) && InBounds(x, y) && IsDir(di) && IsDir(dj) && 1 <= k && k' == k + 1 && (p == -1 || 1 <= p < k)
    requires JumpsSoFar(b, x, y, di, dj, k, p, found)
    requires InBounds(Ray(x, di, k), Ray(y, dj, k))
    requires var c := b[Ray(x, di, k)][Ray(y, dj, k)];
      !(c != 0 && (c % 2 == b[x][y] % 2 || (c % 2 != b[x][y] % 2 && p != -1))) &&
      p' == if c != 0 then k else p
    requires found' == found + if p' != -1 && p' != k then [MovePos(x, y, Ray(x, di, k), Ray(y, dj, k), Ray(x, di, p'), Ray(y, dj, p'))] else []
    ensures JumpsSoFar(b, x, y, di, dj, k', p', found')
  {
    var emit := if p' != -1 && p' != k then [MovePos(x, y, Ray(x, di, k), Ray(y, dj, k), Ray(x, di, p'), Ray(y, dj, p'))] else [];
    assert KingJumps(b, x, y, di, dj, k, p) == emit + KingJumps(b, x, y, di, dj, k', p');
    AppendAssoc(found, emit, KingJumps(b, x, y, di, dj, k', p'));
  }

  /** One iteration of find_best_turns_rec's loop: the fold from move i
      either stops at the cut-off or goes on from i' = i + 1 with the
      updated window and extremes. */
  lemma RecFoldStep(cfg: Settings, b: Board, color: bool, depth: nat, x: int, moves: seq<MovePos>, beats: bool,
                    i: nat, i': nat, alpha: real, beta: real, minScore: real, maxScore: real, s: real)
    requires IsBoard(b) && depth < cfg.maxDepth && i < |moves| && i' == i + 1
    requires MovesOn(b, moves, beats) && (x != -1 ==> beats)
    requires s == RecChild(cfg, b, color, depth, x, moves, beats, i, alpha, beta)
    ensures var minScore', maxScore' := Min(minScore, s), Max(maxScore, s);
      var alpha' := if Maximising(depth) then Max(alpha, maxScore') else alpha;
      var beta' := if Maximising(depth) then beta else Min(beta, minScore');
      RecFold(cfg, b, color, depth, x, moves, beats, i, alpha, beta, minScore, maxScore) ==
        if Prunes(cfg) && alpha' >= beta' then (if Maximising(depth) then maxScore' + 1.0 else minScore' - 1.0)
        else RecFold(cfg, b, color, depth, x, moves, beats, i', alpha', beta', minScore', maxScore')
  {
  }

  /** One iteration of find_first_best_turn's loop: the choice the whole
      fold makes, resumed with the move chosen so far, is unchanged by
      searching move i and keeping it exactly when it beats the best. */
  lemma ChainFoldStep(cfg: Settings, b: Board, color: bool, moves: seq<MovePos>, beats: bool,
                      i: nat, i': nat, best: real, best': real, score: real, chosen: int, chosen': int)
    requires IsBoard(b) && i < |moves| && i' == i + 1 && MovesOn(b, moves, beats)
    requires score == ChainChild(cfg, b, color, moves, beats, i, best)
    requires best' == (if score > best then score else best) && chosen' == (if score > best then i else chosen)
    ensures Resume(ChainFold(cfg, b, color, moves, beats, i, best), chosen) ==
            Resume(ChainFold(cfg, b, color, moves, beats, i', best'), chosen')
  {
  }

  // ---------------------------------------------------------------------
  // The search tables
  // ---------------------------------------------------------------------

  /** The entry at state k links to a later entry, if at all, and then it
      records a capture, and the linked entry, if it holds a move, is a
      capture that starts where this one ends. */
  predicate Link(nextMove: seq<MovePos>, nextBestState: seq<int>, k: int)
    requires 0 <= k < |nextMove| == |nextBestState|
  {
    nextBestState[k] == -1 ||
    (k < nextBestState[k] < |nextBestState| && IsCaptureMove(nextMove[k]) &&
     (nextMove[nextBestState[k]].x != -1 ==> Continues(nextMove[k], nextMove[nextBestState[k]])))
  }

  /** Move b continues a capture series ended by move a. */
  predicate Continues(a: MovePos, b: MovePos) {
    IsCaptureMove(a) && IsCaptureMove(b) && b.x == a.x2 && b.y == a.y2
  }

  predicate LinkedFrom(nextMove: seq<MovePos>, nextBestState: seq<int>, lo: int)
    requires |nextMove| == |nextBestState|
  {
    forall k :: 0 <= lo <= k < |nextMove| ==> Link(nextMove, nextBestState, k)
  }

  /** A move sequence the bot plays in one turn: a single move, or a series
      of captures each starting where the previous one ended. */
  predicate IsSeries(s: seq<MovePos>) {
    forall j :: 0 < j < |s| ==> ContinuesAt(s, j)
  }

  /** Move j of s continues the capture ended by move j - 1. */
  predicate ContinuesAt(s: seq<MovePos>, j: int)
    requires 0 < j < |s|
  {
    Continues(s[j - 1], s[j])
  }

  /** A series extended by a move that continues its last capture is a
      series. */
  lemma SeriesAppend(s: seq<MovePos>, m: MovePos)
    requires IsSeries(s) && (s != [] ==> Continues(s[|s| - 1], m))
    ensures IsSeries(s + [m])
  {
    forall j | 0 < j < |s + [m]|
      ensures ContinuesAt(s + [m], j)
    {
      if j < |s| {
        assert ContinuesAt(s, j);
      }
    }
  }

  /** The entry a capture-series node records: nothing, or a capture of
      the piece on (x, y). */
  predicate SeriesFrom(m: MovePos, x: int, y: int) {
    m.x == -1 || (m.x == x && m.y == y && IsCaptureMove(m))
  }

  /** Appending a well-linked tail keeps the table well linked. */
  lemma LinkedAppend(nm: seq<MovePos>, nbs: seq<int>, nm': seq<MovePos>, nbs': seq<int>, lo: int)
    requires |nm| == |nbs| && |nm'| == |nbs'| && |nm| <= |nm'| && 0 <= lo <= |nm|
    requires nm <= nm' && nbs <= nbs'
    requires LinkedFrom(nm, nbs, lo) && LinkedFrom(nm', nbs', |nm|)
    ensures LinkedFrom(nm', nbs', lo)
  {
    forall k | lo <= k < |nm'|
      ensures Link(nm', nbs', k)
    {
      if k < |nm| {
        assert Link(nm, nbs, k);
        assert nm'[k] == nm[k] && nbs'[k] == nbs[k];
        if nbs[k] != -1 {
          assert nm'[nbs[k]] == nm[nbs[k]];
        }
      }
    }
  }

  /** A fresh entry with no move and no link keeps the table linked. */
  lemma LinkedFresh(nm: seq<MovePos>, nbs: seq<int>)
    requires |nm| == |nbs|
    ensures LinkedFrom(nm + [NoMove], nbs + [-1], |nm|)
  {
    assert Link(nm + [NoMove], nbs + [-1], |nm|);
  }

  /** Overwriting entry `state` with a link that holds keeps the rest
      linked: no later entry links back to it. */
  lemma LinkedUpdate(nm: seq<MovePos>, nbs: seq<int>, state: int, nm': seq<MovePos>, nbs': seq<int>)
    requires |nm| == |nbs| && 0 <= state < |nm|
    requires |nm'| == |nm| && |nbs'| == |nbs|
    requires forall k :: 0 <= k < |nm| && k != state ==> nm'[k] == nm[k] && nbs'[k] == nbs[k]
    requires LinkedFrom(nm, nbs, state) && Link(nm', nbs', state)
    ensures LinkedFrom(nm', nbs', state)
  {
    forall k | state < k < |nm'|
      ensures Link(nm', nbs', k)
    {
      assert Link(nm, nbs, k);
    }
  }

  /** The value the fold reaches, given the fold from index i on and the
      move chosen before i. */
  function Resume(r: Choice, chosen: int): Choice {
    Choice(r.score, if r.pick == -1 then chosen else r.pick)
  }

  /** Turns that are a permutation of the side's moves lie on the board
      like them, and are empty exactly when the side has no move. */
  lemma MultisetMovesOn(b: Board, turns: seq<MovePos>, color: bool)
    requires IsBoard(b) && multiset(turns) == multiset(SideMoves(b, color).moves)
    ensures MovesOn(b, turns, SideMoves(b, color).beats)
    ensures turns == [] <==> SideMoves(b, color).moves == []
  {
    SideMovesExact(b, color);
    forall m | m in turns
      ensures m in SideMoves(b, color).moves
    {
      assert m in multiset(turns);
    }
    assert |turns| == |multiset(turns)|;
  }

  /** The choice find_first_best_turn makes at the root, over the turns
      find_turns(color) left in whatever order. */
  function RootChoice(cfg: Settings, b: Board, color: bool, turns: seq<MovePos>): (r: Choice)
    requires IsBoard(b) && multiset(turns) == multiset(SideMoves(b, color).moves)
    ensures r.pick == -1 || 0 <= r.pick < |turns|
  {
    MultisetMovesOn(b, turns, color);
    ChainFold(cfg, b, color, turns, SideMoves(b, color).beats, 0, -1.0)
  }

  /** At the root a move is picked exactly when the side has one, and the
      picked move lies on the board. */
  lemma RootPicks(cfg: Settings, b: Board, color: bool, turns: seq<MovePos>)
    requires IsBoard(b) && multiset(turns) == multiset(SideMoves(b, color).moves)
    ensures MovesOn(b, turns, SideMoves(b, color).beats)
    ensures var r := RootChoice(cfg, b, color, turns);
      (r.pick == -1 <==> turns == []) && (r.pick != -1 ==> MoveInBounds(turns[r.pick]))
  {
    MultisetMovesOn(b, turns, color);
    var r := RootChoice(cfg, b, color, turns);
    if turns != [] {
      ChainFoldPicksFirst(cfg, b, color, turns, SideMoves(b, color).beats, 0);
      MoveOnBoard(b, turns, SideMoves(b, color).beats, r.pick);
    }
  }

  /** At the root find_first_best_turn records the first move whose
      searched score is the highest. Without cut-offs each move's score
      does not depend on the best held, so it records the first move of
      the highest score, each searched from the starting best -1. */
  lemma RootBest(cfg: Settings, b: Board, color: bool, turns: seq<MovePos>)
    requires IsBoard(b) && multiset(turns) == multiset(SideMoves(b, color).moves)
    ensures MovesOn(b, turns, SideMoves(b, color).beats)
    ensures var r := RootChoice(cfg, b, color, turns);
      var s := Searched(cfg, b, color, turns, SideMoves(b, color).beats, -1.0);
      (forall k :: 0 <= k < |turns| ==> s[k] <= r.score) &&
      (r.pick != -1 ==> r.score == s[r.pick] && forall k :: 0 <= k < r.pick ==> s[k] < r.score)
    ensures !Prunes(cfg) ==>
      var r := RootChoice(cfg, b, color, turns);
      var beats := SideMoves(b, color).beats;
      (forall k :: 0 <= k < |turns| ==> ChainChild(cfg, b, color, turns, beats, k, -1.0) <= r.score) &&
      (r.pick != -1 ==>
         r.score == ChainChild(cfg, b, color, turns, beats, r.pick, -1.0) &&
         forall k :: 0 <= k < r.pick ==> ChainChild(cfg, b, color, turns, beats, k, -1.0) < r.score)
  {
    MultisetMovesOn(b, turns, color);
    ChainFoldSearchedMax(cfg, b, color, turns, SideMoves(b, color).beats, -1.0);
    if !Prunes(cfg) {
      ChainFoldFirstBest(cfg, b, color, turns, SideMoves(b, color).beats, -1.0);
    }
  }

  // ---------------------------------------------------------------------
  // class Logic
  // ---------------------------------------------------------------------

  class Logic {
    /** The moves the last find_turns call found. */
    var turns: seq<MovePos>
    /** Whether they are captures. */
    var haveBeats: bool
    /** The search depth. */
    var maxDepth: nat
    /** BotScoringType and Optimization from the configuration. */
    const scoringMode: string
    const optimization: string
    /** The search tables: the move recorded at each state, and the state
      that continues its capture series, or -1. */
    var nextMove: seq<MovePos>
    var nextBestState: seq<int>

    /** The settings the search functions are parameterised by. */
    function Cfg(): Settings
      reads this`maxDepth
    {
      Settings(scoringMode, optimization, maxDepth)
    }

    constructor(scoringMode: string, optimization: string, maxDepth: nat)
      ensures this.scoringMode == scoringMode && this.optimization == optimization && this.maxDepth == maxDepth
      ensures turns == [] && !haveBeats && nextMove == [] && nextBestState == []
    {
      this.scoringMode := scoringMode;
      this.optimization := optimization;
      this.maxDepth := maxDepth;
      turns := [];
      haveBeats := false;
      nextMove := [];
      nextBestState := [];
    }

    /** find_turns(x, y, mtx): the captures of the piece on (x, y), or its
        quiet moves when it has none. */
    method FindTurnsPiece(x: int, y: int, mtx: Board)
      requires IsBoard(mtx) && InBounds(x, y)
      modifies this`turns, this`haveBeats
      ensures turns == PieceMoves(mtx, x, y).moves && haveBeats == PieceMoves(mtx, x, y).beats
    {
      turns := [];
      haveBeats := false;
      var t := mtx[x][y];
      var found;
      if t == 1 || t == 2 {
        found := ScanManCaptures(mtx, x, y);
      } else {
        found := ScanKingCaptures(mtx, x, y);
      }
      turns := turns + found;
      if turns != [] {
        haveBeats := true;
        return;
      }
      if t == 1 || t == 2 {
        found := ScanManSteps(mtx, x, y);
      } else {
        found := ScanKingSlides(mtx, x, y);
      }
      turns := turns + found;
    }

    /** find_turns(color, mtx): every piece of the side in row-major order;
        the first capture found discards the quiet moves collected so far,
        and after it only captures are collected. */
    method FindTurnsSide(color: bool, mtx: Board)
      requires IsBoard(mtx)
      modifies this`turns, this`haveBeats
      ensures turns == SideMoves(mtx, color).moves && haveBeats == SideMoves(mtx, color).beats
    {
      var resTurns: seq<MovePos> := [];
      var haveBeatsBefore := false;
      var i := 0;
      while i < 8
        invariant 0 <= i <= 8
        invariant SideScan(mtx, color, i, 0, Gen(resTurns, haveBeatsBefore)) == SideMoves(mtx, color)
      {
        var j := 0;
        while j < 8
          invariant 0 <= j <= 8
          invariant SideScan(mtx, color, i, j, Gen(resTurns, haveBeatsBefore)) == SideMoves(mtx, color)
        {
          ghost var before, j0 := Gen(resTurns, haveBeatsBefore), j;
          if mtx[i][j] != 0 && mtx[i][j] % 2 != Bit(color) {
            FindTurnsPiece(i, j, mtx);
            if haveBeats && !haveBeatsBefore {
              haveBeatsBefore := true;
              resTurns := [];
            }
            if (haveBeatsBefore && haveBeats) || !haveBeatsBefore {
              resTurns := resTurns + turns;
            }
            assert Gen(resTurns, haveBeatsBefore) == Collect(before, PieceMoves(mtx, i, j));
          }
          j := j + 1;
          SideScanStep(mtx, color, i, j0, j, before, Gen(resTurns, haveBeatsBefore));
        }
        ghost var i0 := i;
        i := i + 1;
        SideScanRow(mtx, color, i0, i, Gen(resTurns, haveBeatsBefore));
      }
      turns := resTurns;
      haveBeats := haveBeatsBefore;
    }

    /** calc_score: the accumulators over all 64 cells, then the quotient
        with its two sentinels. */
    method CalcScore(mtx: Board, firstBotColor: bool) returns (r: real)
      requires IsBoard(mtx)
      ensures r == Score(mtx, firstBotColor, scoringMode)
    {
      var w, wq, b, bq := 0.0, 0.0, 0.0, 0.0;
      var i := 0;
      while i < 8
        invariant 0 <= i <= 8
        invariant Tally(w, wq, b, bq) == RowTally(mtx, scoringMode, i, 0)
      {
        var j := 0;
        while j < 8
          invariant 0 <= j <= 8
          invariant Tally(w, wq, b, bq) == RowTally(mtx, scoringMode, i, j)
        {
          ghost var before, j0 := Tally(w, wq, b, bq), j;
          ghost var cell := CellTally(mtx[i][j], i, scoringMode);
          w := w + Flag(mtx[i][j] == 1);
          wq := wq + Flag(mtx[i][j] == 3);
          b := b + Flag(mtx[i][j] == 2);
          bq := bq + Flag(mtx[i][j] == 4);
          if scoringMode == "NumberAndPotential" {
            w := w + 0.05 * Flag(mtx[i][j] == 1) * (7 - i) as real;
            b := b + 0.05 * Flag(mtx[i][j] == 2) * i as real;
          }
          assert Tally(w, wq, b, bq) == Add(before, cell);
          j := j + 1;
          RowTallyStep(mtx, scoringMode, i, j0, j);
        }
        ghost var i0 := i;
        i := i + 1;
        RowTallyNext(mtx, scoringMode, i0, i);
      }
      RowTallyUpTo(mtx, scoringMode, 7, 8, 64);
      ghost var t := Tally(w, wq, b, bq);
      assert t == TallyUpTo(mtx, scoringMode, 64);
      if !firstBotColor {
        b, w := w, b;
        bq, wq := wq, bq;
      }
      var qCoef := if scoringMode == "NumberAndPotential" then 5 else 4;
      ScoreFromAccumulators(mtx, firstBotColor, scoringMode, w, wq, b, bq, qCoef);
      if w + wq == 0.0 {
        return INF;
      }
      if b + bq == 0.0 {
        return 0.0;
      }
      r := (b + bq * qCoef as real) / (w + wq * qCoef as real);
    }

    /** find_best_turns_rec: the search below the first move, with the
        same branches, window updates and early returns as RecValue. */
    method FindBestTurnsRec(mtx: Board, color: bool, depth: nat, alpha: real, beta: real, x: int, y: int)
      returns (score: real)
      requires IsBoard(mtx) && depth <= maxDepth && (x != -1 ==> InBounds(x, y))
      modifies this`turns, this`haveBeats
      ensures score == RecValue(Cfg(), mtx, color, depth, alpha, beta, x, y)
      decreases maxDepth - depth, PieceCount(mtx), 1
    {
      if depth == maxDepth {
        score := CalcScore(mtx, (depth % 2 == 1) == color);
        return;
      }
      if x != -1 {
        FindTurnsPiece(x, y, mtx);
      } else {
        FindTurnsSide(color, mtx);
      }
      var currentTurns := turns;
      var currentHasBeats := haveBeats;
      ghost var g := NodeMoves(mtx, color, x, y);
      assert currentTurns == g.moves && currentHasBeats == g.beats;
      if !currentHasBeats && x != -1 {
        score := FindBestTurnsRec(mtx, !color, depth + 1, alpha, beta, -1, -1);
        return;
      }
      if turns == [] {
        score := if depth % 2 == 1 then 0.0 else INF;
        return;
      }
      var minScore, maxScore := INF + 1.0, -1.0;
      var a, bt := alpha, beta;
      var i := 0;
      while i < |currentTurns|
        invariant 0 <= i <= |currentTurns|
        invariant RecFold(Cfg(), mtx, color, depth, x, currentTurns, currentHasBeats, i, a, bt, minScore, maxScore)
                  == RecValue(Cfg(), mtx, color, depth, alpha, beta, x, y)
      {
        ghost var i0, a0, bt0, min0, max0 := i, a, bt, minScore, maxScore;
        var s := SearchChild(mtx, color, depth, x, currentTurns, currentHasBeats, i, a, bt);
        minScore := Min(minScore, s);
        maxScore := Max(maxScore, s);
        if depth % 2 == 1 {
          a := Max(a, maxScore);
        } else {
          bt := Min(bt, minScore);
        }
        if optimization != "O0" && a >= bt {
          RecFoldStep(Cfg(), mtx, color, depth, x, currentTurns, currentHasBeats, i0, i0 + 1, a0, bt0, min0, max0, s);
          score := if depth % 2 == 1 then maxScore + 1.0 else minScore - 1.0;
          return;
        }
        i := i + 1;
        RecFoldStep(Cfg(), mtx, color, depth, x, currentTurns, currentHasBeats, i0, i, a0, bt0, min0, max0, s);
      }
      score := if depth % 2 == 1 then maxScore else minScore;
    }

    /** The body of find_best_turns_rec's loop for the i-th move: a quiet
        move at the start of a turn is answered one level deeper by the
        other side; a capture goes on at the same depth from its landing
        square. */
    method SearchChild(mtx: Board, color: bool, depth: nat, x: int, moves: seq<MovePos>, beats: bool,
                       i: nat, alpha: real, beta: real) returns (s: real)
      requires IsBoard(mtx) && depth < maxDepth && i < |moves|
      requires MovesOn(mtx, moves, beats) && (x != -1 ==> beats)
      modifies this`turns, this`haveBeats
      ensures s == RecChild(Cfg(), mtx, color, depth, x, moves, beats, i, alpha, beta)
      decreases maxDepth - depth, PieceCount(mtx), 0
    {
      var turn := moves[i];
      MoveOnBoard(mtx, moves, beats, i);
      if !beats && x == -1 {
        s := FindBestTurnsRec(MakeTurn(mtx, turn), !color, depth + 1, alpha, beta, -1, -1);
      } else {
        CaptureRemovesOnePiece(mtx, turn);
        s := FindBestTurnsRec(MakeTurn(mtx, turn), color, depth, alpha, beta, turn.x2, turn.y2);
      }
    }

    /** find_first_best_turn: appends this state's entry to both tables,
        searches each move (a capture continues the series in a new state,
        a quiet move is answered by the opponent's search) and records the
        first move with the strictly best score. The root (state 0) uses
        the turns left by the caller's find_turns(color). */
    method FindFirstBestTurn(mtx: Board, color: bool, x: int, y: int, state: nat, alpha: real)
      returns (bestScore: real)
      requires IsBoard(mtx)
      requires state == |nextMove| == |nextBestState|
      requires state == 0 ==> MovesOn(mtx, turns, haveBeats)
      requires state != 0 ==> InBounds(x, y)
      modifies this`turns, this`haveBeats, this`nextMove, this`nextBestState
      ensures |nextMove| == |nextBestState| > state
      ensures old(nextMove) <= nextMove && old(nextBestState) <= nextBestState
      ensures LinkedFrom(nextMove, nextBestState, state)
      ensures state == 0 ==>
                var r := ChainFold(Cfg(), mtx, color, old(turns), old(haveBeats), 0, -1.0);
                bestScore == r.score && nextMove[0] == Picked(old(turns), r)
      ensures state == 0 && !Prunes(Cfg()) ==>
                var r := ChainFold(Cfg(), mtx, color, old(turns), old(haveBeats), 0, -1.0);
                (forall k :: 0 <= k < |old(turns)| ==>
                   ChainChild(Cfg(), mtx, color, old(turns), old(haveBeats), k, -1.0) <= bestScore) &&
                (r.pick != -1 ==>
                   bestScore == ChainChild(Cfg(), mtx, color, old(turns), old(haveBeats), r.pick, -1.0) &&
                   forall k :: 0 <= k < r.pick ==> ChainChild(Cfg(), mtx, color, old(turns), old(haveBeats), k, -1.0) < bestScore)
      ensures state != 0 ==>
                bestScore == ChainValue(Cfg(), mtx, color, x, y, alpha) && SeriesFrom(nextMove[state], x, y)
      ensures state != 0 ==>
                var g := NodeMoves(mtx, color, x, y);
                nextMove[state] == if g.beats then Picked(g.moves, ChainFold(Cfg(), mtx, color, g.moves, true, 0, -1.0)) else NoMove
      decreases PieceCount(mtx), 2
    {
      ghost var cfg, onm, onbs := Cfg(), nextMove, nextBestState;
      nextBestState := nextBestState + [-1];
      nextMove := nextMove + [NoMove];
      LinkedFresh(onm, onbs);
      assert LinkedFrom(nextMove, nextBestState, state);
      bestScore := -1.0;
      var isInitialState := state == 0;
      if !isInitialState {
        FindTurnsPiece(x, y, mtx);
        PieceMovesShape(mtx, x, y);
      }
      var currentTurns := turns;
      var currentHasBeats := haveBeats;
      if !currentHasBeats && !isInitialState {
        bestScore := FindBestTurnsRec(mtx, !color, 0, alpha, INF + 1.0, -1, -1);
        return;
      }
      bestScore := SearchTurns(mtx, color, currentTurns, currentHasBeats, state, onm, onbs);
      if isInitialState && !Prunes(cfg) {
        ChainFoldFirstBest(cfg, mtx, color, currentTurns, currentHasBeats, -1.0);
      }
    }

    /** The loop of find_first_best_turn over the moves of one state, which
        starts out with no move recorded: it ends with the fold's best
        score and with the fold's pick recorded at the state. */
    method SearchTurns(mtx: Board, color: bool, moves: seq<MovePos>, beats: bool, state: nat,
                       ghost onm: seq<MovePos>, ghost onbs: seq<int>) returns (bestScore: real)
      requires IsBoard(mtx) && MovesOn(mtx, moves, beats)
      requires |nextMove| == |nextBestState| > state == |onm| == |onbs|
      requires onm <= nextMove && onbs <= nextBestState && LinkedFrom(nextMove, nextBestState, state)
      requires nextMove[state] == NoMove
      modifies this`turns, this`haveBeats, this`nextMove, this`nextBestState
      ensures |nextMove| == |nextBestState| > state
      ensures onm <= nextMove && onbs <= nextBestState && LinkedFrom(nextMove, nextBestState, state)
      ensures var r := ChainFold(Cfg(), mtx, color, moves, beats, 0, -1.0);
              bestScore == r.score && nextMove[state] == Picked(moves, r)
      decreases PieceCount(mtx), 1
    {
      ghost var cfg := Cfg();
      bestScore := -1.0;
      ghost var chosen := -1;
      ghost var full := ChainFold(cfg, mtx, color, moves, beats, 0, -1.0);
      var i := 0;
      while i < |moves|
        invariant 0 <= i <= |moves|
        invariant |nextMove| == |nextBestState| > state
        invariant onm <= nextMove && onbs <= nextBestState
        invariant LinkedFrom(nextMove, nextBestState, state)
        invariant -1 <= chosen < i
        invariant nextMove[state] == if chosen == -1 then NoMove else moves[chosen]
        invariant full == Resume(ChainFold(cfg, mtx, color, moves, beats, i, bestScore), chosen)
        invariant cfg == Cfg()
      {
        ghost var i0, best0, chosen0 := i, bestScore, chosen;
        var score;
        score, bestScore := SearchTurn(mtx, color, moves, beats, i, state, bestScore, onm, onbs);
        if score > best0 {
          chosen := i;
        }
        i := i + 1;
        ChainFoldStep(cfg, mtx, color, moves, beats, i0, i, best0, bestScore, score, chosen0, chosen);
      }
    }

    /** The body of find_first_best_turn's loop for the i-th move: a
        capture continues the series in the state appended next to the
        tables, a quiet move is answered by the opponent's search from
        depth 0 with the best score so far as alpha; a strictly better
        score becomes the best and the move (with its link, for a capture)
        is recorded at this state. */
    method SearchTurn(mtx: Board, color: bool, moves: seq<MovePos>, beats: bool, i: nat, state: nat,
                      bestScore: real, ghost onm: seq<MovePos>, ghost onbs: seq<int>)
      returns (score: real, best: real)
      requires IsBoard(mtx) && i < |moves| && MovesOn(mtx, moves, beats)
      requires |nextMove| == |nextBestState| > state == |onm| == |onbs|
      requires onm <= nextMove && onbs <= nextBestState && LinkedFrom(nextMove, nextBestState, state)
      modifies this`turns, this`haveBeats, this`nextMove, this`nextBestState
      ensures score == ChainChild(Cfg(), mtx, color, moves, beats, i, bestScore)
      ensures best == if score > bestScore then score else bestScore
      ensures |nextMove| == |nextBestState| > state
      ensures onm <= nextMove && onbs <= nextBestState && LinkedFrom(nextMove, nextBestState, state)
      ensures nextMove[state] == if score > bestScore then moves[i] else old(nextMove)[state]
      decreases PieceCount(mtx), 0
    {
      var turn := moves[i];
      MoveOnBoard(mtx, moves, beats, i);
      var nextState := |nextMove|;
      ghost var nm, nbs := nextMove, nextBestState;
      if beats {
        CaptureRemovesOnePiece(mtx, turn);
        score := FindFirstBestTurn(MakeTurn(mtx, turn), color, turn.x2, turn.y2, nextState, bestScore);
        LinkedAppend(nm, nbs, nextMove, nextBestState, state);
      } else {
        score := FindBestTurnsRec(MakeTurn(mtx, turn), !color, 0, bestScore, INF + 1.0, -1, -1);
      }
      assert nextMove[state] == nm[state];
      PrefixStep(onm, nm, nextMove, state, turn);
      PrefixStep(onbs, nbs, nextBestState, state, if beats then nextState as int else -1);
      best := bestScore;
      if score > best {
        best := score;
        var link := if beats then nextState as int else -1;
        LinkedUpdate(nextMove, nextBestState, state, nextMove[state := turn], nextBestState[state := link]);
        nextBestState := nextBestState[state := link];
        nextMove := nextMove[state := turn];
      }
    }

    /** find_best_turns: clears the tables, searches from the root with the
        turns the caller's find_turns(color) left, then follows the links
        from state 0 while a move is recorded. */
    method FindBestTurns(mtx: Board, color: bool) returns (bestSequence: seq<MovePos>)
      requires IsBoard(mtx)
      requires multiset(turns) == multiset(SideMoves(mtx, color).moves) && haveBeats == SideMoves(mtx, color).beats
      modifies this`turns, this`haveBeats, this`nextMove, this`nextBestState
      ensures IsSeries(bestSequence)
      ensures old(turns) == [] ==> bestSequence == []
      ensures old(turns) != [] ==>
                var r := RootChoice(Cfg(), mtx, color, old(turns));
                bestSequence != [] && r.pick != -1 && bestSequence[0] == old(turns)[r.pick]
    {
      ghost var t0, root := turns, RootChoice(Cfg(), mtx, color, turns);
      RootPicks(Cfg(), mtx, color, turns);
      nextBestState := [];
      nextMove := [];
      var _ := FindFirstBestTurn(mtx, color, -1, -1, 0, -1.0);
      assert nextMove[0] == Picked(t0, root);
      bestSequence := FollowLinks();
    }

    /** The loop of find_best_turns: the moves recorded along the links
        from state 0, up to a state with no move or no link. */
    method FollowLinks() returns (bestSequence: seq<MovePos>)
      requires |nextMove| == |nextBestState| > 0 && LinkedFrom(nextMove, nextBestState, 0)
      ensures IsSeries(bestSequence)
      ensures bestSequence == [] <==> nextMove[0].x == -1
      ensures bestSequence != [] ==> bestSequence[0] == nextMove[0]
      ensures forall m :: m in bestSequence ==> m in nextMove
    {
      bestSequence := [];
      var currentState := 0;
      while currentState != -1 && nextMove[currentState].x != -1
        invariant currentState == -1 || 0 <= currentState < |nextMove|
        invariant IsSeries(bestSequence)
        invariant bestSequence == [] ==> currentState == 0
        invariant bestSequence != [] ==> bestSequence[0] == nextMove[0] && nextMove[0].x != -1
        invariant bestSequence != [] && currentState != -1 && nextMove[currentState].x != -1 ==>
                    Continues(bestSequence[|bestSequence| - 1], nextMove[currentState])
        invariant forall m :: m in bestSequence ==> m in nextMove
        decreases if currentState == -1 then 0 else |nextMove| + 1 - currentState
      {
        assert Link(nextMove, nextBestState, currentState);
        SeriesAppend(bestSequence, nextMove[currentState]);
        bestSequence := bestSequence + [nextMove[currentState]];
        currentState := nextBestState[currentState];
      }
    }
  }
}
