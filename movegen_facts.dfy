/** What the move generator produces, proved against the rules of
    checkers stated in MoveGen: each scan yields exactly the legal moves of
    its kind, a piece reports captures exactly when it has one, and a side
    keeps only captures when any of its pieces can capture. */
module MoveGenFacts {
  import opened Moves
  import opened Boards
  import opened MoveGen

  // ---------------------------------------------------------------------
  // King scans, one direction at a time
  // ---------------------------------------------------------------------

  /** What the capture scan along (di, dj) has seen before step k: only
      empty cells if p == -1; otherwise empty cells, one piece of the other
      parity at step p, then empty cells. */
  predicate ScanSeen(b: Board, x: int, y: int, di: int, dj: int, k: int, p: int)
    requires IsBoard(b) && InBounds(x, y)
  {
    1 <= k && (p == -1 || 1 <= p < k) &&
    (p == -1 ==> PathEmpty(b, x, y, di, dj, 1, k - 1)) &&
    (p != -1 ==>
      PathEmpty(b, x, y, di, dj, 1, p - 1) &&
      InBounds(Ray(x, di, p), Ray(y, dj, p)) &&
      b[Ray(x, di, p)][Ray(y, dj, p)] != 0 &&
      b[Ray(x, di, p)][Ray(y, dj, p)] % 2 != b[x][y] % 2 &&
      PathEmpty(b, x, y, di, dj, p + 1, k - 1))
  }

  /** One step of an empty path. */
  lemma PathEmptyAt(b: Board, x: int, y: int, di: int, dj: int, lo: int, hi: int, l: int)
    requires IsBoard(b) && PathEmpty(b, x, y, di, dj, lo, hi) && lo <= l <= hi
    ensures InBounds(Ray(x, di, l), Ray(y, dj, l)) && b[Ray(x, di, l)][Ray(y, dj, l)] == 0
  {
  }

  /** One more empty cell extends an empty stretch of a diagonal. */
  lemma PathEmptyExtend(b: Board, x: int, y: int, di: int, dj: int, lo: int, hi: int)
    requires IsBoard(b) && PathEmpty(b, x, y, di, dj, lo, hi - 1)
    requires InBounds(Ray(x, di, hi), Ray(y, dj, hi)) && b[Ray(x, di, hi)][Ray(y, dj, hi)] == 0
    ensures PathEmpty(b, x, y, di, dj, lo, hi)
  {
  }

  /** Walking k >= 1 steps along a direction moves exactly k away in that
      direction. */
  lemma RayDist(c: int, d: int, k: int)
    requires IsDir(d) && 1 <= k
    ensures Sign(Ray(c, d, k) - c) == d && Dist(c, Ray(c, d, k)) == k
  {
  }

  /** The move the capture scan emits at step k, after the captured piece at
      step p, is a legal king capture. */
  lemma KingJumpHere(b: Board, x: int, y: int, di: int, dj: int, k: int, p: int)
    requires IsBoard(b) && InBounds(x, y) && IsDir(di) && IsDir(dj)
    requires ScanSeen(b, x, y, di, dj, k, p) && p != -1
    requires InBounds(Ray(x, di, k), Ray(y, dj, k)) && b[Ray(x, di, k)][Ray(y, dj, k)] == 0
    ensures var m := MovePos(x, y, Ray(x, di, k), Ray(y, dj, k), Ray(x, di, p), Ray(y, dj, p));
      IsKingJump(b, x, y, m) && Sign(m.x2 - x) == di && Sign(m.y2 - y) == dj
  {
    var m := MovePos(x, y, Ray(x, di, k), Ray(y, dj, k), Ray(x, di, p), Ray(y, dj, p));
    RayDist(x, di, k);
    RayDist(y, dj, k);
    RayDist(x, di, p);
    PathEmptyExtend(b, x, y, di, dj, p + 1, k);
    assert OnDiagonal(x, y, m.x2, m.y2);
  }

  /** One step of the capture scan: the cell at step k is on the board, the
      scan goes on from k + 1 with what it has now seen, and emits a move at
      step k only after a captured piece and onto an empty cell. */
  lemma KingJumpsStep(b: Board, x: int, y: int, di: int, dj: int, k: int, p: int)
    requires IsBoard(b) && InBounds(x, y) && IsDir(di) && IsDir(dj)
    requires ScanSeen(b, x, y, di, dj, k, p) && KingJumps(b, x, y, di, dj, k, p) != []
    ensures InBounds(Ray(x, di, k), Ray(y, dj, k))
    ensures var p' := if b[Ray(x, di, k)][Ray(y, dj, k)] != 0 then k else p;
      ScanSeen(b, x, y, di, dj, k + 1, p') &&
      (p' != -1 && p' != k ==> p' == p && b[Ray(x, di, k)][Ray(y, dj, k)] == 0) &&
      KingJumps(b, x, y, di, dj, k, p) ==
        (if p' != -1 && p' != k then [MovePos(x, y, Ray(x, di, k), Ray(y, dj, k), Ray(x, di, p), Ray(y, dj, p))] else [])
        + KingJumps(b, x, y, di, dj, k + 1, p')
  {
    var c := b[Ray(x, di, k)][Ray(y, dj, k)];
    if c == 0 {
      if p == -1 {
        PathEmptyExtend(b, x, y, di, dj, 1, k);
      } else {
        PathEmptyExtend(b, x, y, di, dj, p + 1, k);
      }
    }
  }

  lemma {:induction false} KingJumpsSound(b: Board, x: int, y: int, di: int, dj: int, k: int, p: int, m: MovePos)
    requires IsBoard(b) && InBounds(x, y) && IsDir(di) && IsDir(dj)
    requires ScanSeen(b, x, y, di, dj, k, p)
    requires m in KingJumps(b, x, y, di, dj, k, p)
    ensures IsKingJump(b, x, y, m) && Sign(m.x2 - x) == di && Sign(m.y2 - y) == dj
    decreases 8 - k
  {
    KingJumpsStep(b, x, y, di, dj, k, p);
    var p' := if b[Ray(x, di, k)][Ray(y, dj, k)] != 0 then k else p;
    if p' != -1 && p' != k && m == MovePos(x, y, Ray(x, di, k), Ray(y, dj, k), Ray(x, di, p), Ray(y, dj, p)) {
      KingJumpHere(b, x, y, di, dj, k, p);
    } else {
      KingJumpsSound(b, x, y, di, dj, k + 1, p', m);
    }
  }

  /** Every legal king capture along (di, dj) is emitted by the scan. */
  lemma KingJumpsComplete(b: Board, x: int, y: int, di: int, dj: int, m: MovePos)
    requires IsBoard(b) && InBounds(x, y) && IsDir(di) && IsDir(dj)
    requires IsKingJump(b, x, y, m) && Sign(m.x2 - x) == di && Sign(m.y2 - y) == dj
    ensures m in KingJumps(b, x, y, di, dj, 1, -1)
  {
    var K, P := Dist(x, m.x2), Dist(x, m.xb);
    assert m == MovePos(x, y, Ray(x, di, K), Ray(y, dj, K), Ray(x, di, P), Ray(y, dj, P));
    KingJumpsReach(b, x, y, di, dj, 1, -1, K, P, m);
  }

  /** The capture landing at step K over the piece at step P is emitted by
      the scan from any step k up to K that has seen the path so far. */
  lemma {:induction false} KingJumpsReach(b: Board, x: int, y: int, di: int, dj: int, k: int, p: int,
                                          K: int, P: int, m: MovePos)
    requires IsBoard(b) && InBounds(x, y) && IsDir(di) && IsDir(dj) && 1 <= P < K
    requires m == MovePos(x, y, Ray(x, di, K), Ray(y, dj, K), Ray(x, di, P), Ray(y, dj, P))
    requires PathEmpty(b, x, y, di, dj, 1, P - 1) && PathEmpty(b, x, y, di, dj, P + 1, K)
    requires InBounds(Ray(x, di, P), Ray(y, dj, P))
    requires b[Ray(x, di, P)][Ray(y, dj, P)] != 0 && b[Ray(x, di, P)][Ray(y, dj, P)] % 2 != b[x][y] % 2
    requires 1 <= k <= K && ((p == -1 && k <= P) || (p == P && P < k))
    ensures m in KingJumps(b, x, y, di, dj, k, p)
    decreases 8 - k
  {
    var i2, j2 := Ray(x, di, k), Ray(y, dj, k);
    if k < P {
      PathEmptyAt(b, x, y, di, dj, 1, P - 1, k);
      assert KingJumps(b, x, y, di, dj, k, p) == KingJumps(b, x, y, di, dj, k + 1, -1);
      KingJumpsReach(b, x, y, di, dj, k + 1, -1, K, P, m);
    } else if k == P {
      assert KingJumps(b, x, y, di, dj, k, p) == KingJumps(b, x, y, di, dj, k + 1, k);
      KingJumpsReach(b, x, y, di, dj, k + 1, k, K, P, m);
    } else {
      PathEmptyAt(b, x, y, di, dj, P + 1, K, k);
      var here := [MovePos(x, y, i2, j2, Ray(x, di, P), Ray(y, dj, P))];
      assert KingJumps(b, x, y, di, dj, k, p) == here + KingJumps(b, x, y, di, dj, k + 1, P);
      if k < K {
        KingJumpsReach(b, x, y, di, dj, k + 1, P, K, P, m);
      } else {
        assert m == here[0];
      }
    }
  }

  lemma {:induction false} KingSlidesSound(b: Board, x: int, y: int, di: int, dj: int, k: int, m: MovePos)
    requires IsBoard(b) && InBounds(x, y) && IsDir(di) && IsDir(dj) && 1 <= k
    requires PathEmpty(b, x, y, di, dj, 1, k - 1)
    requires m in KingSlides(b, x, y, di, dj, k)
    ensures IsKingSlide(b, x, y, m) && Sign(m.x2 - x) == di && Sign(m.y2 - y) == dj
    decreases 8 - k
  {
    var i2, j2 := Ray(x, di, k), Ray(y, dj, k);
    assert InBounds(i2, j2) && b[i2][j2] == 0;
    assert PathEmpty(b, x, y, di, dj, 1, k);
    if m != Quiet(x, y, i2, j2) {
      KingSlidesSound(b, x, y, di, dj, k + 1, m);
    }
  }

  lemma {:induction false} KingSlidesComplete(b: Board, x: int, y: int, di: int, dj: int, k: int, m: MovePos)
    requires IsBoard(b) && InBounds(x, y) && IsDir(di) && IsDir(dj)
    requires IsKingSlide(b, x, y, m) && Sign(m.x2 - x) == di && Sign(m.y2 - y) == dj
    requires 1 <= k <= Dist(x, m.x2)
    ensures m in KingSlides(b, x, y, di, dj, k)
    decreases 8 - k
  {
    var i2, j2 := Ray(x, di, k), Ray(y, dj, k);
    assert InBounds(i2, j2) && b[i2][j2] == 0;
    if k < Dist(x, m.x2) {
      KingSlidesComplete(b, x, y, di, dj, k + 1, m);
    } else {
      assert m == Quiet(x, y, i2, j2);
    }
  }

  // ---------------------------------------------------------------------
  // Each kind of move, exactly
  // ---------------------------------------------------------------------

  /** The capture landing on (i, j) is emitted exactly when it is legal. */
  lemma ManJumpExact(b: Board, x: int, y: int, i: int, j: int, m: MovePos)
    requires IsBoard(b) && InBounds(x, y) && (i == x - 2 || i == x + 2) && (j == y - 2 || j == y + 2)
    ensures m in ManJump(b, x, y, i, j) <==> IsManJump(b, x, y, m) && m.x2 == i && m.y2 == j
  {
  }

  lemma ManCapturesExact(b: Board, x: int, y: int, m: MovePos)
    requires IsBoard(b) && InBounds(x, y)
    ensures m in ManCaptures(b, x, y) <==> IsManJump(b, x, y, m)
  {
    ManJumpExact(b, x, y, x - 2, y - 2, m);
    ManJumpExact(b, x, y, x - 2, y + 2, m);
    ManJumpExact(b, x, y, x + 2, y - 2, m);
    ManJumpExact(b, x, y, x + 2, y + 2, m);
  }

  lemma ManStepsExact(b: Board, x: int, y: int, m: MovePos)
    requires IsBoard(b) && InBounds(x, y) && IsMan(b[x][y])
    ensures m in ManSteps(b, x, y) <==> IsManStep(b, x, y, m)
  {
  }

  /** The king's captures are the four directions' scans, in turn. */
  lemma InKingCaptures(b: Board, x: int, y: int, m: MovePos)
    requires IsBoard(b) && InBounds(x, y)
    ensures m in KingCaptures(b, x, y) <==>
      m in KingJumps(b, x, y, -1, -1, 1, -1) || m in KingJumps(b, x, y, -1, 1, 1, -1) ||
      m in KingJumps(b, x, y, 1, -1, 1, -1) || m in KingJumps(b, x, y, 1, 1, 1, -1)
  {
  }

  lemma KingCapturesExact(b: Board, x: int, y: int, m: MovePos)
    requires IsBoard(b) && InBounds(x, y)
    ensures m in KingCaptures(b, x, y) <==> IsKingJump(b, x, y, m)
  {
    InKingCaptures(b, x, y, m);
    if m in KingJumps(b, x, y, -1, -1, 1, -1) {
      KingJumpsSound(b, x, y, -1, -1, 1, -1, m);
    } else if m in KingJumps(b, x, y, -1, 1, 1, -1) {
      KingJumpsSound(b, x, y, -1, 1, 1, -1, m);
    } else if m in KingJumps(b, x, y, 1, -1, 1, -1) {
      KingJumpsSound(b, x, y, 1, -1, 1, -1, m);
    } else if m in KingJumps(b, x, y, 1, 1, 1, -1) {
      KingJumpsSound(b, x, y, 1, 1, 1, -1, m);
    }
    if IsKingJump(b, x, y, m) {
      KingJumpsComplete(b, x, y, Sign(m.x2 - x), Sign(m.y2 - y), m);
    }
  }

  /** The king's quiet moves are the four directions' scans, in turn. */
  lemma InKingQuiet(b: Board, x: int, y: int, m: MovePos)
    requires IsBoard(b) && InBounds(x, y)
    ensures m in KingQuiet(b, x, y) <==>
      m in KingSlides(b, x, y, -1, -1, 1) || m in KingSlides(b, x, y, -1, 1, 1) ||
      m in KingSlides(b, x, y, 1, -1, 1) || m in KingSlides(b, x, y, 1, 1, 1)
  {
  }

  lemma KingQuietExact(b: Board, x: int, y: int, m: MovePos)
    requires IsBoard(b) && InBounds(x, y)
    ensures m in KingQuiet(b, x, y) <==> IsKingSlide(b, x, y, m)
  {
    InKingQuiet(b, x, y, m);
    if m in KingSlides(b, x, y, -1, -1, 1) {
      KingSlidesSound(b, x, y, -1, -1, 1, m);
    } else if m in KingSlides(b, x, y, -1, 1, 1) {
      KingSlidesSound(b, x, y, -1, 1, 1, m);
    } else if m in KingSlides(b, x, y, 1, -1, 1) {
      KingSlidesSound(b, x, y, 1, -1, 1, m);
    } else if m in KingSlides(b, x, y, 1, 1, 1) {
      KingSlidesSound(b, x, y, 1, 1, 1, m);
    }
    if IsKingSlide(b, x, y, m) {
      KingSlidesComplete(b, x, y, Sign(m.x2 - x), Sign(m.y2 - y), 1, m);
    }
  }

  /** Captures and quiet moves, as the generator's predicates describe them,
      are well-formed moves of the board. */
  lemma JumpIsCapture(b: Board, x: int, y: int, m: MovePos)
    requires IsBoard(b) && InBounds(x, y) && IsJump(b, x, y, m)
    ensures CaptureOn(b, m) && IsCaptureMove(m)
  {
    if IsMan(b[x][y]) {
      assert IsManJump(b, x, y, m);
    } else {
      assert IsKingJump(b, x, y, m);
      var di, dj, k, p := Sign(m.x2 - x), Sign(m.y2 - y), Dist(x, m.x2), Dist(x, m.xb);
      assert Ray(x, di, k) == m.x2 && Ray(y, dj, k) == m.y2;
      assert InBounds(Ray(x, di, k), Ray(y, dj, k)) && b[Ray(x, di, k)][Ray(y, dj, k)] == 0;
      assert b[m.x2][m.y2] == 0;
      assert b[m.xb][m.yb] != 0;
    }
  }

  lemma StepIsQuiet(b: Board, x: int, y: int, m: MovePos)
    requires IsBoard(b) && InBounds(x, y) && IsStep(b, x, y, m)
    ensures StepOn(b, m) && !IsCaptureMove(m)
  {
    if !IsMan(b[x][y]) {
      assert InBounds(Ray(x, Sign(m.x2 - x), Dist(x, m.x2)), Ray(y, Sign(m.y2 - y), Dist(x, m.x2)));
    }
  }

  // ---------------------------------------------------------------------
  // One piece: find_turns(x, y, mtx)
  // ---------------------------------------------------------------------

  /** The moves of one piece are exactly its legal captures when it has one
      (and then no quiet move is returned), otherwise exactly its legal
      quiet moves; have_beats is true exactly when a capture exists. */
  lemma PieceMovesExact(b: Board, x: int, y: int)
    requires IsBoard(b) && InBounds(x, y)
    ensures PieceMoves(b, x, y).beats <==> exists m :: IsJump(b, x, y, m)
    ensures forall m :: m in PieceMoves(b, x, y).moves <==>
              if PieceMoves(b, x, y).beats then IsJump(b, x, y, m) else IsStep(b, x, y, m)
  {
    var g := PieceMoves(b, x, y);
    var caps := if IsMan(b[x][y]) then ManCaptures(b, x, y) else KingCaptures(b, x, y);
    var quiet := if IsMan(b[x][y]) then ManSteps(b, x, y) else KingQuiet(b, x, y);
    assert g == if caps != [] then Gen(caps, true) else Gen(quiet, false);
    forall m ensures m in caps <==> IsJump(b, x, y, m) {
      if IsMan(b[x][y]) { ManCapturesExact(b, x, y, m); } else { KingCapturesExact(b, x, y, m); }
    }
    if caps != [] {
      assert IsJump(b, x, y, caps[0]);
    } else {
      forall m ensures m in quiet <==> IsStep(b, x, y, m) {
        if IsMan(b[x][y]) { ManStepsExact(b, x, y, m); } else { KingQuietExact(b, x, y, m); }
      }
    }
  }

  /** Every move of a piece starts on its cell, lands on an empty cell of
      the board, and is a capture exactly when have_beats is set. */
  lemma PieceMovesShape(b: Board, x: int, y: int)
    requires IsBoard(b) && InBounds(x, y)
    ensures forall m :: m in PieceMoves(b, x, y).moves ==> m.x == x && m.y == y
    ensures MovesOn(b, PieceMoves(b, x, y).moves, PieceMoves(b, x, y).beats)
    ensures PieceMoves(b, x, y).beats ==> PieceMoves(b, x, y).moves != []
  {
    PieceMovesExact(b, x, y);
    var g := PieceMoves(b, x, y);
    forall m | m in g.moves ensures m.x == x && m.y == y && if g.beats then CaptureOn(b, m) else StepOn(b, m) {
      if g.beats { JumpIsCapture(b, x, y, m); } else { StepIsQuiet(b, x, y, m); }
    }
  }

  // ---------------------------------------------------------------------
  // A whole side: find_turns(color, mtx)
  // ---------------------------------------------------------------------

  /** Cell (i', j') comes before cell (i, j) in the scan's order. */
  predicate Before(i': int, j': int, i: int, j: int) {
    i' < i || (i' == i && j' < j)
  }

  /** Some piece of the side on a cell before (i, j) can capture. */
  ghost predicate BeatsSeen(b: Board, color: bool, i: int, j: int)
    requires IsBoard(b)
  {
    exists i', j' :: Own(b, color, i', j') && Before(i', j', i, j) && PieceMoves(b, i', j').beats
  }

  /** m is a move of a piece of the side on a cell before (i, j), whose
      have_beats equals `beats`. */
  ghost predicate MoveSeen(b: Board, color: bool, i: int, j: int, beats: bool, m: MovePos)
    requires IsBoard(b)
  {
    Own(b, color, m.x, m.y) && Before(m.x, m.y, i, j) &&
    m in PieceMoves(b, m.x, m.y).moves && PieceMoves(b, m.x, m.y).beats == beats
  }

  /** What the side scan has collected from the cells before (i, j). */
  ghost predicate Collected(b: Board, color: bool, i: int, j: int, acc: Gen)
    requires IsBoard(b)
  {
    (acc.beats <==> BeatsSeen(b, color, i, j)) &&
    forall m :: m in acc.moves <==> MoveSeen(b, color, i, j, acc.beats, m)
  }

  lemma BeatsSeenStep(b: Board, color: bool, i: int, j: int)
    requires IsBoard(b) && InBounds(i, j)
    ensures BeatsSeen(b, color, i, j + 1) <==>
              BeatsSeen(b, color, i, j) || (Own(b, color, i, j) && PieceMoves(b, i, j).beats)
  {
    if BeatsSeen(b, color, i, j + 1) {
      var i', j' :| Own(b, color, i', j') && Before(i', j', i, j + 1) && PieceMoves(b, i', j').beats;
      if !Before(i', j', i, j) {
        assert i' == i && j' == j;
      }
    }
    if Own(b, color, i, j) && PieceMoves(b, i, j).beats {
      assert Own(b, color, i, j) && Before(i, j, i, j + 1) && PieceMoves(b, i, j).beats;
    }
  }

  lemma MoveSeenStep(b: Board, color: bool, i: int, j: int, beats: bool, m: MovePos)
    requires IsBoard(b) && InBounds(i, j)
    ensures MoveSeen(b, color, i, j + 1, beats, m) <==>
              MoveSeen(b, color, i, j, beats, m) ||
              (Own(b, color, i, j) && m in PieceMoves(b, i, j).moves && PieceMoves(b, i, j).beats == beats)
  {
    PieceMovesShape(b, i, j);
  }

  lemma MoveSeenBeats(b: Board, color: bool, i: int, j: int, m: MovePos)
    requires IsBoard(b) && MoveSeen(b, color, i, j, true, m)
    ensures BeatsSeen(b, color, i, j)
  {
    assert Own(b, color, m.x, m.y) && Before(m.x, m.y, i, j) && PieceMoves(b, m.x, m.y).beats;
  }

  /** Scanning cell (i, j) extends what was collected before it to what
      is collected before the next cell. */
  lemma {:induction false} CollectStep(b: Board, color: bool, i: int, j: int, acc: Gen)
    requires IsBoard(b) && InBounds(i, j) && Collected(b, color, i, j, acc)
    ensures Collected(b, color, i, j + 1,
              if b[i][j] != 0 && b[i][j] % 2 != Bit(color) then Collect(acc, PieceMoves(b, i, j)) else acc)
  {
    BeatsSeenStep(b, color, i, j);
    var acc' := if b[i][j] != 0 && b[i][j] % 2 != Bit(color) then Collect(acc, PieceMoves(b, i, j)) else acc;
    forall m ensures m in acc'.moves <==> MoveSeen(b, color, i, j + 1, acc'.beats, m) {
      CollectMoveStep(b, color, i, j, acc, m);
    }
  }

  lemma CollectMoveStep(b: Board, color: bool, i: int, j: int, acc: Gen, m: MovePos)
    requires IsBoard(b) && InBounds(i, j) && Collected(b, color, i, j, acc)
    ensures var acc' := if b[i][j] != 0 && b[i][j] % 2 != Bit(color) then Collect(acc, PieceMoves(b, i, j)) else acc;
      m in acc'.moves <==> MoveSeen(b, color, i, j + 1, acc'.beats, m)
  {
    var own := b[i][j] != 0 && b[i][j] % 2 != Bit(color);
    var g := PieceMoves(b, i, j);
    var acc' := if own then Collect(acc, g) else acc;
    MoveSeenStep(b, color, i, j, acc'.beats, m);
    if own && g.beats && !acc.beats && MoveSeen(b, color, i, j, true, m) {
      MoveSeenBeats(b, color, i, j, m);
    }
  }

  /** The end of a row is the start of the next. */
  lemma RowEnd(b: Board, color: bool, i: int, acc: Gen)
    requires IsBoard(b) && 0 <= i < 8 && Collected(b, color, i, 8, acc)
    ensures Collected(b, color, i + 1, 0, acc)
  {
    assert forall i', j' :: Own(b, color, i', j') ==> (Before(i', j', i, 8) <==> Before(i', j', i + 1, 0));
  }

  lemma {:induction false} SideScanCollects(b: Board, color: bool, i: int, j: int, acc: Gen)
    requires IsBoard(b) && 0 <= i <= 8 && 0 <= j <= 8 && Collected(b, color, i, j, acc)
    ensures Collected(b, color, 8, 0, SideScan(b, color, i, j, acc))
    decreases 8 - i, 8 - j
  {
    if i == 8 {
      assert forall i', j' :: Own(b, color, i', j') ==> (Before(i', j', 8, j) <==> Before(i', j', 8, 0));
    } else if j == 8 {
      RowEnd(b, color, i, acc);
      SideScanCollects(b, color, i + 1, 0, acc);
    } else {
      CollectStep(b, color, i, j, acc);
      SideScanCollects(b, color, i, j + 1,
        if b[i][j] != 0 && b[i][j] % 2 != Bit(color) then Collect(acc, PieceMoves(b, i, j)) else acc);
    }
  }

  /** The side's moves are exactly the moves of its own pieces whose
      have_beats agrees with the side's; the side's have_beats is true
      exactly when one of its pieces can capture. */
  lemma SideMovesFromPieces(b: Board, color: bool)
    requires IsBoard(b)
    ensures SideMoves(b, color).beats <==> exists i, j :: Own(b, color, i, j) && PieceMoves(b, i, j).beats
    ensures forall m :: m in SideMoves(b, color).moves <==>
              (Own(b, color, m.x, m.y) && m in PieceMoves(b, m.x, m.y).moves &&
               PieceMoves(b, m.x, m.y).beats == SideMoves(b, color).beats)
  {
    SideScanCollects(b, color, 0, 0, Gen([], false));
  }

  /** Forced capture: a side's moves are exactly the legal captures of its
      pieces when it has any (and then every returned move is a capture),
      otherwise exactly the legal quiet moves of its pieces. */
  lemma SideMovesExact(b: Board, color: bool)
    requires IsBoard(b)
    ensures SideMoves(b, color).beats <==> exists m: MovePos :: Own(b, color, m.x, m.y) && IsJump(b, m.x, m.y, m)
    ensures forall m :: m in SideMoves(b, color).moves <==>
              (Own(b, color, m.x, m.y) &&
               if SideMoves(b, color).beats then IsJump(b, m.x, m.y, m) else IsStep(b, m.x, m.y, m))
    ensures MovesOn(b, SideMoves(b, color).moves, SideMoves(b, color).beats)
  {
    var g := SideMoves(b, color);
    SideMovesFromPieces(b, color);
    if g.beats {
      var i, j :| Own(b, color, i, j) && PieceMoves(b, i, j).beats;
      PieceMovesExact(b, i, j);
      var m :| IsJump(b, i, j, m);
      assert m.x == i && m.y == j;
    }
    if exists m: MovePos :: Own(b, color, m.x, m.y) && IsJump(b, m.x, m.y, m) {
      var m: MovePos :| Own(b, color, m.x, m.y) && IsJump(b, m.x, m.y, m);
      PieceMovesExact(b, m.x, m.y);
    }
    forall m ensures m in g.moves <==>
      (Own(b, color, m.x, m.y) && if g.beats then IsJump(b, m.x, m.y, m) else IsStep(b, m.x, m.y, m))
    {
      if Own(b, color, m.x, m.y) {
        PieceMovesExact(b, m.x, m.y);
        PieceMovesShape(b, m.x, m.y);
      }
    }
    forall m | m in g.moves ensures if g.beats then CaptureOn(b, m) else StepOn(b, m) {
      PieceMovesShape(b, m.x, m.y);
    }
  }
}
