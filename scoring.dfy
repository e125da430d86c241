/** The bot's evaluation of a position (Logic::calc_score): the material of
    one side over the material of the other, with kings weighted and, in the
    "NumberAndPotential" mode, men rewarded for how far they have advanced.
    Scores are exact reals here; the source computes them in double. */
module Scoring {
  import opened Boards

  /** The score of a lost position for the side whose material is the
      denominator, and the bound every search result stays within. */
  const INF: real := 1000000000.0

  /** The four accumulators of the evaluation: white men (with potential),
      white kings, black men (with potential), black kings. */
  datatype Tally = Tally(w: real, wq: real, b: real, bq: real)

  predicate Potential(mode: string) {
    mode == "NumberAndPotential"
  }

  /** The weight of a king against a man. */
  function KingWeight(mode: string): (q: real)
    ensures q == 4.0 || q == 5.0
    ensures Potential(mode) <==> q == 5.0
  {
    if Potential(mode) then 5.0 else 4.0
  }

  function Flag(c: bool): real {
    if c then 1.0 else 0.0
  }

  /** What the cell on row i holding code c adds to the accumulators. */
  function CellTally(c: int, i: int, mode: string): Tally
    requires 0 <= i < 8
  {
    var pot := Potential(mode);
    Tally(Flag(c == 1) + (if pot then 0.05 * Flag(c == 1) * (7 - i) as real else 0.0),
          Flag(c == 3),
          Flag(c == 2) + (if pot then 0.05 * Flag(c == 2) * i as real else 0.0),
          Flag(c == 4))
  }

  function Add(t: Tally, u: Tally): Tally {
    Tally(t.w + u.w, t.wq + u.wq, t.b + u.b, t.bq + u.bq)
  }

  /** The accumulators after the first k cells in row-major order. */
  function TallyUpTo(b: Board, mode: string, k: nat): (t: Tally)
    requires IsBoard(b) && k <= 64
    ensures 0.0 <= t.w && 0.0 <= t.wq && 0.0 <= t.b && 0.0 <= t.bq
  {
    if k == 0 then Tally(0.0, 0.0, 0.0, 0.0)
    else Add(TallyUpTo(b, mode, k - 1), CellTally(b[(k - 1) / 8][(k - 1) % 8], (k - 1) / 8, mode))
  }

  /** The accumulators after the rows above i and the first j cells of
      row i, as calc_score's two loops build them up. */
  function RowTally(b: Board, mode: string, i: int, j: int): Tally
    requires IsBoard(b) && 0 <= i <= 8 && 0 <= j <= 8
    decreases i, j
  {
    if j > 0 && i < 8 then Add(RowTally(b, mode, i, j - 1), CellTally(b[i][j - 1], i, mode))
    else if i > 0 && j == 0 then RowTally(b, mode, i - 1, 8)
    else Tally(0.0, 0.0, 0.0, 0.0)
  }

  /** Cell (i, j) joins the accumulators; j' is the next column. */
  lemma RowTallyStep(b: Board, mode: string, i: int, j: int, j': int)
    requires IsBoard(b) && InBounds(i, j) && j' == j + 1
    ensures RowTally(b, mode, i, j') == Add(RowTally(b, mode, i, j), CellTally(b[i][j], i, mode))
  {
  }

  /** The end of row i is the start of row i'. */
  lemma RowTallyNext(b: Board, mode: string, i: int, i': int)
    requires IsBoard(b) && 0 <= i < 8 && i' == i + 1
    ensures RowTally(b, mode, i', 0) == RowTally(b, mode, i, 8)
  {
  }

  /** Row by row is the same order as cell by cell: cell (i, j) is the
      n-th. */
  lemma {:induction false} RowTallyUpTo(b: Board, mode: string, i: int, j: int, n: nat)
    requires IsBoard(b) && 0 <= i < 8 && 0 <= j <= 8 && n == 8 * i + j
    ensures RowTally(b, mode, i, j) == TallyUpTo(b, mode, n)
    decreases i, j
  {
    if j > 0 {
      var j0, n0 := j - 1, n - 1;
      RowTallyUpTo(b, mode, i, j0, n0);
      RowTallyStep(b, mode, i, j0, j);
      TallyStep(b, mode, i, j0, n0, n);
    } else if i > 0 {
      var i0 := i - 1;
      RowTallyUpTo(b, mode, i0, 8, n);
      RowTallyNext(b, mode, i0, i);
    }
  }

  /** Scanning cell (i, j), the n-th in row-major order, adds that cell's
      contribution to the accumulators. */
  lemma TallyStep(b: Board, mode: string, i: int, j: int, n: nat, n': nat)
    requires IsBoard(b) && InBounds(i, j) && n == 8 * i + j && n' == n + 1
    ensures TallyUpTo(b, mode, n') == Add(TallyUpTo(b, mode, n), CellTally(b[i][j], i, mode))
  {
    assert (n' - 1) / 8 == i && (n' - 1) % 8 == j;
  }

  /** The evaluation in the terms of the source's last lines: after the
      swap, (w, wq) are the denominator side's accumulators and (bm, bq)
      the numerator side's, and qCoef is the integer king weight. */
  lemma ScoreFromAccumulators(b: Board, firstBotColor: bool, mode: string,
                              w: real, wq: real, bm: real, bq: real, qCoef: int)
    requires IsBoard(b)
    requires var t := TallyUpTo(b, mode, 64);
      w == Men(t, firstBotColor) && wq == Kings(t, firstBotColor) &&
      bm == Men(t, !firstBotColor) && bq == Kings(t, !firstBotColor)
    requires qCoef == if mode == "NumberAndPotential" then 5 else 4
    ensures w + wq != 0.0 ==> w + wq * qCoef as real != 0.0
    ensures Score(b, firstBotColor, mode) ==
      if w + wq == 0.0 then INF
      else if bm + bq == 0.0 then 0.0
      else (bm + bq * qCoef as real) / (w + wq * qCoef as real)
  {
    assert qCoef as real == KingWeight(mode);
  }

  /** The men accumulator of the side with odd codes (odd == true,
      white) or even codes (black). */
  function Men(t: Tally, odd: bool): real {
    if odd then t.w else t.b
  }

  function Kings(t: Tally, odd: bool): real {
    if odd then t.wq else t.bq
  }

  /** The weighted material of one side: men (with potential) plus kings
      times the king weight q. */
  function Weighted(t: Tally, odd: bool, q: real): real {
    Men(t, odd) + Kings(t, odd) * q
  }

  /** The evaluation. The denominator holds the white accumulators when
      first_bot_color is true and the black ones otherwise (the source's
      swap); the denominator's side having no pieces gives INF, the
      numerator's side having none gives 0. */
  function Score(b: Board, firstBotColor: bool, mode: string): real
    requires IsBoard(b)
  {
    var t := TallyUpTo(b, mode, 64);
    var q := KingWeight(mode);
    if Men(t, firstBotColor) + Kings(t, firstBotColor) == 0.0 then INF
    else if Men(t, !firstBotColor) + Kings(t, !firstBotColor) == 0.0 then 0.0
    else Weighted(t, !firstBotColor, q) / Weighted(t, firstBotColor, q)
  }

  // ---------------------------------------------------------------------
  // Reference counts
  // ---------------------------------------------------------------------

  /** Number of cells holding code c among the first k cells. */
  function CodeCount(b: Board, c: int, k: nat): nat
    requires IsBoard(b) && k <= 64
  {
    if k == 0 then 0
    else CodeCount(b, c, k - 1) + (if b[(k - 1) / 8][(k - 1) % 8] == c then 1 else 0)
  }

  /** The side whose codes are odd (odd == true: white) or even (black)
      still has a piece on the board. */
  ghost predicate HasPieces(b: Board, odd: bool)
    requires IsBoard(b)
  {
    exists i, j :: InBounds(i, j) && b[i][j] != 0 && (b[i][j] % 2 == 1) == odd
  }

  /** The accumulators hold the piece counts; the potential adds at most
      0.35 per man; the weighted material of either side is at most 5 per
      cell scanned. */
  lemma {:induction false} TallyCounts(b: Board, mode: string, k: nat)
    requires IsBoard(b) && k <= 64
    ensures var t := TallyUpTo(b, mode, k);
      t.wq == CodeCount(b, 3, k) as real && t.bq == CodeCount(b, 4, k) as real &&
      CodeCount(b, 1, k) as real <= t.w <= 1.35 * CodeCount(b, 1, k) as real &&
      CodeCount(b, 2, k) as real <= t.b <= 1.35 * CodeCount(b, 2, k) as real &&
      (!Potential(mode) ==> t.w == CodeCount(b, 1, k) as real && t.b == CodeCount(b, 2, k) as real) &&
      t.w + 5.0 * t.wq <= 5.0 * k as real && t.b + 5.0 * t.bq <= 5.0 * k as real
  {
    if k > 0 {
      var k0 := k - 1;
      TallyCounts(b, mode, k0);
      var i, j := k0 / 8, k0 % 8;
      var c := b[i][j];
      var t0, t, u := TallyUpTo(b, mode, k0), TallyUpTo(b, mode, k), CellTally(c, i, mode);
      assert t == Add(t0, u);
      assert CodeCount(b, 1, k) == CodeCount(b, 1, k0) + (if c == 1 then 1 else 0);
      assert CodeCount(b, 2, k) == CodeCount(b, 2, k0) + (if c == 2 then 1 else 0);
      assert CodeCount(b, 3, k) == CodeCount(b, 3, k0) + (if c == 3 then 1 else 0);
      assert CodeCount(b, 4, k) == CodeCount(b, 4, k0) + (if c == 4 then 1 else 0);
      CellTallyBounds(c, i, mode);
    }
  }

  /** One cell's contribution: its king flags, its man flags plus at most
      0.35 of potential, and at most 5 of weighted material per side. */
  lemma CellTallyBounds(c: int, i: int, mode: string)
    requires 0 <= i < 8
    ensures var u := CellTally(c, i, mode);
      u.wq == Flag(c == 3) && u.bq == Flag(c == 4) &&
      Flag(c == 1) <= u.w <= 1.35 * Flag(c == 1) && Flag(c == 2) <= u.b <= 1.35 * Flag(c == 2) &&
      (!Potential(mode) ==> u.w == Flag(c == 1) && u.b == Flag(c == 2)) &&
      u.w + 5.0 * u.wq <= 5.0 && u.b + 5.0 * u.bq <= 5.0
  {
  }

  /** A code has been counted exactly when some scanned cell holds it. */
  lemma {:induction false} CodeCountPositive(b: Board, c: int, k: nat)
    requires IsBoard(b) && k <= 64
    ensures CodeCount(b, c, k) > 0 <==> exists i, j :: InBounds(i, j) && 8 * i + j < k && b[i][j] == c
  {
    if k > 0 {
      CodeCountPositive(b, c, k - 1);
      var i, j := (k - 1) / 8, (k - 1) % 8;
      assert InBounds(i, j) && 8 * i + j == k - 1;
      if exists i', j' :: InBounds(i', j') && 8 * i' + j' < k && b[i'][j'] == c {
        var i', j' :| InBounds(i', j') && 8 * i' + j' < k && b[i'][j'] == c;
        if 8 * i' + j' == k - 1 {
          assert i' == i && j' == j;
        } else {
          assert 8 * i' + j' < k - 1;
        }
      }
    }
  }

  /** The side of the given parity has a piece exactly when its man count
      or its king count is positive. */
  lemma HasPiecesCounts(b: Board, odd: bool)
    requires IsBoard(b)
    ensures HasPieces(b, odd) <==>
      (if odd then CodeCount(b, 1, 64) + CodeCount(b, 3, 64) else CodeCount(b, 2, 64) + CodeCount(b, 4, 64)) > 0
  {
    var man, king := if odd then 1 else 2, if odd then 3 else 4;
    CodeCountPositive(b, man, 64);
    CodeCountPositive(b, king, 64);
    if HasPieces(b, odd) {
      var i, j :| InBounds(i, j) && b[i][j] != 0 && (b[i][j] % 2 == 1) == odd;
      assert b[i][j] == man || b[i][j] == king;
      assert 8 * i + j < 64;
    }
    if CodeCount(b, man, 64) > 0 {
      var i, j :| InBounds(i, j) && 8 * i + j < 64 && b[i][j] == man;
      assert b[i][j] != 0 && (b[i][j] % 2 == 1) == odd;
    }
    if CodeCount(b, king, 64) > 0 {
      var i, j :| InBounds(i, j) && 8 * i + j < 64 && b[i][j] == king;
      assert b[i][j] != 0 && (b[i][j] % 2 == 1) == odd;
    }
  }

  lemma QuotientBounds(n: real, d: real, bound: real)
    requires 0.0 <= n <= bound && 1.0 <= d
    ensures 0.0 <= n / d <= bound
  {
    assert n / d * d == n;
  }

  /** The weighted material of the side of the given parity, as the
      evaluation puts it together: its plain sum is zero exactly when the
      side has no piece, and otherwise the weighted sum is at least 1; it
      never exceeds 320. */
  lemma MaterialOfSide(b: Board, mode: string, odd: bool)
    requires IsBoard(b)
    ensures var t := TallyUpTo(b, mode, 64);
      (Men(t, odd) + Kings(t, odd) == 0.0 <==> !HasPieces(b, odd)) &&
      (HasPieces(b, odd) ==> 1.0 <= Weighted(t, odd, KingWeight(mode))) &&
      0.0 <= Weighted(t, odd, KingWeight(mode)) <= 320.0
  {
    TallyCounts(b, mode, 64);
    HasPiecesCounts(b, odd);
  }

  /** The score as the quotient of the two weighted materials: INF, 0 or
      the quotient, by which side has pieces. */
  lemma ScoreCases(b: Board, firstBotColor: bool, mode: string)
    requires IsBoard(b)
    ensures var t := TallyUpTo(b, mode, 64);
      var q := KingWeight(mode);
      var n := Weighted(t, !firstBotColor, q);
      var d := Weighted(t, firstBotColor, q);
      0.0 <= n <= 320.0 && 0.0 <= d <= 320.0 &&
      (!HasPieces(b, firstBotColor) ==> Score(b, firstBotColor, mode) == INF) &&
      (HasPieces(b, firstBotColor) && !HasPieces(b, !firstBotColor) ==> Score(b, firstBotColor, mode) == 0.0) &&
      (HasPieces(b, firstBotColor) && HasPieces(b, !firstBotColor) ==>
         1.0 <= n && 1.0 <= d && Score(b, firstBotColor, mode) == n / d)
  {
    MaterialOfSide(b, mode, firstBotColor);
    MaterialOfSide(b, mode, !firstBotColor);
  }

  /** Every score lies in [0, INF]. */
  lemma ScoreRange(b: Board, firstBotColor: bool, mode: string)
    requires IsBoard(b)
    ensures 0.0 <= Score(b, firstBotColor, mode) <= INF
  {
    ScoreCases(b, firstBotColor, mode);
    var t := TallyUpTo(b, mode, 64);
    var q := KingWeight(mode);
    if HasPieces(b, firstBotColor) && HasPieces(b, !firstBotColor) {
      QuotientBounds(Weighted(t, !firstBotColor, q),
                     Weighted(t, firstBotColor, q), 320.0);
    }
  }

  /** The score is INF exactly when the side in the denominator (white
      when first_bot_color is true, black otherwise) has no piece left. */
  lemma ScoreInf(b: Board, firstBotColor: bool, mode: string)
    requires IsBoard(b)
    ensures Score(b, firstBotColor, mode) == INF <==> !HasPieces(b, firstBotColor)
  {
    ScoreRange(b, firstBotColor, mode);
    ScoreCases(b, firstBotColor, mode);
    var t := TallyUpTo(b, mode, 64);
    var q := KingWeight(mode);
    if HasPieces(b, firstBotColor) && HasPieces(b, !firstBotColor) {
      QuotientBounds(Weighted(t, !firstBotColor, q),
                     Weighted(t, firstBotColor, q), 320.0);
    }
  }

  /** The score is 0 exactly when the denominator's side still has a piece
      and the numerator's side has none. */
  lemma ScoreZero(b: Board, firstBotColor: bool, mode: string)
    requires IsBoard(b)
    ensures Score(b, firstBotColor, mode) == 0.0 <==>
              HasPieces(b, firstBotColor) && !HasPieces(b, !firstBotColor)
  {
    ScoreCases(b, firstBotColor, mode);
    var t := TallyUpTo(b, mode, 64);
    var q := KingWeight(mode);
    if HasPieces(b, firstBotColor) && HasPieces(b, !firstBotColor) {
      PositiveQuotient(Weighted(t, !firstBotColor, q),
                       Weighted(t, firstBotColor, q));
    }
  }

  lemma PositiveQuotient(n: real, d: real)
    requires 1.0 <= n && 1.0 <= d
    ensures n / d > 0.0
  {
    assert n / d * d == n;
  }

  /** While both sides have pieces, the two perspectives' scores are
      reciprocal: swapping first_bot_color inverts the ratio. */
  lemma ScoreSwap(b: Board, mode: string)
    requires IsBoard(b) && HasPieces(b, true) && HasPieces(b, false)
    ensures Score(b, true, mode) * Score(b, false, mode) == 1.0
  {
    ScoreCases(b, true, mode);
    ScoreCases(b, false, mode);
    var t := TallyUpTo(b, mode, 64);
    var q := KingWeight(mode);
    Reciprocal(Weighted(t, false, q), Weighted(t, true, q));
  }

  lemma Reciprocal(n: real, d: real)
    requires 1.0 <= n && 1.0 <= d
    ensures (n / d) * (d / n) == 1.0
  {
    assert n / d * d == n;
    assert d / n * n == d;
  }

  /** Without potential the score is plain material: black men plus four
      times black kings over white men plus four times white kings (for
      first_bot_color true), while both sides have pieces. */
  lemma ScoreIsMaterial(b: Board, mode: string)
    requires IsBoard(b) && !Potential(mode) && HasPieces(b, true) && HasPieces(b, false)
    ensures var d := CodeCount(b, 1, 64) as real + 4.0 * CodeCount(b, 3, 64) as real;
      1.0 <= d &&
      Score(b, true, mode) == (CodeCount(b, 2, 64) as real + 4.0 * CodeCount(b, 4, 64) as real) / d
  {
    MaterialOfSide(b, mode, true);
    MaterialOfSide(b, mode, false);
    TallyCounts(b, mode, 64);
  }
}
