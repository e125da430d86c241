/** The bot's search as functions: the value find_best_turns_rec computes
    (depth-limited minimax with the source's alpha-beta cut-offs, capture
    series played out at the same depth), the selection find_first_best_turn
    makes among the first move's capture series, and a plain minimax
    reference the cut-off-free mode is proved to agree with. */
module Search {
  import opened Moves
  import opened Boards
  import opened MoveGen
  import opened MoveGenFacts
  import opened Scoring

  /** The engine's settings: BotScoringType, Optimization and Max_depth. */
  datatype Settings = Settings(scoringMode: string, optimization: string, maxDepth: nat)

  /** Cut-offs are taken in every optimization mode but "O0". */
  predicate Prunes(cfg: Settings) {
    cfg.optimization != "O0"
  }

  function Max(a: real, b: real): real {
    if a >= b then a else b
  }

  function Min(a: real, b: real): real {
    if a <= b then a else b
  }

  /** Odd depths are the bot's own replies (maximising), even depths the
      opponent's (minimising). */
  predicate Maximising(depth: nat) {
    depth % 2 == 1
  }

  /** The moves to search at a node: those of the piece on (x, y) while a
      capture series is under way (x != -1), otherwise the whole side's. */
  function NodeMoves(b: Board, color: bool, x: int, y: int): (g: Gen)
    requires IsBoard(b) && (x != -1 ==> InBounds(x, y))
    ensures MovesOn(b, g.moves, g.beats)
    ensures g.beats ==> g.moves != []
  {
    if x != -1 then
      PieceMovesShape(b, x, y);
      PieceMoves(b, x, y)
    else
      SideMovesExact(b, color);
      SideMovesNonEmpty(b, color);
      SideMoves(b, color)
  }

  lemma SideMovesNonEmpty(b: Board, color: bool)
    requires IsBoard(b)
    ensures SideMoves(b, color).beats ==> SideMoves(b, color).moves != []
  {
    SideMovesExact(b, color);
    if SideMoves(b, color).beats {
      var m: MovePos :| Own(b, color, m.x, m.y) && IsJump(b, m.x, m.y, m);
      assert m in SideMoves(b, color).moves;
    }
  }

  /** A move of the list is on the board, and in a list of captures it is
      a capture as the generator produces it. */
  lemma MoveOnBoard(b: Board, moves: seq<MovePos>, beats: bool, i: int)
    requires IsBoard(b) && MovesOn(b, moves, beats) && 0 <= i < |moves|
    ensures MoveInBounds(moves[i])
    ensures beats ==> CaptureOn(b, moves[i])
  {
    assert moves[i] in moves;
  }

  // ---------------------------------------------------------------------
  // find_best_turns_rec
  // ---------------------------------------------------------------------

  /** The value find_best_turns_rec returns. At Max_depth the position is
      scored from the bot's side; a finished capture series passes the move
      to the other side one level deeper; a side without moves has lost
      (0 at the bot's levels, INF at the opponent's); otherwise the moves
      are folded with cut-offs. */
  function RecValue(cfg: Settings, b: Board, color: bool, depth: nat, alpha: real, beta: real,
                    x: int, y: int): real
    requires IsBoard(b) && depth <= cfg.maxDepth && (x != -1 ==> InBounds(x, y))
    decreases cfg.maxDepth - depth, PieceCount(b), 2, 0
  {
    if depth == cfg.maxDepth then Score(b, Maximising(depth) == color, cfg.scoringMode)
    else
      var g := NodeMoves(b, color, x, y);
      if !g.beats && x != -1 then RecValue(cfg, b, !color, depth + 1, alpha, beta, -1, -1)
      else if g.moves == [] then (if Maximising(depth) then 0.0 else INF)
      else RecFold(cfg, b, color, depth, x, g.moves, g.beats, 0, alpha, beta, INF + 1.0, -1.0)
  }

  /** The loop of find_best_turns_rec from the i-th move on, with the
      window (alpha, beta) and the extremes of the scores seen so far.
      When the window closes the fold stops and returns the extreme pushed
      one past the window. */
  function RecFold(cfg: Settings, b: Board, color: bool, depth: nat, x: int, moves: seq<MovePos>, beats: bool,
                   i: nat, alpha: real, beta: real, minScore: real, maxScore: real): real
    requires IsBoard(b) && depth < cfg.maxDepth && i <= |moves|
    requires MovesOn(b, moves, beats) && (x != -1 ==> beats)
    decreases cfg.maxDepth - depth, PieceCount(b), 1, |moves| - i
  {
    if i == |moves| then (if Maximising(depth) then maxScore else minScore)
    else
      var score := RecChild(cfg, b, color, depth, x, moves, beats, i, alpha, beta);
      var minScore', maxScore' := Min(minScore, score), Max(maxScore, score);
      var alpha' := if Maximising(depth) then Max(alpha, maxScore') else alpha;
      var beta' := if Maximising(depth) then beta else Min(beta, minScore');
      if Prunes(cfg) && alpha' >= beta' then (if Maximising(depth) then maxScore' + 1.0 else minScore' - 1.0)
      else RecFold(cfg, b, color, depth, x, moves, beats, i + 1, alpha', beta', minScore', maxScore')
  }

  /** One turn of the loop of find_best_turns_rec, given the score of the
      move it searches. */
  lemma RecFoldUnfold(cfg: Settings, b: Board, color: bool, depth: nat, x: int, moves: seq<MovePos>, beats: bool,
                      i: nat, alpha: real, beta: real, minScore: real, maxScore: real, score: real)
    requires IsBoard(b) && depth < cfg.maxDepth && i < |moves|
    requires MovesOn(b, moves, beats) && (x != -1 ==> beats)
    requires score == RecChild(cfg, b, color, depth, x, moves, beats, i, alpha, beta)
    ensures var minScore', maxScore' := Min(minScore, score), Max(maxScore, score);
      var alpha' := if Maximising(depth) then Max(alpha, maxScore') else alpha;
      var beta' := if Maximising(depth) then beta else Min(beta, minScore');
      RecFold(cfg, b, color, depth, x, moves, beats, i, alpha, beta, minScore, maxScore) ==
      if Prunes(cfg) && alpha' >= beta' then (if Maximising(depth) then maxScore' + 1.0 else minScore' - 1.0)
      else RecFold(cfg, b, color, depth, x, moves, beats, i + 1, alpha', beta', minScore', maxScore')
  {
  }

  /** The value of the position after the i-th move: a quiet move at the
      start of a turn hands the move over one level deeper; a capture
      continues the series with the same side and depth from its landing
      square. */
  function RecChild(cfg: Settings, b: Board, color: bool, depth: nat, x: int, moves: seq<MovePos>, beats: bool,
                    i: nat, alpha: real, beta: real): real
    requires IsBoard(b) && depth < cfg.maxDepth && i < |moves|
    requires MovesOn(b, moves, beats) && (x != -1 ==> beats)
    decreases cfg.maxDepth - depth, PieceCount(b), 0, 0
  {
    MoveOnBoard(b, moves, beats, i);
    var m := moves[i];
    if !beats && x == -1 then RecValue(cfg, MakeTurn(b, m), !color, depth + 1, alpha, beta, -1, -1)
    else
      CaptureRemovesOnePiece(b, m);
      RecValue(cfg, MakeTurn(b, m), color, depth, alpha, beta, m.x2, m.y2)
  }

  // ---------------------------------------------------------------------
  // Plain minimax: the reference for the cut-off-free mode
  // ---------------------------------------------------------------------

  /** The minimax value of a node, by the same rules as RecValue but with
      no window. */
  function Minimax(cfg: Settings, b: Board, color: bool, depth: nat, x: int, y: int): real
    requires IsBoard(b) && depth <= cfg.maxDepth && (x != -1 ==> InBounds(x, y))
    decreases cfg.maxDepth - depth, PieceCount(b), 2, 0
  {
    if depth == cfg.maxDepth then Score(b, Maximising(depth) == color, cfg.scoringMode)
    else
      var g := NodeMoves(b, color, x, y);
      if !g.beats && x != -1 then Minimax(cfg, b, !color, depth + 1, -1, -1)
      else if g.moves == [] then (if Maximising(depth) then 0.0 else INF)
      else MinimaxFold(cfg, b, color, depth, x, g.moves, g.beats, 0)
  }

  /** The best child value among moves i.. for the side to move: the
      largest at the bot's levels, the smallest at the opponent's. */
  function MinimaxFold(cfg: Settings, b: Board, color: bool, depth: nat, x: int, moves: seq<MovePos>, beats: bool,
                       i: nat): real
    requires IsBoard(b) && depth < cfg.maxDepth && i < |moves|
    requires MovesOn(b, moves, beats) && (x != -1 ==> beats)
    decreases cfg.maxDepth - depth, PieceCount(b), 1, |moves| - i
  {
    var s := ChildMinimax(cfg, b, color, depth, x, moves, beats, i);
    if i == |moves| - 1 then s
    else
      var rest := MinimaxFold(cfg, b, color, depth, x, moves, beats, i + 1);
      if Maximising(depth) then Max(s, rest) else Min(s, rest)
  }

  /** The minimax value of the position after the k-th move. */
  function ChildMinimax(cfg: Settings, b: Board, color: bool, depth: nat, x: int, moves: seq<MovePos>, beats: bool,
                        k: nat): real
    requires IsBoard(b) && depth < cfg.maxDepth && k < |moves|
    requires MovesOn(b, moves, beats) && (x != -1 ==> beats)
    decreases cfg.maxDepth - depth, PieceCount(b), 0, 0
  {
    MoveOnBoard(b, moves, beats, k);
    var m := moves[k];
    if !beats && x == -1 then Minimax(cfg, MakeTurn(b, m), !color, depth + 1, -1, -1)
    else
      CaptureRemovesOnePiece(b, m);
      Minimax(cfg, MakeTurn(b, m), color, depth, m.x2, m.y2)
  }

  /** Every minimax value is a score or a lost position's value: in [0, INF]. */
  lemma {:induction false} MinimaxRange(cfg: Settings, b: Board, color: bool, depth: nat, x: int, y: int)
    requires IsBoard(b) && depth <= cfg.maxDepth && (x != -1 ==> InBounds(x, y))
    ensures 0.0 <= Minimax(cfg, b, color, depth, x, y) <= INF
    decreases cfg.maxDepth - depth, PieceCount(b), 2, 0
  {
    if depth == cfg.maxDepth {
      ScoreRange(b, Maximising(depth) == color, cfg.scoringMode);
    } else {
      var g := NodeMoves(b, color, x, y);
      if !g.beats && x != -1 {
        MinimaxRange(cfg, b, !color, depth + 1, -1, -1);
      } else if g.moves != [] {
        MinimaxFoldRange(cfg, b, color, depth, x, g.moves, g.beats, 0);
      }
    }
  }

  lemma {:induction false} MinimaxFoldRange(cfg: Settings, b: Board, color: bool, depth: nat, x: int,
                                            moves: seq<MovePos>, beats: bool, i: nat)
    requires IsBoard(b) && depth < cfg.maxDepth && i < |moves|
    requires MovesOn(b, moves, beats) && (x != -1 ==> beats)
    ensures 0.0 <= MinimaxFold(cfg, b, color, depth, x, moves, beats, i) <= INF
    decreases cfg.maxDepth - depth, PieceCount(b), 1, |moves| - i
  {
    ChildMinimaxRange(cfg, b, color, depth, x, moves, beats, i);
    if i < |moves| - 1 {
      MinimaxFoldRange(cfg, b, color, depth, x, moves, beats, i + 1);
    }
  }

  lemma {:induction false} ChildMinimaxRange(cfg: Settings, b: Board, color: bool, depth: nat, x: int,
                                             moves: seq<MovePos>, beats: bool, k: nat)
    requires IsBoard(b) && depth < cfg.maxDepth && k < |moves|
    requires MovesOn(b, moves, beats) && (x != -1 ==> beats)
    ensures 0.0 <= ChildMinimax(cfg, b, color, depth, x, moves, beats, k) <= INF
    decreases cfg.maxDepth - depth, PieceCount(b), 0, 0
  {
    MoveOnBoard(b, moves, beats, k);
    var m := moves[k];
    if !beats && x == -1 {
      MinimaxRange(cfg, MakeTurn(b, m), !color, depth + 1, -1, -1);
    } else {
      CaptureRemovesOnePiece(b, m);
      MinimaxRange(cfg, MakeTurn(b, m), color, depth, m.x2, m.y2);
    }
  }

  /** The fold bounds every child value k from i on: at the bot's levels
      no child exceeds it, at the opponent's none is below it. */
  lemma {:induction false} MinimaxFoldBounds(cfg: Settings, b: Board, color: bool, depth: nat, x: int,
                                             moves: seq<MovePos>, beats: bool, i: nat, k: nat)
    requires IsBoard(b) && depth < cfg.maxDepth && i <= k < |moves|
    requires MovesOn(b, moves, beats) && (x != -1 ==> beats)
    ensures if Maximising(depth) then ChildMinimax(cfg, b, color, depth, x, moves, beats, k) <= MinimaxFold(cfg, b, color, depth, x, moves, beats, i)
            else MinimaxFold(cfg, b, color, depth, x, moves, beats, i) <= ChildMinimax(cfg, b, color, depth, x, moves, beats, k)
    decreases |moves| - i
  {
    FoldCoversHead(cfg, b, color, depth, x, moves, beats, i);
    if k > i {
      MinimaxFoldBounds(cfg, b, color, depth, x, moves, beats, i + 1, k);
    }
  }

  /** The fold at i covers the child at i and the fold at i + 1. */
  lemma FoldCoversHead(cfg: Settings, b: Board, color: bool, depth: nat, x: int,
                       moves: seq<MovePos>, beats: bool, i: nat)
    requires IsBoard(b) && depth < cfg.maxDepth && i < |moves|
    requires MovesOn(b, moves, beats) && (x != -1 ==> beats)
    ensures Maximising(depth) ==> ChildMinimax(cfg, b, color, depth, x, moves, beats, i) <= MinimaxFold(cfg, b, color, depth, x, moves, beats, i)
    ensures !Maximising(depth) ==> MinimaxFold(cfg, b, color, depth, x, moves, beats, i) <= ChildMinimax(cfg, b, color, depth, x, moves, beats, i)
    ensures i + 1 < |moves| && Maximising(depth) ==>
              MinimaxFold(cfg, b, color, depth, x, moves, beats, i + 1) <= MinimaxFold(cfg, b, color, depth, x, moves, beats, i)
    ensures i + 1 < |moves| && !Maximising(depth) ==>
              MinimaxFold(cfg, b, color, depth, x, moves, beats, i) <= MinimaxFold(cfg, b, color, depth, x, moves, beats, i + 1)
  {
  }

  /** Some child attains the fold's value, so with MinimaxFoldBounds the
      fold is the best child value. */
  lemma {:induction false} MinimaxFoldAttained(cfg: Settings, b: Board, color: bool, depth: nat, x: int,
                                               moves: seq<MovePos>, beats: bool, i: nat)
    requires IsBoard(b) && depth < cfg.maxDepth && i < |moves|
    requires MovesOn(b, moves, beats) && (x != -1 ==> beats)
    ensures exists k :: i <= k < |moves| &&
                        ChildMinimax(cfg, b, color, depth, x, moves, beats, k) ==
                        MinimaxFold(cfg, b, color, depth, x, moves, beats, i)
    decreases |moves| - i
  {
    var v := MinimaxFold(cfg, b, color, depth, x, moves, beats, i);
    if ChildMinimax(cfg, b, color, depth, x, moves, beats, i) != v {
      MinimaxFoldAttained(cfg, b, color, depth, x, moves, beats, i + 1);
      var k :| i + 1 <= k < |moves| &&
        ChildMinimax(cfg, b, color, depth, x, moves, beats, k) == MinimaxFold(cfg, b, color, depth, x, moves, beats, i + 1);
      assert ChildMinimax(cfg, b, color, depth, x, moves, beats, k) == v;
    }
  }

  // ---------------------------------------------------------------------
  // Without cut-offs the search is minimax
  // ---------------------------------------------------------------------

  /** In the "O0" mode the window never matters: find_best_turns_rec
      returns the minimax value, whatever alpha and beta it is given. */
  lemma {:induction false} NoPruningIsMinimax(cfg: Settings, b: Board, color: bool, depth: nat, alpha: real, beta: real,
                                              x: int, y: int)
    requires IsBoard(b) && depth <= cfg.maxDepth && (x != -1 ==> InBounds(x, y)) && !Prunes(cfg)
    ensures RecValue(cfg, b, color, depth, alpha, beta, x, y) == Minimax(cfg, b, color, depth, x, y)
    decreases cfg.maxDepth - depth, PieceCount(b), 2, 0
  {
    if depth < cfg.maxDepth {
      var g := NodeMoves(b, color, x, y);
      if !g.beats && x != -1 {
        NoPruningIsMinimax(cfg, b, !color, depth + 1, alpha, beta, -1, -1);
      } else if g.moves != [] {
        NoPruningFold(cfg, b, color, depth, x, g.moves, g.beats, 0, alpha, beta, INF + 1.0, -1.0);
        MinimaxFoldRange(cfg, b, color, depth, x, g.moves, g.beats, 0);
      }
    }
  }

  /** Without cut-offs the loop's result is the running extreme combined
      with the best of the remaining children. */
  lemma {:induction false} NoPruningFold(cfg: Settings, b: Board, color: bool, depth: nat, x: int, moves: seq<MovePos>,
                                         beats: bool, i: nat, alpha: real, beta: real, minScore: real, maxScore: real)
    requires IsBoard(b) && depth < cfg.maxDepth && i < |moves|
    requires MovesOn(b, moves, beats) && (x != -1 ==> beats) && !Prunes(cfg)
    ensures RecFold(cfg, b, color, depth, x, moves, beats, i, alpha, beta, minScore, maxScore) ==
              if Maximising(depth) then Max(maxScore, MinimaxFold(cfg, b, color, depth, x, moves, beats, i))
              else Min(minScore, MinimaxFold(cfg, b, color, depth, x, moves, beats, i))
    decreases cfg.maxDepth - depth, PieceCount(b), 1, |moves| - i
  {
    NoPruningChild(cfg, b, color, depth, x, moves, beats, i, alpha, beta);
    if i < |moves| - 1 {
      var score := RecChild(cfg, b, color, depth, x, moves, beats, i, alpha, beta);
      var minScore', maxScore' := Min(minScore, score), Max(maxScore, score);
      var alpha' := if Maximising(depth) then Max(alpha, maxScore') else alpha;
      var beta' := if Maximising(depth) then beta else Min(beta, minScore');
      NoPruningFold(cfg, b, color, depth, x, moves, beats, i + 1, alpha', beta', minScore', maxScore');
    }
  }

  lemma {:induction false} NoPruningChild(cfg: Settings, b: Board, color: bool, depth: nat, x: int,
                                          moves: seq<MovePos>, beats: bool, i: nat, alpha: real, beta: real)
    requires IsBoard(b) && depth < cfg.maxDepth && i < |moves|
    requires MovesOn(b, moves, beats) && (x != -1 ==> beats) && !Prunes(cfg)
    ensures RecChild(cfg, b, color, depth, x, moves, beats, i, alpha, beta) ==
            ChildMinimax(cfg, b, color, depth, x, moves, beats, i)
    decreases cfg.maxDepth - depth, PieceCount(b), 0, 0
  {
    MoveOnBoard(b, moves, beats, i);
    var m := moves[i];
    if !beats && x == -1 {
      NoPruningIsMinimax(cfg, MakeTurn(b, m), !color, depth + 1, alpha, beta, -1, -1);
    } else {
      CaptureRemovesOnePiece(b, m);
      NoPruningIsMinimax(cfg, MakeTurn(b, m), color, depth, alpha, beta, m.x2, m.y2);
    }
  }

  // ---------------------------------------------------------------------
  // The value is never negative when the window starts below 0
  // ---------------------------------------------------------------------

  /** A search started with alpha below 0 and beta at least 0 (as the
      first move of find_first_best_turn is searched, with alpha -1 and
      beta INF + 1) returns a value of at least 0, cut-offs or not. */
  lemma {:induction false} RecValueNonNegative(cfg: Settings, b: Board, color: bool, depth: nat, alpha: real, beta: real,
                                               x: int, y: int)
    requires IsBoard(b) && depth <= cfg.maxDepth && (x != -1 ==> InBounds(x, y))
    requires alpha < 0.0 <= beta
    ensures RecValue(cfg, b, color, depth, alpha, beta, x, y) >= 0.0
    decreases cfg.maxDepth - depth, PieceCount(b), 2, 0
  {
    if depth == cfg.maxDepth {
      ScoreRange(b, Maximising(depth) == color, cfg.scoringMode);
    } else {
      var g := NodeMoves(b, color, x, y);
      if !g.beats && x != -1 {
        RecValueNonNegative(cfg, b, !color, depth + 1, alpha, beta, -1, -1);
      } else if g.moves != [] {
        RecFoldNonNegative(cfg, b, color, depth, x, g.moves, g.beats, 0, alpha, beta, INF + 1.0, -1.0);
      }
    }
  }

  /** The loop keeps its result non-negative: at the opponent's levels
      alpha stays below 0 and beta and the minimum at or above it, so no
      cut-off happens; at the bot's levels the first child is searched with
      the original window and the maximum never drops below it. */
  lemma RecFoldNonNegative(cfg: Settings, b: Board, color: bool, depth: nat, x: int,
                           moves: seq<MovePos>, beats: bool, i: nat,
                           alpha: real, beta: real, minScore: real, maxScore: real)
    requires IsBoard(b) && depth < cfg.maxDepth && i <= |moves|
    requires MovesOn(b, moves, beats) && (x != -1 ==> beats)
    requires !Maximising(depth) ==> alpha < 0.0 <= beta && 0.0 <= minScore
    requires Maximising(depth) ==> 0.0 <= maxScore || (alpha < 0.0 <= beta && i < |moves|)
    ensures RecFold(cfg, b, color, depth, x, moves, beats, i, alpha, beta, minScore, maxScore) >= 0.0
    decreases cfg.maxDepth - depth, PieceCount(b), 1, |moves| - i + 1
  {
    if Maximising(depth) {
      MaxFoldNonNegative(cfg, b, color, depth, x, moves, beats, i, alpha, beta, minScore, maxScore);
    } else {
      MinFoldNonNegative(cfg, b, color, depth, x, moves, beats, i, alpha, beta, minScore, maxScore);
    }
  }

  /** At the bot's levels: once the maximum is at least 0 it stays so, and
      a cut-off returns more than it. */
  lemma {:induction false} MaxFoldNonNegative(cfg: Settings, b: Board, color: bool, depth: nat, x: int,
                                              moves: seq<MovePos>, beats: bool, i: nat,
                                              alpha: real, beta: real, minScore: real, maxScore: real)
    requires IsBoard(b) && depth < cfg.maxDepth && i <= |moves|
    requires MovesOn(b, moves, beats) && (x != -1 ==> beats) && Maximising(depth)
    requires 0.0 <= maxScore || (alpha < 0.0 <= beta && i < |moves|)
    ensures RecFold(cfg, b, color, depth, x, moves, beats, i, alpha, beta, minScore, maxScore) >= 0.0
    decreases cfg.maxDepth - depth, PieceCount(b), 1, |moves| - i
  {
    if i < |moves| {
      var score := RecChild(cfg, b, color, depth, x, moves, beats, i, alpha, beta);
      if 0.0 > maxScore {
        RecChildNonNegative(cfg, b, color, depth, x, moves, beats, i, alpha, beta);
      }
      var minScore', maxScore' := Min(minScore, score), Max(maxScore, score);
      assert 0.0 <= maxScore';
      RecFoldUnfold(cfg, b, color, depth, x, moves, beats, i, alpha, beta, minScore, maxScore, score);
      MaxFoldNonNegative(cfg, b, color, depth, x, moves, beats, i + 1, Max(alpha, maxScore'), beta, minScore', maxScore');
    }
  }

  /** At the opponent's levels alpha stays below 0 while beta and the
      minimum stay at or above it, so no cut-off happens. */
  lemma {:induction false} MinFoldNonNegative(cfg: Settings, b: Board, color: bool, depth: nat, x: int,
                                              moves: seq<MovePos>, beats: bool, i: nat,
                                              alpha: real, beta: real, minScore: real, maxScore: real)
    requires IsBoard(b) && depth < cfg.maxDepth && i <= |moves|
    requires MovesOn(b, moves, beats) && (x != -1 ==> beats) && !Maximising(depth)
    requires alpha < 0.0 <= beta && 0.0 <= minScore
    ensures RecFold(cfg, b, color, depth, x, moves, beats, i, alpha, beta, minScore, maxScore) >= 0.0
    decreases cfg.maxDepth - depth, PieceCount(b), 1, |moves| - i
  {
    if i < |moves| {
      var score := RecChild(cfg, b, color, depth, x, moves, beats, i, alpha, beta);
      RecChildNonNegative(cfg, b, color, depth, x, moves, beats, i, alpha, beta);
      var minScore', maxScore' := Min(minScore, score), Max(maxScore, score);
      RecFoldUnfold(cfg, b, color, depth, x, moves, beats, i, alpha, beta, minScore, maxScore, score);
      MinFoldNonNegative(cfg, b, color, depth, x, moves, beats, i + 1, alpha, Min(beta, minScore'), minScore', maxScore');
    }
  }

  lemma {:induction false} RecChildNonNegative(cfg: Settings, b: Board, color: bool, depth: nat, x: int,
                                               moves: seq<MovePos>, beats: bool, i: nat, alpha: real, beta: real)
    requires IsBoard(b) && depth < cfg.maxDepth && i < |moves|
    requires MovesOn(b, moves, beats) && (x != -1 ==> beats) && alpha < 0.0 <= beta
    ensures RecChild(cfg, b, color, depth, x, moves, beats, i, alpha, beta) >= 0.0
    decreases cfg.maxDepth - depth, PieceCount(b), 0, 0
  {
    MoveOnBoard(b, moves, beats, i);
    var m := moves[i];
    if !beats && x == -1 {
      RecValueNonNegative(cfg, MakeTurn(b, m), !color, depth + 1, alpha, beta, -1, -1);
    } else {
      CaptureRemovesOnePiece(b, m);
      RecValueNonNegative(cfg, MakeTurn(b, m), color, depth, alpha, beta, m.x2, m.y2);
    }
  }

  // ---------------------------------------------------------------------
  // find_first_best_turn
  // ---------------------------------------------------------------------

  /** A fold's outcome: the best score and the index of the move that set
      it, or -1 if no move beat the starting best. */
  datatype Choice = Choice(score: real, pick: int)

  /** The value find_first_best_turn returns at a node of a capture series
      (state != 0): if the piece on (x, y) cannot capture any more, the
      opponent's reply is searched from depth 0 with the given alpha;
      otherwise the best of its captures, starting from -1. */
  function ChainValue(cfg: Settings, b: Board, color: bool, x: int, y: int, alpha: real): real
    requires IsBoard(b) && InBounds(x, y)
    decreases PieceCount(b), 2, 0
  {
    var g := NodeMoves(b, color, x, y);
    if !g.beats then RecValue(cfg, b, !color, 0, alpha, INF + 1.0, -1, -1)
    else ChainFold(cfg, b, color, g.moves, true, 0, -1.0).score
  }

  /** The loop of find_first_best_turn from the i-th move on with the best
      score so far. Only a strictly better score replaces the best, so
      among equal scores the earliest move is kept. */
  function ChainFold(cfg: Settings, b: Board, color: bool, moves: seq<MovePos>, beats: bool, i: nat, best: real): (r: Choice)
    requires IsBoard(b) && i <= |moves| && MovesOn(b, moves, beats)
    ensures r.pick == -1 || i <= r.pick < |moves|
    decreases PieceCount(b), 1, |moves| - i
  {
    if i == |moves| then Choice(best, -1)
    else
      var score := ChainChild(cfg, b, color, moves, beats, i, best);
      var rest := ChainFold(cfg, b, color, moves, beats, i + 1, if score > best then score else best);
      if rest.pick == -1 && score > best then Choice(rest.score, i) else rest
  }

  /** The score of the i-th move with the best so far: a capture continues
      the series (with the best so far as its alpha); a quiet move is
      answered by the opponent's search from depth 0. */
  function ChainChild(cfg: Settings, b: Board, color: bool, moves: seq<MovePos>, beats: bool, i: nat, best: real): real
    requires IsBoard(b) && i < |moves| && MovesOn(b, moves, beats)
    decreases PieceCount(b), 0, 0
  {
    MoveOnBoard(b, moves, beats, i);
    var m := moves[i];
    if beats then
      CaptureRemovesOnePiece(b, m);
      ChainValue(cfg, MakeTurn(b, m), color, m.x2, m.y2, best)
    else RecValue(cfg, MakeTurn(b, m), !color, 0, best, INF + 1.0, -1, -1)
  }

  /** The move a fold chose, or the source's placeholder when none. */
  function Picked(moves: seq<MovePos>, r: Choice): MovePos
    requires r.pick == -1 || 0 <= r.pick < |moves|
  {
    if r.pick == -1 then NoMove else moves[r.pick]
  }

  /** The best only grows, and it grows exactly when a move is picked. */
  lemma {:induction false} ChainFoldImproves(cfg: Settings, b: Board, color: bool, moves: seq<MovePos>, beats: bool,
                                             i: nat, best: real)
    requires IsBoard(b) && i <= |moves| && MovesOn(b, moves, beats)
    ensures var r := ChainFold(cfg, b, color, moves, beats, i, best);
      best <= r.score && (r.pick == -1 <==> r.score == best)
    decreases |moves| - i
  {
    if i < |moves| {
      var score := ChainChild(cfg, b, color, moves, beats, i, best);
      ChainFoldImproves(cfg, b, color, moves, beats, i + 1, if score > best then score else best);
      ChainFoldUnfold(cfg, b, color, moves, beats, i, best, score);
    }
  }

  /** A capture series node searched with alpha below 0 is worth at least
      0. */
  lemma {:induction false} ChainValueNonNegative(cfg: Settings, b: Board, color: bool, x: int, y: int, alpha: real)
    requires IsBoard(b) && InBounds(x, y) && alpha < 0.0
    ensures ChainValue(cfg, b, color, x, y, alpha) >= 0.0
    decreases PieceCount(b), 2, 0
  {
    var g := NodeMoves(b, color, x, y);
    if !g.beats {
      RecValueNonNegative(cfg, b, !color, 0, alpha, INF + 1.0, -1, -1);
    } else {
      ChainFoldPicksFirst(cfg, b, color, g.moves, true, 0);
    }
  }

  /** Started from -1 on a non-empty list, the fold always picks a move,
      and its score is at least 0: the first move's score already beats
      -1. */
  lemma {:induction false} ChainFoldPicksFirst(cfg: Settings, b: Board, color: bool, moves: seq<MovePos>, beats: bool,
                                               i: nat)
    requires IsBoard(b) && i < |moves| && MovesOn(b, moves, beats)
    ensures var r := ChainFold(cfg, b, color, moves, beats, i, -1.0);
      r.pick != -1 && r.score >= 0.0
    decreases PieceCount(b), 1, |moves| - i
  {
    ChainChildNonNegative(cfg, b, color, moves, beats, i, -1.0);
    ChainFoldImproves(cfg, b, color, moves, beats, i + 1, ChainChild(cfg, b, color, moves, beats, i, -1.0));
  }

  lemma {:induction false} ChainChildNonNegative(cfg: Settings, b: Board, color: bool, moves: seq<MovePos>, beats: bool,
                                                 i: nat, best: real)
    requires IsBoard(b) && i < |moves| && MovesOn(b, moves, beats) && best < 0.0
    ensures ChainChild(cfg, b, color, moves, beats, i, best) >= 0.0
    decreases PieceCount(b), 0, 0
  {
    MoveOnBoard(b, moves, beats, i);
    var m := moves[i];
    if beats {
      CaptureRemovesOnePiece(b, m);
      ChainValueNonNegative(cfg, MakeTurn(b, m), color, m.x2, m.y2, best);
    } else {
      RecValueNonNegative(cfg, MakeTurn(b, m), !color, 0, best, INF + 1.0, -1, -1);
    }
  }
  // ---------------------------------------------------------------------
  // Which move the loop of find_first_best_turn records
  // ---------------------------------------------------------------------

  /** The loop of find_first_best_turn over scores already known: a move
      is recorded when its score is strictly above the best held. */
  function FirstBest(scores: seq<real>, i: nat, best: real): Choice
    requires i <= |scores|
    decreases |scores| - i
  {
    if i == |scores| then Choice(best, -1)
    else
      var rest := FirstBest(scores, i + 1, if scores[i] > best then scores[i] else best);
      if rest.pick == -1 && scores[i] > best then Choice(rest.score, i) else rest
  }

  /** FirstBest returns the maximum of the best and the scores from i on,
      records the first score that attains it when that is above the best,
      and records nothing otherwise. */
  lemma {:induction false} FirstBestIsFirstMax(scores: seq<real>, i: nat, best: real)
    requires i <= |scores|
    ensures var r := FirstBest(scores, i, best);
      best <= r.score && (r.pick == -1 <==> r.score == best) &&
      (forall k :: i <= k < |scores| ==> scores[k] <= r.score) &&
      (r.pick != -1 ==> i <= r.pick < |scores| && r.score == scores[r.pick] &&
                        forall k :: i <= k < r.pick ==> scores[k] < r.score)
    decreases |scores| - i
  {
    if i < |scores| {
      FirstBestIsFirstMax(scores, i + 1, if scores[i] > best then scores[i] else best);
    }
  }

  /** The best score the loop of find_first_best_turn holds when it
      reaches move k, having started with `best`. */
  function Held(cfg: Settings, b: Board, color: bool, moves: seq<MovePos>, beats: bool, best: real, k: nat): real
    requires IsBoard(b) && k <= |moves| && MovesOn(b, moves, beats)
  {
    if k == 0 then best
    else
      var held := Held(cfg, b, color, moves, beats, best, k - 1);
      var score := ChainChild(cfg, b, color, moves, beats, k - 1, held);
      if score > held then score else held
  }

  /** The scores the loop computes: move k searched with the best held
      before it as its alpha. */
  function Searched(cfg: Settings, b: Board, color: bool, moves: seq<MovePos>, beats: bool, best: real): (s: seq<real>)
    requires IsBoard(b) && MovesOn(b, moves, beats)
    ensures |s| == |moves|
  {
    seq(|moves|, k requires 0 <= k < |moves| => ChainChild(cfg, b, color, moves, beats, k, Held(cfg, b, color, moves, beats, best, k)))
  }

  /** The best held before each move and after the last. */
  function Helds(cfg: Settings, b: Board, color: bool, moves: seq<MovePos>, beats: bool, best: real): (hs: seq<real>)
    requires IsBoard(b) && MovesOn(b, moves, beats)
    ensures |hs| == |moves| + 1 && hs[0] == best
  {
    seq(|moves| + 1, k requires 0 <= k <= |moves| => Held(cfg, b, color, moves, beats, best, k))
  }

  /** Each searched score is its move searched with the best held before
      it, and the best held after it is the larger of the two. */
  lemma SearchedFollowsHelds(cfg: Settings, b: Board, color: bool, moves: seq<MovePos>, beats: bool, best: real)
    requires IsBoard(b) && MovesOn(b, moves, beats)
    ensures var s := Searched(cfg, b, color, moves, beats, best);
      var hs := Helds(cfg, b, color, moves, beats, best);
      forall k :: 0 <= k < |moves| ==>
        s[k] == ChainChild(cfg, b, color, moves, beats, k, hs[k]) && hs[k + 1] == if s[k] > hs[k] then s[k] else hs[k]
  {
    forall k | 0 <= k < |moves|
      ensures Held(cfg, b, color, moves, beats, best, k + 1) ==
        var held := Held(cfg, b, color, moves, beats, best, k);
        var score := ChainChild(cfg, b, color, moves, beats, k, held);
        if score > held then score else held
    {
    }
  }

  /** A table of loop states `cs[k]`, each one turn of the loop over
      `cs[k + 1]` with score `s[k]` and best held `hs[k]`, is FirstBest. */
  lemma {:induction false} FirstBestOfTurns(s: seq<real>, hs: seq<real>, cs: seq<Choice>, i: nat)
    requires i <= |s| && |hs| == |s| + 1 && |cs| == |s| + 1
    requires cs[|s|] == Choice(hs[|s|], -1)
    requires forall k :: i <= k < |s| ==>
      hs[k + 1] == (if s[k] > hs[k] then s[k] else hs[k]) &&
      cs[k] == if cs[k + 1].pick == -1 && s[k] > hs[k] then Choice(cs[k + 1].score, k) else cs[k + 1]
    ensures cs[i] == FirstBest(s, i, hs[i])
    decreases |s| - i
  {
    if i < |s| {
      FirstBestOfTurns(s, hs, cs, i + 1);
      FirstBestUnfold(s, i, hs[i]);
    }
  }

  /** The loop's states from each move on, searched with the best held
      there, follow one turn of the loop over the searched scores. */
  lemma ChainFoldTurns(cfg: Settings, b: Board, color: bool, moves: seq<MovePos>, beats: bool, best: real)
    requires IsBoard(b) && MovesOn(b, moves, beats)
    ensures var s := Searched(cfg, b, color, moves, beats, best);
      var hs := Helds(cfg, b, color, moves, beats, best);
      forall k :: 0 <= k < |moves| ==>
        var rest := ChainFold(cfg, b, color, moves, beats, k + 1, hs[k + 1]);
        ChainFold(cfg, b, color, moves, beats, k, hs[k]) ==
        if rest.pick == -1 && s[k] > hs[k] then Choice(rest.score, k) else rest
  {
    var s := Searched(cfg, b, color, moves, beats, best);
    var hs := Helds(cfg, b, color, moves, beats, best);
    SearchedFollowsHelds(cfg, b, color, moves, beats, best);
    forall k | 0 <= k < |moves|
      ensures var rest := ChainFold(cfg, b, color, moves, beats, k + 1, hs[k + 1]);
        ChainFold(cfg, b, color, moves, beats, k, hs[k]) ==
        if rest.pick == -1 && s[k] > hs[k] then Choice(rest.score, k) else rest
    {
      ChainFoldUnfold(cfg, b, color, moves, beats, k, hs[k], s[k]);
    }
  }

  /** One turn of the loop of find_first_best_turn, given the score of
      the move it searches. */
  lemma ChainFoldUnfold(cfg: Settings, b: Board, color: bool, moves: seq<MovePos>, beats: bool,
                        i: nat, best: real, score: real)
    requires IsBoard(b) && i < |moves| && MovesOn(b, moves, beats)
    requires score == ChainChild(cfg, b, color, moves, beats, i, best)
    ensures var rest := ChainFold(cfg, b, color, moves, beats, i + 1, if score > best then score else best);
      ChainFold(cfg, b, color, moves, beats, i, best) ==
      if rest.pick == -1 && score > best then Choice(rest.score, i) else rest
  {
  }

  /** One turn of FirstBest. */
  lemma FirstBestUnfold(scores: seq<real>, i: nat, best: real)
    requires i < |scores|
    ensures var rest := FirstBest(scores, i + 1, if scores[i] > best then scores[i] else best);
      FirstBest(scores, i, best) == if rest.pick == -1 && scores[i] > best then Choice(rest.score, i) else rest
  {
  }

  /** ChainFold is FirstBest over the scores it searches. */
  lemma ChainFoldIsFirstBest(cfg: Settings, b: Board, color: bool, moves: seq<MovePos>, beats: bool, best: real)
    requires IsBoard(b) && MovesOn(b, moves, beats)
    ensures ChainFold(cfg, b, color, moves, beats, 0, best) == FirstBest(Searched(cfg, b, color, moves, beats, best), 0, best)
  {
    var s := Searched(cfg, b, color, moves, beats, best);
    var hs := Helds(cfg, b, color, moves, beats, best);
    var cs := seq(|moves| + 1, k requires 0 <= k <= |moves| => ChainFold(cfg, b, color, moves, beats, k, hs[k]));
    SearchedFollowsHelds(cfg, b, color, moves, beats, best);
    ChainFoldTurns(cfg, b, color, moves, beats, best);
    FirstBestOfTurns(s, hs, cs, 0);
  }

  /** With or without cut-offs, find_first_best_turn records the first
      move whose searched score is the highest, returns that score, and
      records nothing when no move scores above the starting best. */
  lemma ChainFoldSearchedMax(cfg: Settings, b: Board, color: bool, moves: seq<MovePos>, beats: bool, best: real)
    requires IsBoard(b) && MovesOn(b, moves, beats)
    ensures var r := ChainFold(cfg, b, color, moves, beats, 0, best);
      var s := Searched(cfg, b, color, moves, beats, best);
      best <= r.score && (r.pick == -1 <==> r.score == best) &&
      (forall k :: 0 <= k < |moves| ==> s[k] <= r.score) &&
      (r.pick != -1 ==> 0 <= r.pick < |moves| && r.score == s[r.pick] &&
                        forall k :: 0 <= k < r.pick ==> s[k] < r.score)
  {
    ChainFoldIsFirstBest(cfg, b, color, moves, beats, best);
    FirstBestIsFirstMax(Searched(cfg, b, color, moves, beats, best), 0, best);
  }

  /** Without cut-offs the value of a capture-series node does not depend
      on the alpha it is searched with. */
  lemma ChainValueIgnoresAlpha(cfg: Settings, b: Board, color: bool, x: int, y: int, alpha: real, alpha': real)
    requires IsBoard(b) && InBounds(x, y) && !Prunes(cfg)
    ensures ChainValue(cfg, b, color, x, y, alpha) == ChainValue(cfg, b, color, x, y, alpha')
  {
    if !NodeMoves(b, color, x, y).beats {
      NoPruningIsMinimax(cfg, b, !color, 0, alpha, INF + 1.0, -1, -1);
      NoPruningIsMinimax(cfg, b, !color, 0, alpha', INF + 1.0, -1, -1);
    }
  }

  /** Without cut-offs a move's score does not depend on the best score
      held when it is searched. */
  lemma ChainChildIgnoresBest(cfg: Settings, b: Board, color: bool, moves: seq<MovePos>, beats: bool,
                              k: nat, best: real, best': real)
    requires IsBoard(b) && k < |moves| && MovesOn(b, moves, beats) && !Prunes(cfg)
    ensures ChainChild(cfg, b, color, moves, beats, k, best) == ChainChild(cfg, b, color, moves, beats, k, best')
  {
    MoveOnBoard(b, moves, beats, k);
    var m := moves[k];
    if beats {
      CaptureRemovesOnePiece(b, m);
      ChainValueIgnoresAlpha(cfg, MakeTurn(b, m), color, m.x2, m.y2, best, best');
    } else {
      NoPruningIsMinimax(cfg, MakeTurn(b, m), !color, 0, best, INF + 1.0, -1, -1);
      NoPruningIsMinimax(cfg, MakeTurn(b, m), !color, 0, best', INF + 1.0, -1, -1);
    }
  }

  /** Without cut-offs find_first_best_turn finds the first best move: no
      move scores above the returned score, the recorded move attains it,
      and every move before it scores strictly less. */
  lemma ChainFoldFirstBest(cfg: Settings, b: Board, color: bool, moves: seq<MovePos>, beats: bool, best: real)
    requires IsBoard(b) && MovesOn(b, moves, beats) && !Prunes(cfg)
    ensures var r := ChainFold(cfg, b, color, moves, beats, 0, best);
      (forall k :: 0 <= k < |moves| ==> ChainChild(cfg, b, color, moves, beats, k, best) <= r.score) &&
      (r.pick != -1 ==>
         r.score == ChainChild(cfg, b, color, moves, beats, r.pick, best) &&
         forall k :: 0 <= k < r.pick ==> ChainChild(cfg, b, color, moves, beats, k, best) < r.score)
  {
    var s := Searched(cfg, b, color, moves, beats, best);
    ChainFoldSearchedMax(cfg, b, color, moves, beats, best);
    forall k | 0 <= k < |moves|
      ensures ChainChild(cfg, b, color, moves, beats, k, best) == s[k]
    {
      ChainChildIgnoresBest(cfg, b, color, moves, beats, k, best, Held(cfg, b, color, moves, beats, best, k));
    }
  }
}
