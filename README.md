# Checkers engine: move generation, evaluation and search

This project models the engine of a checkers game: the `Logic` class of
`Game/Logic.h` and the move record `move_pos` of `Models/Move.h`.

The engine works on an 8x8 matrix of cell codes:
- 0 is an empty cell;
- 1 is a white man and 2 a black man;
- 3 is a white king and 4 a black king.

The parity of a code gives its side. The boolean colour `false` selects the odd codes (white).

## Modules

- **Moves** (`moves.dfy`) holds the move record.
  - The datatype constructor is the six-argument constructor of `move_pos`, which stores every coordinate as given.
  - `Quiet` is the four-argument constructor, which leaves the captured cell at (-1, -1).
  - `SameMove` and `DifferentMove` are `operator==` and `operator!=`. Both compare only the source and destination cells.
- **Boards** (`boards.dfy`) holds the board and `make_turn` (`MakeTurn`). The function applies a move to a copy of the board in the source's order:
  1. clear the captured cell;
  2. promote the piece in place;
  3. copy it to the destination;
  4. clear the source cell.

  Lemmas give the cells it writes, promotion, and the piece count: a capture removes exactly one piece and a quiet move removes none.
- **MoveGen** (`movegen.dfy`) holds both `find_turns` overloads as functions, in the order the source's loops visit the cells.
  - `PieceMoves` is `find_turns(x, y, mtx)`: the captures of the piece if it has any, otherwise its quiet moves.
  - `SideMoves` is `find_turns(color, mtx)`: the row-major scan with the forced-capture rule.

  Next to them, the rules of checkers are stated move by move as independent predicates: `IsManJump`, `IsManStep`, `IsKingJump` and `IsKingSlide`.
- **MoveGenFacts** (`movegen_facts.dfy`) proves that the generator emits exactly the moves the rule predicates describe. Both directions are proved for each kind of move. The lemmas also cover have_beats, forced capture and the shape of every move.
- **Scoring** (`scoring.dfy`) holds `calc_score` as the function `Score`: the four accumulators over the 64 cells, the colour swap, and the two sentinels `INF` (1e9) and 0, then the weighted quotient. It also holds:
  - a reference count of each code;
  - the range lemmas;
  - the case analysis of the sentinels;
  - the reciprocity of the two perspectives.
- **Search** (`search.dfy`) holds the values both search procedures compute, as functions.
  - `RecValue`, `RecFold` and `RecChild` give the value of `find_best_turns_rec`, with its window updates and biased early returns.
  - `ChainValue`, `ChainFold` and `ChainChild` give the score and pick of `find_first_best_turn`.
  - `Minimax` is a plain minimax reference that the cut-off-free mode `"O0"` is proved to agree with.

  Further lemmas bound the values: every minimax value lies in [0, INF], and a search started with alpha -1 never returns a negative value. So the root always records a move when one exists.
- **Engine** (`engine.dfy`) holds the class `Logic`, with the fields the source updates in place: `turns`, `haveBeats`, `nextMove` and `nextBestState`. Its methods follow the source's loops and recursion and are proved against the functions above.
  - Each loop of the source is a `while` loop with its invariants.
  - Some loop bodies are separate methods, so that each proof stays small. They still run in the source's order:
    - `SearchChild` searches one move of the loop of `find_best_turns_rec`;
    - `SearchTurn` is one iteration of the loop of `find_first_best_turn`, and `SearchTurns` is that whole loop;
    - `ScanKingCaptureRay` and `ScanKingSlideRay` scan one direction of the king's capture and quiet-move loops.
  - `FollowLinks` is the loop of `find_best_turns` that reads the recorded capture series back from the tables.

The root node of `find_first_best_turn` does not generate moves. It searches whatever `turns` and `have_beats` the previous `find_turns(color)` left behind. `FindBestTurns` therefore requires that these are a permutation of the side's moves. A permutation is all that can be required, because the source shuffles them.

Termination of the search is proved with the measure (Max_depth - depth, number of pieces):
- a quiet move goes one level deeper;
- a capture continues at the same depth with one piece fewer.

At a cut-off `find_best_turns_rec` returns `max_score + 1` or `min_score - 1` (Game/Logic.h:235-236), not the value of the position. With cut-offs on, the model proves which move `find_first_best_turn` records: the first move whose score, searched with the best score held before it as alpha, is the highest. With `"O0"` it proves that the search is plain minimax, and that the recorded move is the first move of the highest score. It makes no claim that the two modes select the same move.

## Model

| member | source | states |
|---|---|---|
| Moves.Quiet | Models/Move.h:15-21 | the four-argument constructor stores the four coordinates, leaves xb = yb = -1, and so is not a capture |
| Moves.SameMoveIgnoresCapture | Models/Move.h:31-35 | two moves compare equal exactly when they differ at most in the captured cell; changing only the captured cell keeps a move equal to itself |
| Moves.SameMoveIsEquivalence | Models/Move.h:31-35 | the comparison is reflexive, symmetric and transitive, and identical moves compare equal |
| Moves.DifferentMoveIsNegation | Models/Move.h:38-41 | `!=` holds exactly when `==` fails, that is, when one of x, y, x2, y2 differs |
| Boards.MakeTurn | Game/Logic.h:70-79 | applying an in-bounds move to a board of codes 0..4 yields such a board again |
| Boards.MakeTurnCells | Game/Logic.h:70-79 | after make_turn the source cell is empty, the destination holds the moved (possibly promoted) piece, the captured cell is empty, and every other cell is unchanged |
| Boards.PromotionOnBackRank | Game/Logic.h:74-76 | a white man landing on row 0 becomes a white king (3), a black man landing on row 7 becomes a black king (4), any other piece keeps its code, and the side never changes |
| Boards.CaptureRemovesOnePiece | Game/Logic.h:70-79 | a capture as the generator produces it leaves exactly one piece fewer on the board |
| Boards.StepKeepsPieces | Game/Logic.h:70-79 | a quiet move keeps the number of pieces |
| MoveGenFacts.ManJumpExact | Game/Logic.h:285-290 | the candidate landing cell (i, j) yields a move exactly when it is a legal man capture landing there |
| MoveGenFacts.ManCapturesExact | Game/Logic.h:279-293 | the man-capture loops emit exactly the legal man captures: over an adjacent piece of the other side to the empty cell two steps away, in any of the four diagonals, with the midpoint as the captured cell |
| MoveGenFacts.ManStepsExact | Game/Logic.h:325-336 | a man's quiet moves are exactly the steps one row forward (x - 1 for code 1, x + 1 for code 2) to an empty diagonal neighbour |
| MoveGenFacts.KingJumpsSound | Game/Logic.h:299-313 | every move the king's capture scan emits along a direction is a legal king capture in that direction: empty cells, exactly one piece of the other side, then empty cells up to the landing cell |
| MoveGenFacts.KingJumpsComplete | Game/Logic.h:299-313 | every legal king capture along a direction is emitted by that direction's scan |
| MoveGenFacts.KingJumpsReach | Game/Logic.h:300-312 | from any point of the scan before the landing cell and consistent with the captured piece, the scan still emits the capture |
| MoveGenFacts.KingCapturesExact | Game/Logic.h:294-316 | the king-capture loops over the four directions emit exactly the legal king captures |
| MoveGenFacts.KingSlidesSound | Game/Logic.h:342-347 | every move of a slide scan is a quiet king move along that diagonal over empty cells |
| MoveGenFacts.KingSlidesComplete | Game/Logic.h:342-347 | every quiet king move along a diagonal is emitted by that diagonal's scan |
| MoveGenFacts.KingQuietExact | Game/Logic.h:337-350 | the king's quiet moves are exactly the empty cells along a diagonal before the first occupied cell |
| MoveGenFacts.JumpIsCapture | Game/Logic.h:285-290 | a legal capture has its captured piece, its empty landing cell and its own cell all on the board and distinct |
| MoveGenFacts.StepIsQuiet | Game/Logic.h:331-333 | a legal quiet move lands on an empty in-bounds cell other than its own and captures nothing |
| MoveGenFacts.PieceMovesExact | Game/Logic.h:272-352 | have_beats is true exactly when the piece has a legal capture; then the moves are exactly its legal captures, otherwise exactly its legal quiet moves |
| MoveGenFacts.PieceMovesShape | Game/Logic.h:272-352 | every move of a piece starts on its cell and lands on an in-bounds empty cell; have_beats implies a non-empty list |
| MoveGenFacts.CollectStep | Game/Logic.h:251-262 | visiting a cell keeps the invariant of the side scan: the result holds exactly the moves of the side's pieces seen so far whose have_beats equals the result's, and its have_beats says whether any of them can capture |
| MoveGenFacts.SideScanCollects | Game/Logic.h:247-265 | the row-major scan collects exactly those moves from all 64 cells |
| MoveGenFacts.SideMovesFromPieces | Game/Logic.h:243-268 | a side's have_beats holds exactly when one of its pieces can capture, and its moves are exactly the moves of its own pieces whose have_beats equals the side's |
| MoveGenFacts.SideMovesExact | Game/Logic.h:243-268 | forced capture: a side's moves are exactly the legal captures of its pieces when it has one, otherwise exactly their legal quiet moves; only pieces with code % 2 != color move |
| Scoring.KingWeight | Game/Logic.h:109 | the king weight is 5 exactly in the "NumberAndPotential" mode and 4 otherwise |
| Scoring.TallyUpTo | Game/Logic.h:84-99 | the four accumulators are never negative |
| Scoring.CellTallyBounds | Game/Logic.h:89-97 | one cell adds its king flags, its man flags plus at most 0.35 of potential, and at most 5 of weighted material per side |
| Scoring.TallyCounts | Game/Logic.h:84-99 | the king accumulators are the king counts; the man accumulators lie between the man counts and 1.35 times them, and equal them outside the potential mode |
| Scoring.ScoreFromAccumulators | Game/Logic.h:100-110 | after the swap, the sentinel tests and the quotient on the accumulators give Score; the weighted denominator is non-zero when the plain one is |
| Scoring.HasPiecesCounts | Game/Logic.h:84-92 | a side has a piece exactly when its man count or its king count is positive |
| Scoring.MaterialOfSide | Game/Logic.h:84-99 | a side's plain material is zero exactly when it has no piece; otherwise its weighted material is at least 1; it never exceeds 320 |
| Scoring.ScoreCases | Game/Logic.h:100-110 | INF when the denominator's side has no piece, 0 when only the numerator's side has none, otherwise the quotient of two weighted materials, each in [1, 320] |
| Scoring.ScoreRange | Game/Logic.h:100-110 | every score lies in [0, INF] |
| Scoring.ScoreInf | Game/Logic.h:105-106 | the score is INF exactly when the side in the denominator has no piece |
| Scoring.ScoreZero | Game/Logic.h:107-108 | the score is 0 exactly when the denominator's side has a piece and the numerator's side has none |
| Scoring.ScoreSwap | Game/Logic.h:100-104 | while both sides have pieces, the scores for the two values of first_bot_color are reciprocal |
| Scoring.ScoreIsMaterial | Game/Logic.h:89-92 | outside the potential mode the score is black men plus 4 times black kings over white men plus 4 times white kings |
| Search.NodeMoves | Game/Logic.h:186-192 | the moves searched at a node are captures when have_beats and quiet moves otherwise, and have_beats implies some move |
| Search.MoveOnBoard | Game/Logic.h:208-223 | every generated move is in bounds, and in a capture list it is a capture |
| Search.MinimaxRange | Game/Logic.h:175-240 | every minimax value lies in [0, INF] |
| Search.MinimaxFoldRange | Game/Logic.h:204-239 | the best child value lies in [0, INF] |
| Search.ChildMinimaxRange | Game/Logic.h:210-223 | a child's minimax value lies in [0, INF] |
| Search.FoldCoversHead | Game/Logic.h:225-233 | the fold from move i bounds the child at i and the fold from i + 1: from above at odd depths, from below at even depths |
| Search.MinimaxFoldBounds | Game/Logic.h:225-239 | at odd (maximising) depths no child exceeds the fold, at even depths none is below it |
| Search.MinimaxFoldAttained | Game/Logic.h:225-239 | some child attains the fold's value, so the fold is the max (odd depth) or the min (even depth) of the children |
| Search.NoPruningIsMinimax | Game/Logic.h:175-240 | with optimization "O0" find_best_turns_rec returns the minimax value whatever window it is given: max of the children at odd depth, min at even depth, 0/INF with no moves, calc_score at Max_depth |
| Search.NoPruningFold | Game/Logic.h:204-239 | without cut-offs the loop's result is the running extreme combined with the best remaining child |
| Search.NoPruningChild | Game/Logic.h:210-223 | without cut-offs each child's search value is its minimax value |
| Search.RecValueNonNegative | Game/Logic.h:175-240 | a search started with alpha < 0 <= beta returns a value of at least 0, with cut-offs or without |
| Search.RecFoldNonNegative | Game/Logic.h:204-239 | the loop of find_best_turns_rec keeps its result non-negative under the window conditions the first child is searched with |
| Search.MaxFoldNonNegative | Game/Logic.h:204-239 | at the bot's levels, if the maximum so far is at least 0, or the next child is searched with alpha < 0 <= beta, the loop returns at least 0, a cut-off's max_score + 1 included |
| Search.MinFoldNonNegative | Game/Logic.h:204-239 | at the opponent's levels, with alpha < 0 <= beta and the minimum so far at least 0, no cut-off happens and the loop returns at least 0 |
| Search.RecChildNonNegative | Game/Logic.h:210-223 | a child searched with alpha < 0 <= beta is worth at least 0 |
| Search.ChainFold | Game/Logic.h:142-166 | the fold's pick is -1 or the index of one of the moves it searched; ChainFoldSearchedMax and ChainFoldFirstBest state which move it is |
| Search.ChainFoldImproves | Game/Logic.h:159-165 | the best score only grows, and a move is recorded exactly when a strictly greater score was found |
| Search.ChainValueNonNegative | Game/Logic.h:129-139 | a capture-series node searched with alpha < 0 is worth at least 0 |
| Search.ChainFoldPicksFirst | Game/Logic.h:125-166 | started from best = -1 on a non-empty list, the loop always records a move and returns a score of at least 0 |
| Search.ChainChildNonNegative | Game/Logic.h:147-157 | a move searched while the best is still below 0 scores at least 0 |
| Search.FirstBestIsFirstMax | Game/Logic.h:159-165 | over scores already known, the loop's strict comparison returns the larger of the starting best and the highest score, records the first move attaining it when it is above the starting best, and records nothing otherwise |
| Search.SearchedFollowsHelds | Game/Logic.h:142-165 | each move is searched with the best score held before it as its alpha, and the best held afterwards is the larger of the two |
| Search.ChainFoldIsFirstBest | Game/Logic.h:142-166 | the loop of find_first_best_turn equals the loop over the scores it searches, with or without cut-offs |
| Search.ChainFoldSearchedMax | Game/Logic.h:142-166 | with or without cut-offs, no searched score exceeds the returned score; a move is recorded exactly when the returned score is above the starting best; the recorded move's searched score is the returned score, and every earlier move's is strictly lower |
| Search.ChainValueIgnoresAlpha | Game/Logic.h:129-139 | with "O0" the value of a capture-series node does not depend on the alpha passed to it |
| Search.ChainChildIgnoresBest | Game/Logic.h:147-157 | with "O0" a move's score does not depend on the best score held when it is searched |
| Search.ChainFoldFirstBest | Game/Logic.h:142-166 | with "O0" find_first_best_turn finds the first best move: no move scores above the returned score, the recorded move attains it, and every earlier move scores strictly less |
| Engine.ScanManCaptures | Game/Logic.h:281-292 | the man-capture loops produce exactly the man captures in the source's order |
| Engine.ScanKingCaptureRay | Game/Logic.h:299-313 | one direction's capture loop produces exactly that direction's king captures |
| Engine.ScanKingCaptures | Game/Logic.h:295-315 | the four capture loops produce exactly the king captures in the source's order |
| Engine.ScanManSteps | Game/Logic.h:328-334 | the man's quiet-move loop produces exactly its forward steps |
| Engine.ScanKingSlideRay | Game/Logic.h:342-347 | one diagonal's slide loop produces exactly that diagonal's quiet king moves |
| Engine.ScanKingSlides | Game/Logic.h:338-349 | the four slide loops produce exactly the king's quiet moves in the source's order |
| Engine.RecFoldStep | Game/Logic.h:208-237 | one iteration of find_best_turns_rec's loop: the min/max and window updates, then a cut-off return of max_score + 1 or min_score - 1, or the next iteration |
| Engine.ChainFoldStep | Game/Logic.h:159-165 | one iteration of find_first_best_turn's loop keeps the choice the whole loop makes, with the move kept exactly on a strictly greater score |
| Engine.LinkedFresh | Game/Logic.h:122-123 | the entry pushed for a new state (no move, no link) keeps the tables well linked |
| Engine.LinkedAppend | Game/Logic.h:144-151 | the entries a nested call appends keep the tables well linked |
| Engine.LinkedUpdate | Game/Logic.h:160-165 | recording a capture with the index of the state that continues it keeps the tables well linked, because successors are always later states |
| Engine.SeriesAppend | Game/Logic.h:38-42 | appending a capture that starts where the last one ended keeps a capture series |
| Engine.MultisetMovesOn | Game/Logic.h:266-267 | a shuffled list of a side's moves holds moves on the board of the same kind, and is empty exactly when the side has no move |
| Engine.RootChoice | Game/Logic.h:129-166 | the root's pick is -1 or an index into the turns it was given; RootBest states which move it is |
| Engine.RootPicks | Game/Logic.h:125-166 | the root records a move exactly when the side has one, and that move is on the board |
| Engine.RootBest | Game/Logic.h:142-166 | at the root the recorded move is the first whose searched score is the highest; with "O0" it is the first move of the highest score, every move searched from the starting best -1 |
| Engine.Logic.constructor | Game/Logic.h:15-21 | the scoring mode, optimization and depth are taken from the configuration, and the move list and the tables start empty |
| Engine.Logic.FindTurnsPiece | Game/Logic.h:272-352 | turns and have_beats become the piece's moves and capture flag (PieceMoves) |
| Engine.Logic.FindTurnsSide | Game/Logic.h:243-269 | turns and have_beats become the side's moves and capture flag in scan order (SideMoves) |
| Engine.Logic.CalcScore | Game/Logic.h:82-111 | the accumulating loops, the swap and the sentinels return Score |
| Engine.Logic.FindBestTurnsRec | Game/Logic.h:175-240 | the search returns RecValue, with the same branches, window updates and early returns |
| Engine.Logic.SearchChild | Game/Logic.h:210-223 | a quiet move at the start of a turn is searched one level deeper by the other side; a capture is searched at the same depth from its landing cell |
| Engine.Logic.FindFirstBestTurn | Game/Logic.h:117-169 | appends this state's entries, keeps every earlier entry and leaves the tables well linked. At the root it returns ChainFold's score and records its pick at state 0; with "O0" no move scores above the result, the recorded move attains it and every earlier move scores strictly less. Elsewhere it returns ChainValue and records, at its state, the fold's pick among the piece's captures, or no move when the piece has no capture |
| Engine.Logic.SearchTurns | Game/Logic.h:141-166 | the loop over a state's moves returns the fold's best score and records the fold's pick at the state |
| Engine.Logic.SearchTurn | Game/Logic.h:144-165 | one move's score is ChainChild; the move (and its successor state, for a capture) replaces the recorded one exactly when the score is strictly greater |
| Engine.Logic.FindBestTurns | Game/Logic.h:27-45 | the returned sequence is a capture series (each move after the first starts where the previous one ended); it is empty exactly when the side had no move, and otherwise starts with the root's choice |
| Engine.Logic.FollowLinks | Game/Logic.h:36-42 | following the links from state 0 yields a capture series of recorded moves that starts with state 0's move and is empty exactly when none is recorded there |

## Left out

- The random engine: the time-based seed (Game/Logic.h:17-18) and the `shuffle` of a side's moves (Game/Logic.h:267) are not modelled. `FindTurnsSide` returns the moves in scan order. The root search accepts any permutation of them and is specified on the order it is given.
- Search.RecValue, Search.RecValueNonNegative and Engine.Logic.FindBestTurnsRec describe the search over moves in scan order only. The source calls `find_turns(color)` at every node that does not continue a capture (Game/Logic.h:188-191), so it reshuffles the moves at every such node. With cut-offs the value returned can depend on that order. Without cut-offs it is the minimax value, which does not depend on it.
- `Board` and `Config` are not part of this model. The board matrix is an argument. `BotScoringType`, `Optimization` and `Max_depth` are constructor arguments, and `Max_depth` is a field as in the source.
- The one-line overloads `find_turns(color)` and `find_turns(x, y)` (Game/Logic.h:48-57) only pass `board->get_board()` to the modelled overloads, so they are not modelled separately.
- `int8_t` wrap-around of coordinates is not modelled: coordinates are unbounded integers, and the coordinates the loops compute stay within -2..13, far inside the `int8_t` range.
- Scores are exact reals, not IEEE doubles: 0.05 is exactly 1/20 and `INF` is exactly 1e9. Rounding is not modelled.
- Game/Game.h, Game/Hand.h and Models/Response.h (the game loop, input handling and a bare enum) are not part of this model.
- Turning cut-offs on or off is not proved to select the same move, because the code does not promise it (see above).
- `Max_depth` is a signed `int` in the source (Game/Logic.h:66), compared with the unsigned `depth` (Game/Logic.h:180). The model's `maxDepth` is a `nat`. A negative setting is not modelled: the comparison would then never hold, and the recursion would stop only at a node without moves.
- Engine.Logic.FindBestTurns: states the series shape, emptiness and the first move, not the whole sequence of recorded moves.
- Engine.Logic.FollowLinks: states the series shape, the first move and that every move comes from the table, not the exact list of linked entries.
- Engine.Logic.FindTurnsPiece: requires an in-bounds cell. An empty cell is allowed and takes the king branch, as in the source.
