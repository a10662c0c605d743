# Tower of Hanoi game — a verified Dafny model

This project models the `HanoiTowerGame` class of `hanoiTower.js`, a browser Tower of Hanoi game with
three pegs (peg 0 is the source, peg 1 the destination, peg 2 the auxiliary) and 1 to 12 disks.

The model has four modules:

- `Formulas` (formulas.dfy) covers the minimum-moves arithmetic:
  - the closed form T(n) = 2^n − 1 (`calculateMinimumMoves`);
  - the recurrence T(1) = 1, T(n) = 2 T(n−1) + 1 (`calculateMinimumMovesRecursive`);
  - the cross-check between the two (`validateFormulas`), together with the inductive proof that they agree.
- `Rules` (rules.dfy) covers the pegs and the move rule:
  - the pegs are sequences of disk sizes, listed bottom to top;
  - the move validator `isValidMove` checks in a fixed order and the first failure wins;
  - the pop/push step of a move;
  - the completion test;
  - on pegs that obey the rule, the validator accepts exactly the legal moves;
  - a legal move keeps every peg ordered and keeps the set of disks;
  - in such a state, "N disks on peg 1 and pegs 0 and 2 empty" means that peg 1 holds N, …, 1.
- `Solver` (solver.dfy) covers the recursive solver `getSolution` and `Replay`:
  - `Replay` plays a move list through the same validator and the same pop/push step as `makeMove`;
  - the n-disk solution has 2^n − 1 moves and its middle move carries disk n;
  - replayed from the initial position, every move of the solution is accepted and the game ends complete.
- `Game` (game.dfy) covers the class itself and the difficulty labelling of `setNumberOfDisks`:
  - `HanoiTowerGame` has the fields `towers`, `numberOfDisks`, `moveCount`, `bestScore`, `gameHistory` and `isGameComplete`;
  - its methods update those fields in place;
  - each method keeps a game invariant, `Valid`:
    - the pegs are ordered and hold exactly the disks 1..N;
    - the counter equals the length of the history;
    - the history is numbered from 1 and its last snapshot is the current pegs;
    - the score is 2^N − 1;
    - the flag equals the completion test.

The source's numbers are modelled as unbounded integers. Its object records (the validation result, the move outcome, the setup outcome) become datatypes. Message and formula strings are replaced by the values they are built from: a refusal carries its `Reason`, an accepted move reports the disk, the source and destination pegs, the counter and the flag, and a disk-count change reports the minimum and the difficulty (the count itself is the new `numberOfDisks`).

## Model

| member | source | states |
|---|---|---|
| Formulas.Pow2 | hanoiTower.js:37 | 2^n is at least 1 (integer stand-in for `Math.pow(2, n)`) |
| Formulas.MinimumMoves | hanoiTower.js:35-38 | the closed form is never negative and, for n ≥ 1, at least n (its value 2^n − 1 is tied to the recurrence by `FormulasAgree`) |
| Formulas.MinimumMovesRecursive | hanoiTower.js:44-47 | the recurrence T(1) = 1, T(n) = 2T(n−1)+1 yields at least n for every n ≥ 1 |
| Formulas.FormulasAgree | hanoiTower.js:11-14 | by induction, the recurrence and the closed form agree: both equal 2^n − 1 for every n ≥ 1 |
| Formulas.ValidateFormulas | hanoiTower.js:52-62 | the cross-check reports both forms as 2^n − 1 and always reports them valid |
| Formulas.PowerBound | hanoiTower.js:37 | 2^n exceeds n |
| Formulas.Pow2Increasing | hanoiTower.js:232-235 | 2^m < 2^n whenever m < n (used to turn the move thresholds into disk-count bands) |
| Rules.Stack | hanoiTower.js:74-77 | the starting peg N, …, 1 has N disks |
| Rules.StackBounds | hanoiTower.js:74-77 | the starting peg holds only disks 1..N |
| Rules.StackDecreasing | hanoiTower.js:74-77 | the starting peg obeys the rule: sizes strictly decrease bottom to top |
| Rules.IsValidMove | hanoiTower.js:87-121 | checks in order: out of range first, then empty source, then same peg; a move is accepted exactly when both pegs are in range, the source is non-empty, the pegs differ and the destination is empty or its top is larger than the moved disk; an accepted move names the top disk of the source; a refusal for size carries the moved disk and the destination's top, with the moved disk not smaller |
| Rules.ValidatorMatchesRule | hanoiTower.js:111-120 | on ordered pegs, the validator accepts a move exactly when it is legal: two distinct pegs in range, a disk to take, and the destination still ordered once it is placed (both directions) |
| Rules.ValidatorExample | hanoiTower.js:105-120 | with three disks, disk 1 may go from peg 0 to peg 1, after which disk 2 may not follow it (refused as 2 on 1) |
| Rules.Apply | hanoiTower.js:139-140 | the move pops the source's top and pushes it on the destination; the third peg is unchanged |
| Rules.ApplyKeepsDisks | hanoiTower.js:139-140 | a move neither creates nor loses a disk (the multiset of all disks is unchanged) |
| Rules.MovePreservesRules | hanoiTower.js:127-140 | a move the validator accepts keeps every peg ordered |
| Rules.MoveKeepsInvariant | hanoiTower.js:127-140 | an accepted move on ordered pegs holding disks 1..n leaves ordered pegs holding disks 1..n |
| Rules.InitialPosition | hanoiTower.js:68-81 | the initial position is ordered, holds exactly disks 1..N and is not complete |
| Rules.CompleteIffSolved | hanoiTower.js:170-175 | on ordered pegs holding 1..N, the completion test (lengths only) holds exactly when peg 1 is N, …, 1 and pegs 0 and 2 are empty |
| Rules.DecreasingUnique | hanoiTower.js:170-175 | an ordered peg holding exactly the disks 1..n is N, …, 1 (why a length test suffices) |
| Solver.Solution | hanoiTower.js:265-292 | the recursion of `getSolution` with explicit source, destination and auxiliary roles (n − 1 disks to the auxiliary, disk n, n − 1 disks onto it); its own contract states only that the list is non-empty — its length, middle move and disk range are stated by `Solver.SolutionShape`, and that it replays correctly by `Solver.SolutionMovesStack` |
| Solver.Replay | hanoiTower.js:127-164 | a modelling device: plays a move list through the same validator and pop/push step as `makeMove` (stopping at the first refused move or the first move that does not name the disk it moves); a successful replay still has three pegs |
| Solver.SolutionShape | hanoiTower.js:265-292 | the n-disk solution has 2^n − 1 moves, its middle move carries disk n from source to destination, and every move names a disk in 1..n |
| Solver.ReplayAppend | hanoiTower.js:127-164 | replaying two move lists is replaying the first and then the second from where it ended |
| Solver.ReplayPreservesRules | hanoiTower.js:127-164 | any sequence of accepted moves keeps the pegs ordered and keeps the same disks |
| Solver.SolutionMovesStack | hanoiTower.js:273-290 | with n, …, 1 on top of the source and only larger disks elsewhere, every move of the solution is accepted and names the disk it moves, and the n disks end on top of the destination with everything else in place |
| Solver.SolutionSolvesGame | hanoiTower.js:265-292 | from the initial position the default solution has 2^n − 1 moves, its middle move carries disk n from peg 0 to peg 1, it replays without a refused move, and it ends in the complete game with N, …, 1 on peg 1 |
| Solver.SolutionForThreeDisks | hanoiTower.js:265-292 | the three-disk solution is the classic seven moves |
| Game.ClassifyDifficulty | hanoiTower.js:229-235 | the override cascade yields Easy up to 31 moves, Intermediate up to 127, Difficult up to 511, Expert up to 2047, Master above |
| Game.DifficultyByDiskCount | hanoiTower.js:229-235 | in disks: 1–5 Easy, 6–7 Intermediate, 8–9 Difficult, 10–11 Expert, 12 Master |
| Game.NumberedAppend | hanoiTower.js:141-151 | appending the record numbered one past the end keeps the history numbered 1, 2, … |
| Game.InitialConsistent | hanoiTower.js:68-81 | the freshly initialized state satisfies the game invariant |
| Game.MoveKeepsConsistent | hanoiTower.js:127-164 | an accepted move, counted, recorded with a snapshot and followed by the completion check, keeps the game invariant |
| Game.HanoiTowerGame.constructor | hanoiTower.js:18-29 | a new game has three disks in the initial position and satisfies the invariant |
| Game.HanoiTowerGame.CompleteMeansSolved | hanoiTower.js:170-175 | in every valid state the flag is set exactly when peg 1 holds N, …, 1 and pegs 0 and 2 are empty |
| Game.HanoiTowerGame.InitializeGame | hanoiTower.js:68-81 | after initialization: N, …, 1 on peg 0, other pegs empty, no moves, empty history, not complete, score 2^N − 1, N unchanged |
| Game.HanoiTowerGame.CheckGameCompletion | hanoiTower.js:170-175 | the flag becomes "peg 1 holds N disks and pegs 0 and 2 are empty" and nothing else changes |
| Game.HanoiTowerGame.MakeMove | hanoiTower.js:127-164 | a refused move changes nothing and reports the validator's reason with the unchanged counter; an accepted move pops and pushes, increments the counter, appends the numbered record with a snapshot, re-evaluates the flag and reports disk, source and destination pegs, counter and flag; the invariant is kept |
| Game.HanoiTowerGame.SetNumberOfDisks | hanoiTower.js:218-244 | a count outside 1..12 is refused and nothing changes; otherwise the game is reinitialized for that count and reports 2^n − 1 and its difficulty |
| Game.HanoiTowerGame.GetSolution | hanoiTower.js:265-292 | the default solution has exactly the precomputed minimum of moves and, replayed from the initial position, ends in the complete game |
| Game.HanoiTowerGame.ResetGame | hanoiTower.js:297-300 | the game returns to the initial state for the current disk count, and the reset reports success |

## Left out

- The game-state snapshot `getGameState` (hanoiTower.js:249-259) and the display hook `updateDisplay` (hanoiTower.js:305-310) are not modelled: they only report state to the page.
- `displayGameResult`, `demonstrateFormulas` and all console output are not modelled: they only print.
  - This includes the efficiency percentage, a float formatted with `toFixed`.
  - `demonstrateFormulas` lists difficulty bands that differ from those `setNumberOfDisks` applies. The model follows `setNumberOfDisks`.
- The message and formula strings of every result object are not modelled. A refusal carries a `Reason` value instead of its text, and a solution move carries no description.
- The global instance and the wrapper functions (`initGame`, `moveDisk`, `resetGame`, `getGameState`, `showSolution`, `demonstrateMath`) and the module export are not modelled: they only forward to the instance.
- JavaScript numbers are modelled as mathematical integers.
  - A fractional peg index or disk count, `NaN`, and floating-point rounding of `Math.pow` are not modelled.
  - 2^n is exact in doubles for every n the game allows.
- `calculateMinimumMovesRecursive` and `getSolution` stop only at n == 1. For n < 1 they recurse without bound and end in a stack-overflow exception, since neither recursive call is in tail position. The model requires n ≥ 1 for both.
- Formulas.ValidateFormulas requires n ≥ 1 for the same reason: `validateFormulas` with n < 1 throws that exception.
- Game.HanoiTowerGame.GetSolution models the call with its default arguments (the configured disk count, pegs 0, 1, 2).
  - The general recursion with explicit roles is `Solver.Solution`.
- Game.HanoiTowerGame.GetSolution states its length and its replay from the initial position. Where its middle move falls is stated by `Solver.SolutionShape` and `Solver.SolutionSolvesGame` rather than repeated in its own contract.
- Game.HanoiTowerGame.InitializeGame builds peg 0 in a local sequence and then stores the three pegs together. The source empties the peg arrays first and then pushes onto the field's array. The resulting state is the same.
- `makeMove` stores a deep copy of the pegs in each history record. Under value semantics every snapshot is a copy by construction, so the aliasing between snapshot and pegs is not modelled.
- Moves are still accepted after the game is complete, as in the source. Nothing in the model forbids them.
