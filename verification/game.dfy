/** The game object: the pegs, the disk count, the move counter, the history,
    the completion flag and the precomputed minimum, changed only by
    initialization, moves and reconfiguration of the disk count. */
module Game {
  import opened Formulas
  import opened Rules
  import opened Solver

  /** One entry of the history: the move's sequence number, the disk moved,
      the two pegs, and a copy of the pegs just after the move. */
  datatype MoveRecord = MoveRecord(moveNumber: int, disk: int, from: int, to: int, towers: Towers)

  /** What a move attempt reports (the message text is not modelled). */
  datatype MoveOutcome =
    | Moved(disk: int, from: int, to: int, moveCount: int, isComplete: bool)
    | Rejected(reason: Reason, moveCount: int)

  datatype Difficulty = Easy | Intermediate | Difficult | Expert | Master

  /** What a change of disk count reports (the message and formula text are not modelled). */
  datatype SetupOutcome =
    | Configured(minimumMoves: int, difficulty: Difficulty)
    | DiskCountOutOfRange

  /** The difficulty bands by minimum move count: at most 31 is Easy, then up to 127
      Intermediate, up to 511 Difficult, up to 2047 Expert, above that Master. */
  function DifficultyOf(movesRequired: int): Difficulty
  {
    if movesRequired <= 31 then Easy
    else if movesRequired <= 127 then Intermediate
    else if movesRequired <= 511 then Difficult
    else if movesRequired <= 2047 then Expert
    else Master
  }

  /** The labelling as the game does it: start at Easy and let each threshold
      that is exceeded override the label chosen so far. */
  method ClassifyDifficulty(movesRequired: int) returns (level: Difficulty)
    ensures level == DifficultyOf(movesRequired)
  {
    level := Easy;
    if movesRequired > 31 { level := Intermediate; }
    if movesRequired > 127 { level := Difficult; }
    if movesRequired > 511 { level := Expert; }
    if movesRequired > 2047 { level := Master; }
  }

  /** In terms of the disk count: 1-5 disks are Easy, 6-7 Intermediate, 8-9 Difficult,
      10-11 Expert and 12 or more Master. */
  lemma DifficultyByDiskCount(n: int)
    requires n >= 1
    ensures DifficultyOf(MinimumMoves(n)) ==
              if n <= 5 then Easy
              else if n <= 7 then Intermediate
              else if n <= 9 then Difficult
              else if n <= 11 then Expert
              else Master
  {
    assert Pow2(5) == 32 && Pow2(7) == 128 && Pow2(9) == 512 && Pow2(11) == 2048;
    forall k: nat | k == 5 || k == 7 || k == 9 || k == 11
      ensures n <= k <==> Pow2(n) <= Pow2(k)
    {
      if n < k { Pow2Increasing(n, k); }
      if n > k { Pow2Increasing(k, n); }
    }
  }

  /** The history records are numbered 1, 2, ... in order. */
  predicate Numbered(history: seq<MoveRecord>)
  {
    forall i :: 0 <= i < |history| ==> history[i].moveNumber == i + 1
  }

  /** Appending the record numbered one past the end keeps the history numbered. */
  lemma NumberedAppend(history: seq<MoveRecord>, record: MoveRecord)
    requires Numbered(history) && record.moveNumber == |history| + 1
    ensures Numbered(history + [record])
  {
  }

  /** The game invariant, on the values of the game's fields: every peg obeys the Hanoi
      rule; the pegs hold exactly the disks 1..N; the counter equals the length of the
      history, whose records are numbered 1, 2, ... and whose last snapshot is the current
      pegs; the score is the minimum for N; and the flag says whether the game is complete. */
  ghost predicate Consistent(towers: Towers, n: int, moveCount: int, bestScore: int,
                             history: seq<MoveRecord>, isComplete: bool)
  {
    WellFormed(towers) &&
    1 <= n <= 12 &&
    Disks(towers) == multiset(Stack(n)) &&
    moveCount == |history| &&
    Numbered(history) &&
    (history != [] ==> history[|history| - 1].towers == towers) &&
    bestScore == MinimumMoves(n) &&
    isComplete == Complete(towers, n)
  }

  /** The freshly initialized game is consistent. */
  lemma InitialConsistent(n: int)
    requires 1 <= n <= 12
    ensures Consistent([Stack(n), [], []], n, 0, MinimumMoves(n), [], false)
  {
    InitialPosition(n);
  }

  /** An accepted move, counted and recorded with a snapshot of the new pegs, keeps the
      game consistent; the flag is then re-evaluated on the new pegs. */
  lemma MoveKeepsConsistent(towers: Towers, n: int, moveCount: int, bestScore: int,
                            history: seq<MoveRecord>, isComplete: bool, from: int, to: int)
    requires Consistent(towers, n, moveCount, bestScore, history, isComplete)
    requires IsValidMove(towers, from, to).Accepted?
    ensures var after := Apply(towers, from, to);
            var record := MoveRecord(moveCount + 1, IsValidMove(towers, from, to).disk, from, to, after);
            Consistent(after, n, moveCount + 1, bestScore, history + [record], Complete(after, n))
  {
    var after := Apply(towers, from, to);
    var record := MoveRecord(moveCount + 1, IsValidMove(towers, from, to).disk, from, to, after);
    MoveKeepsInvariant(towers, from, to, n);
    NumberedAppend(history, record);
  }

  class HanoiTowerGame {
    var towers: Towers
    var numberOfDisks: int
    var moveCount: int
    var bestScore: int
    var gameHistory: seq<MoveRecord>
    var isGameComplete: bool

    /** The game invariant on the current fields (see Consistent). */
    ghost predicate Valid()
      reads this
    {
      Consistent(towers, numberOfDisks, moveCount, bestScore, gameHistory, isGameComplete)
    }

    /** The state right after initialization: N, ..., 1 on peg 0, the other pegs
        empty, no moves, no history, not complete, and the score 2^N - 1. */
    ghost predicate Initial()
      reads this
    {
      towers == [Stack(numberOfDisks), [], []] &&
      moveCount == 0 && gameHistory == [] && !isGameComplete &&
      bestScore == MinimumMoves(numberOfDisks)
    }

    /** A new game has three disks, freshly initialized. */
    constructor ()
      ensures Valid() && Initial() && numberOfDisks == 3
    {
      towers := [[], [], []];
      numberOfDisks := 3;
      moveCount := 0;
      bestScore := MinimumMoves(3);
      gameHistory := [];
      isGameComplete := false;
      new;
      InitializeGame();
    }

    /** In every valid state the flag is set exactly when all N disks sit on peg 1 in
        order N, ..., 1 and pegs 0 and 2 are empty. */
    lemma CompleteMeansSolved()
      requires Valid()
      ensures isGameComplete <==> Solved(towers, numberOfDisks)
    {
      CompleteIffSolved(towers, numberOfDisks);
    }

    /** Stacks N, ..., 1 one disk at a time to form peg 0, leaves pegs 1 and 2 empty,
        clears the counter, the history and the flag, and recomputes the minimum.
        Peg 0 is built in a local sequence and stored with the other two pegs at the end. */
    method InitializeGame()
      requires 1 <= numberOfDisks <= 12
      modifies this
      ensures Valid() && Initial()
      ensures numberOfDisks == old(numberOfDisks)
    {
      var n := numberOfDisks;
      var bottom: seq<int> := [];
      var i := n;
      while i >= 1
        invariant 0 <= i <= n
        invariant bottom + Stack(i) == Stack(n)
      {
        assert (bottom + [i]) + Stack(i - 1) == Stack(n) by {
          assert Stack(i) == [i] + Stack(i - 1);
        }
        bottom := bottom + [i];
        i := i - 1;
      }
      assert bottom == Stack(n) by {
        assert Stack(0) == [] && bottom + [] == bottom;
      }
      InitialConsistent(n);
      towers := [bottom, [], []];
      moveCount := 0;
      gameHistory := [];
      isGameComplete := false;
      bestScore := MinimumMoves(n);
    }

    /** Sets the flag from the pegs: complete when peg 1 holds N disks and pegs 0 and 2 are empty. */
    method CheckGameCompletion()
      requires |towers| == 3
      modifies this`isGameComplete
      ensures isGameComplete == Complete(towers, numberOfDisks)
    {
      isGameComplete := |towers[1]| == numberOfDisks && |towers[0]| == 0 && |towers[2]| == 0;
    }

    /** Validates the move; a rejected move changes nothing and reports the reason and the
        unchanged counter. An accepted move pops the top of `from`, pushes it on `to`,
        counts the move, records it in the history and re-evaluates completion.
        Moves are still accepted after the game is complete. */
    method MakeMove(from: int, to: int) returns (outcome: MoveOutcome)
      requires Valid()
      modifies this
      ensures Valid()
      ensures numberOfDisks == old(numberOfDisks) && bestScore == old(bestScore)
      ensures IsValidMove(old(towers), from, to).Refused? ==>
                outcome == Rejected(IsValidMove(old(towers), from, to).reason, old(moveCount)) &&
                towers == old(towers) && moveCount == old(moveCount) &&
                gameHistory == old(gameHistory) && isGameComplete == old(isGameComplete)
      ensures IsValidMove(old(towers), from, to).Accepted? ==>
                var disk := IsValidMove(old(towers), from, to).disk;
                towers == Apply(old(towers), from, to) &&
                moveCount == old(moveCount) + 1 &&
                gameHistory == old(gameHistory) + [MoveRecord(moveCount, disk, from, to, towers)] &&
                isGameComplete == Complete(towers, numberOfDisks) &&
                outcome == Moved(disk, from, to, moveCount, isGameComplete)
    {
      var validation := IsValidMove(towers, from, to);
      if validation.Refused? {
        return Rejected(validation.reason, moveCount);
      }
      MoveKeepsConsistent(towers, numberOfDisks, moveCount, bestScore, gameHistory, isGameComplete, from, to);
      ghost var after := Apply(towers, from, to);
      var pegs := towers;
      var source := pegs[from];
      var disk := source[|source| - 1];
      pegs := pegs[from := source[..|source| - 1]];  // pop
      pegs := pegs[to := pegs[to] + [disk]];         // push
      assert pegs == after;
      var record := MoveRecord(moveCount + 1, disk, from, to, pegs);
      towers, moveCount, gameHistory := pegs, moveCount + 1, gameHistory + [record];
      CheckGameCompletion();
      outcome := Moved(disk, from, to, moveCount, isGameComplete);
    }

    /** Accepts a disk count from 1 to 12, reinitializes the game for it and labels
        its difficulty; any other count is refused and nothing changes. */
    method SetNumberOfDisks(n: int) returns (outcome: SetupOutcome)
      requires Valid()
      modifies this
      ensures Valid()
      ensures (n < 1 || n > 12) ==>
                outcome == DiskCountOutOfRange &&
                towers == old(towers) && numberOfDisks == old(numberOfDisks) &&
                moveCount == old(moveCount) && bestScore == old(bestScore) &&
                gameHistory == old(gameHistory) && isGameComplete == old(isGameComplete)
      ensures 1 <= n <= 12 ==>
                numberOfDisks == n && Initial() &&
                outcome == Configured(MinimumMoves(n), DifficultyOf(MinimumMoves(n)))
    {
      if n < 1 || n > 12 {
        return DiskCountOutOfRange;
      }
      numberOfDisks := n;
      InitializeGame();
      var movesRequired := bestScore;
      var difficultyLevel := ClassifyDifficulty(movesRequired);
      outcome := Configured(bestScore, difficultyLevel);
    }

    /** The optimal solution for the configured disk count with the default roles
        (source 0, destination 1, auxiliary 2): it has exactly the precomputed minimum
        number of moves and, played from the initial position, it passes the validator
        at every move and completes the game. */
    function GetSolution(): (r: seq<SolutionMove>)
      reads this
      requires Valid()
      ensures |r| == bestScore
      ensures Replay([Stack(numberOfDisks), [], []], r) == Some([[], Stack(numberOfDisks), []])
    {
      SolutionSolvesGame(numberOfDisks);
      Solution(numberOfDisks, 0, 1, 2)
    }

    /** Starts the current game over: the state is the initial one for the current N,
        whatever moves were made before. Always succeeds. */
    method ResetGame() returns (success: bool)
      requires Valid()
      modifies this
      ensures Valid() && Initial() && numberOfDisks == old(numberOfDisks)
      ensures success
    {
      InitializeGame();
      success := true;
    }
  }
}
