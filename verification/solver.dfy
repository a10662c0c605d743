/** The recursive optimal solver and the replay of a move list through the
    validator and the pop/push step. */
module Solver {
  import opened Formulas
  import opened Rules

  datatype Option<T> = None | Some(value: T)

  /** One step of a solution: which disk goes from which peg to which
      (its human-readable description is not modelled). */
  datatype SolutionMove = SolutionMove(disk: int, from: int, to: int)

  /** The classic recursion: move n-1 disks out of the way onto the auxiliary peg,
      move disk n, then move the n-1 disks back on top of it. The source only stops
      at n == 1, so it is defined for n >= 1. */
  function Solution(n: int, source: int, destination: int, auxiliary: int): (r: seq<SolutionMove>)
    requires n >= 1
    ensures r != []
    decreases n
  {
    if n == 1 then [SolutionMove(1, source, destination)]
    else
      Solution(n - 1, source, auxiliary, destination)
      + [SolutionMove(n, source, destination)]
      + Solution(n - 1, auxiliary, destination, source)
  }

  /** The n-disk solution has 2^n - 1 moves, its middle move carries disk n from the
      source to the destination, and every move names one of the disks 1..n. */
  lemma {:induction false} SolutionShape(n: int, source: int, destination: int, auxiliary: int)
    requires n >= 1
    ensures var r := Solution(n, source, destination, auxiliary);
            |r| == Pow2(n) - 1 &&
            r[Pow2(n - 1) - 1] == SolutionMove(n, source, destination) &&
            forall m :: m in r ==> 1 <= m.disk <= n
    decreases n
  {
    if n > 1 {
      SolutionShape(n - 1, source, auxiliary, destination);
      SolutionShape(n - 1, auxiliary, destination, source);
    }
  }

  /** Plays the moves one after another from `t`: each must pass the validator and
      name the disk that it actually moves; the first move that does not makes the
      replay fail. */
  function Replay(t: Towers, moves: seq<SolutionMove>): (r: Option<Towers>)
    requires |t| == 3
    ensures r.Some? ==> |r.value| == 3
    decreases |moves|
  {
    if moves == [] then Some(t)
    else
      var m := moves[0];
      match IsValidMove(t, m.from, m.to)
      case Refused(_) => None
      case Accepted(disk) =>
        if disk == m.disk then Replay(Apply(t, m.from, m.to), moves[1..]) else None
  }

  /** Replaying two lists is replaying the first, then the second from where it ended. */
  lemma {:induction false} ReplayAppend(t: Towers, xs: seq<SolutionMove>, ys: seq<SolutionMove>)
    requires |t| == 3
    ensures Replay(t, xs + ys) == (match Replay(t, xs) case None => None case Some(u) => Replay(u, ys))
    decreases |xs|
  {
    if xs != [] {
      assert (xs + ys)[0] == xs[0] && (xs + ys)[1..] == xs[1..] + ys;
      var m := xs[0];
      match IsValidMove(t, m.from, m.to)
      case Refused(_) =>
      case Accepted(disk) =>
        if disk == m.disk {
          ReplayAppend(Apply(t, m.from, m.to), xs[1..], ys);
        }
    } else {
      assert xs + ys == ys;
    }
  }

  /** Once the first list has replayed to `u`, the rest replays from `u`. */
  lemma ReplayThen(t: Towers, xs: seq<SolutionMove>, ys: seq<SolutionMove>, u: Towers)
    requires |t| == 3 && Replay(t, xs) == Some(u)
    ensures Replay(t, xs + ys) == Replay(u, ys)
  {
    ReplayAppend(t, xs, ys);
  }

  /** Every replay that succeeds keeps each peg obeying the Hanoi rule and
      neither creates nor loses a disk. */
  lemma {:induction false} ReplayPreservesRules(t: Towers, moves: seq<SolutionMove>)
    requires WellFormed(t) && Replay(t, moves).Some?
    ensures WellFormed(Replay(t, moves).value)
    ensures Disks(Replay(t, moves).value) == Disks(t)
    decreases |moves|
  {
    if moves != [] {
      var m := moves[0];
      MovePreservesRules(t, m.from, m.to);
      ApplyKeepsDisks(t, m.from, m.to);
      ReplayPreservesRules(Apply(t, m.from, m.to), moves[1..]);
    }
  }

  /** The three roles name the three pegs. */
  predicate Roles(source: int, destination: int, auxiliary: int)
  {
    InRange(source) && InRange(destination) && InRange(auxiliary) &&
    source != destination && destination != auxiliary && source != auxiliary
  }

  /** A single move of disk n off the top of `from` onto pegs holding only larger
      disks passes the validator and names the disk it moves. */
  lemma OneMove(t: Towers, from: int, to: int, base: seq<int>, n: int, rest: seq<SolutionMove>)
    requires |t| == 3 && InRange(from) && InRange(to) && from != to
    requires t[from] == base + [n]
    requires forall x :: x in t[to] ==> x > n
    ensures Replay(t, [SolutionMove(n, from, to)] + rest)
            == Replay(t[from := base][to := t[to] + [n]], rest)
  {
    var moves := [SolutionMove(n, from, to)] + rest;
    assert moves[0] == SolutionMove(n, from, to) && moves[1..] == rest;
    if t[to] != [] {
      assert Top(t[to]) in t[to];
    }
    assert IsValidMove(t, from, to) == Accepted(n);
    assert t[from][..|t[from]| - 1] == base;
    assert Apply(t, from, to) == t[from := base][to := t[to] + [n]];
  }

  /** The situation in which the n-disk solution may run: the top of `source` holds
      n, ..., 1 on top of `base`, and every other disk in play is larger than n. */
  predicate CanCarry(n: int, source: int, destination: int, auxiliary: int, t: Towers, base: seq<int>)
  {
    n >= 1 && |t| == 3 && Roles(source, destination, auxiliary) &&
    t[source] == base + Stack(n) &&
    (forall x :: x in base ==> x > n) &&
    (forall x :: x in t[destination] ==> x > n) &&
    (forall x :: x in t[auxiliary] ==> x > n)
  }

  /** The pegs once n, ..., 1 have gone from the top of `source` (leaving `base`)
      onto the top of `destination`. */
  function Carried(t: Towers, source: int, destination: int, base: seq<int>, n: int): (r: Towers)
    requires |t| == 3 && InRange(source) && InRange(destination)
    ensures |r| == 3
  {
    t[source := base][destination := t[destination] + Stack(n)]
  }

  /** The core of the solver's correctness: when the top of `source` holds n, ..., 1
      and every other disk in play is larger than n, the n-disk solution replays
      without a rejected move and carries exactly those n disks onto `destination`,
      leaving every other disk where it was. */
  lemma {:induction false} SolutionMovesStack(n: int, source: int, destination: int, auxiliary: int,
                                              t: Towers, base: seq<int>)
    requires CanCarry(n, source, destination, auxiliary, t, base)
    ensures Replay(t, Solution(n, source, destination, auxiliary))
            == Some(Carried(t, source, destination, base, n))
    decreases n
  {
    var s, d, a := source, destination, auxiliary;
    if n == 1 {
      OneDisk(s, d, a, t, base);
    } else {
      // Step 1: n-1 disks from the source onto the auxiliary peg.
      ClearSource(n, s, d, a, t, base);
      SolutionMovesStack(n - 1, s, a, d, t, base + [n]);
      var t1 := Carried(t, s, a, base + [n], n - 1);
      // Step 2: disk n from the source onto the destination.
      var t2 := t1[s := base][d := t1[d] + [n]];
      FirstTwoSteps(n, s, d, a, t, base, t1, t2);
      // Step 3: n-1 disks from the auxiliary peg onto disk n.
      LastStepReady(n, s, d, a, t, base, t1, t2);
      SolutionMovesStack(n - 1, a, d, s, t2, t[a]);
    }
  }

  /** The one-disk solution is a single legal move. */
  lemma OneDisk(s: int, d: int, a: int, t: Towers, base: seq<int>)
    requires CanCarry(1, s, d, a, t, base)
    ensures Replay(t, Solution(1, s, d, a)) == Some(Carried(t, s, d, base, 1))
  {
    assert Stack(1) == [1];
    assert Solution(1, s, d, a) == [SolutionMove(1, s, d)] + [];
    OneMove(t, s, d, base, 1, []);
  }

  /** Before step 1 the source holds n-1, ..., 1 on top of disk n, which sits on `base`,
      and every disk on the other pegs is larger than n - 1. */
  lemma ClearSource(n: int, s: int, d: int, a: int, t: Towers, base: seq<int>)
    requires CanCarry(n, s, d, a, t, base) && n >= 2
    ensures CanCarry(n - 1, s, a, d, t, base + [n])
  {
  }

  /** Before step 3 the auxiliary peg holds n-1, ..., 1 on its old disks and every other
      disk in play is larger than n-1; moving those n-1 disks onto the destination then
      leaves the pegs the n-disk solution promises. */
  lemma LastStepReady(n: int, s: int, d: int, a: int, t: Towers, base: seq<int>, t1: Towers, t2: Towers)
    requires CanCarry(n, s, d, a, t, base) && n >= 2
    requires t1 == t[s := base + [n]][a := t[a] + Stack(n - 1)]
    requires t2 == t1[s := base][d := t1[d] + [n]]
    ensures CanCarry(n - 1, a, d, s, t2, t[a])
    ensures Carried(t2, a, d, t[a], n - 1) == Carried(t, s, d, base, n)
  {
    Recombine(t, s, d, a, base, n, Stack(n - 1));
    assert Stack(n) == [n] + Stack(n - 1);
  }

  /** Once step 1 has replayed to `t1`, the move of disk n from the source onto the
      destination is legal, and the rest of the n-disk solution is step 3 from `t2`. */
  lemma FirstTwoSteps(n: int, s: int, d: int, a: int, t: Towers, base: seq<int>, t1: Towers, t2: Towers)
    requires CanCarry(n, s, d, a, t, base) && n >= 2
    requires t1 == t[s := base + [n]][a := t[a] + Stack(n - 1)]
    requires t2 == t1[s := base][d := t1[d] + [n]]
    requires Replay(t, Solution(n - 1, s, a, d)) == Some(t1)
    ensures Replay(t, Solution(n, s, d, a)) == Replay(t2, Solution(n - 1, a, d, s))
  {
    var first := Solution(n - 1, s, a, d);
    var middle := SolutionMove(n, s, d);
    var second := Solution(n - 1, a, d, s);
    assert Solution(n, s, d, a) == first + ([middle] + second);
    ReplayThen(t, first, [middle] + second, t1);
    assert t1[s] == base + [n] && t1[d] == t[d];
    OneMove(t1, s, d, base, n, second);
  }

  /** The bookkeeping of the three steps on the pegs: after step 2, the auxiliary peg
      holds `rest` on its old disks and disk n sits on the destination; moving `rest`
      onto it gives the destination `[n] + rest`. */
  lemma Recombine(t: Towers, s: int, d: int, a: int, base: seq<int>, n: int, rest: seq<int>)
    requires |t| == 3 && Roles(s, d, a)
    ensures var t1 := t[s := base + [n]][a := t[a] + rest];
            var t2 := t1[s := base][d := t1[d] + [n]];
            t2[a] == t[a] + rest && t2[d] == t[d] + [n] && t2[s] == base &&
            t2[a := t[a]][d := t2[d] + rest] == t[s := base][d := t[d] + ([n] + rest)]
  {
    var t1 := t[s := base + [n]][a := t[a] + rest];
    var t2 := t1[s := base][d := t1[d] + [n]];
    var t3 := t2[a := t[a]][d := t2[d] + rest];
    var final := t[s := base][d := t[d] + ([n] + rest)];
    forall k | 0 <= k < 3 ensures t3[k] == final[k] {
      if k == d {
        assert t3[k] == (t[d] + [n]) + rest;
      }
    }
  }

  /** Replayed from the initial position, the solution for the configured disk count
      passes the validator at every one of its 2^n - 1 moves and ends in the completed
      game, with N, ..., 1 on peg 1. */
  lemma SolutionSolvesGame(n: int)
    requires n >= 1
    ensures |Solution(n, 0, 1, 2)| == MinimumMoves(n)
    ensures Solution(n, 0, 1, 2)[Pow2(n - 1) - 1] == SolutionMove(n, 0, 1)
    ensures Replay([Stack(n), [], []], Solution(n, 0, 1, 2)) == Some([[], Stack(n), []])
    ensures Complete([[], Stack(n), []], n)
  {
    SolutionShape(n, 0, 1, 2);
    var t: Towers := [Stack(n), [], []];
    assert t[0] == [] + Stack(n);
    SolutionMovesStack(n, 0, 1, 2, t, []);
    assert Carried(t, 0, 1, [], n) == t[0 := []][1 := t[1] + Stack(n)];
    assert t[0 := []][1 := t[1] + Stack(n)] == [[], Stack(n), []];
  }

  /** The three-disk solution, move by move. */
  lemma SolutionForThreeDisks()
    ensures Solution(3, 0, 1, 2) == [
      SolutionMove(1, 0, 1), SolutionMove(2, 0, 2), SolutionMove(1, 1, 2), SolutionMove(3, 0, 1),
      SolutionMove(1, 2, 0), SolutionMove(2, 2, 1), SolutionMove(1, 0, 1)]
  {
  }
}
