/** The pegs, the move rule and its validator, the pop/push step of a move,
    and the completion test. */
module Rules {

  /** Three pegs; each lists its disk sizes bottom to top (the top is the last element). */
  type Towers = seq<seq<int>>

  /** The disks N, N-1, ..., 1, bottom to top: the starting peg of an N-disk game. */
  function Stack(n: int): (r: seq<int>)
    ensures |r| == if n <= 0 then 0 else n
    decreases n
  {
    if n <= 0 then [] else [n] + Stack(n - 1)
  }

  /** Stack(n) holds only disks from 1 to n. */
  lemma {:induction false} StackBounds(n: int)
    ensures forall x :: x in Stack(n) ==> 1 <= x <= n
    decreases n
  {
    if n > 0 {
      StackBounds(n - 1);
    }
  }

  /** Stack(n) obeys the Hanoi rule. */
  lemma {:induction false} StackDecreasing(n: int)
    ensures Decreasing(Stack(n))
    decreases n
  {
    if n > 0 {
      var rest := Stack(n - 1);
      StackDecreasing(n - 1);
      StackBounds(n - 1);
      assert forall j :: 0 <= j < |rest| ==> rest[j] in rest;
    }
  }

  /** The Hanoi rule for one peg: sizes strictly decrease from bottom to top. */
  predicate Decreasing(p: seq<int>)
  {
    forall i, j :: 0 <= i < j < |p| ==> p[i] > p[j]
  }

  /** Three pegs, each obeying the Hanoi rule. */
  predicate WellFormed(t: Towers)
  {
    |t| == 3 && Decreasing(t[0]) && Decreasing(t[1]) && Decreasing(t[2])
  }

  /** All the disks on the three pegs. */
  function Disks(t: Towers): multiset<int>
    requires |t| == 3
  {
    multiset(t[0]) + multiset(t[1]) + multiset(t[2])
  }

  predicate InRange(peg: int)
  {
    0 <= peg <= 2
  }

  function Top(p: seq<int>): int
    requires p != []
  {
    p[|p| - 1]
  }

  /** Why a move is refused. */
  datatype Reason =
    | OutOfRange                             // a peg index outside [0, 2]
    | SourceEmpty                            // nothing to take from the source peg
    | SamePeg                                // source and destination coincide
    | LargerOnSmaller(disk: int, onto: int)  // the moved disk is not smaller than the destination's top

  datatype Validation = Accepted(disk: int) | Refused(reason: Reason)

  /** The rule a move must obey, stated without reference to the order of the checks:
      two distinct pegs, a disk to take, and the destination still obeys the
      Hanoi rule once that disk is placed on it. */
  predicate LegalMove(t: Towers, from: int, to: int)
    requires |t| == 3
  {
    InRange(from) && InRange(to) && from != to && t[from] != [] &&
    Decreasing(t[to] + [Top(t[from])])
  }

  /** The validator. Its checks run in a fixed order and the first failure wins:
      peg range, then an empty source, then source equal to destination;
      a move onto an empty peg is accepted, otherwise the moved disk must be
      smaller than the destination's top. An accepted move names the moved disk. */
  function IsValidMove(t: Towers, from: int, to: int): (v: Validation)
    requires |t| == 3
    ensures v == Refused(OutOfRange) <==> !(InRange(from) && InRange(to))
    ensures v == Refused(SourceEmpty) <==> InRange(from) && InRange(to) && t[from] == []
    ensures v == Refused(SamePeg) <==> InRange(from) && InRange(to) && t[from] != [] && from == to
    ensures v.Accepted? <==> InRange(from) && InRange(to) && t[from] != [] && from != to &&
                             (t[to] == [] || Top(t[from]) < Top(t[to]))
    ensures v.Accepted? ==> v.disk == Top(t[from])
    ensures v.Refused? && v.reason.LargerOnSmaller? ==>
              InRange(from) && InRange(to) && t[from] != [] && t[to] != [] && from != to &&
              v.reason == LargerOnSmaller(Top(t[from]), Top(t[to])) && Top(t[from]) >= Top(t[to])
  {
    if !InRange(from) || !InRange(to) then Refused(OutOfRange)
    else if t[from] == [] then Refused(SourceEmpty)
    else if from == to then Refused(SamePeg)
    else
      var diskToMove := Top(t[from]);
      if t[to] == [] then Accepted(diskToMove)
      else
        var topDiskOnDestination := Top(t[to]);
        if diskToMove < topDiskOnDestination then Accepted(diskToMove)
        else Refused(LargerOnSmaller(diskToMove, topDiskOnDestination))
  }

  /** On pegs that obey the Hanoi rule, the validator accepts exactly the legal moves. */
  lemma ValidatorMatchesRule(t: Towers, from: int, to: int)
    requires WellFormed(t)
    ensures IsValidMove(t, from, to).Accepted? <==> LegalMove(t, from, to)
  {
    if InRange(from) && InRange(to) && from != to && t[from] != [] {
      var p, x := t[to], Top(t[from]);
      if p != [] && x < Top(p) {
        forall i, j | 0 <= i < j < |p + [x]| ensures (p + [x])[i] > (p + [x])[j] {
          if j == |p| {
            assert p[i] >= p[|p| - 1];
          }
        }
      }
      if p != [] && !(x < Top(p)) {
        assert (p + [x])[|p| - 1] == Top(p) && (p + [x])[|p|] == x;
        assert !Decreasing(p + [x]);
      }
    }
  }

  /** Three disks: disk 1 may go from peg 0 to peg 1, after which disk 2 may not follow it. */
  lemma ValidatorExample()
    ensures IsValidMove([[3, 2, 1], [], []], 0, 1) == Accepted(1)
    ensures IsValidMove([[3, 2], [1], []], 0, 1) == Refused(LargerOnSmaller(2, 1))
  {
  }

  /** Takes the top disk off `from` and puts it on top of `to`; the third peg is untouched. */
  function Apply(t: Towers, from: int, to: int): (r: Towers)
    requires |t| == 3 && InRange(from) && InRange(to) && from != to && t[from] != []
    ensures |r| == 3
    ensures r[from] + [Top(t[from])] == t[from]
    ensures r[to] == t[to] + [Top(t[from])]
    ensures forall k :: 0 <= k < 3 && k != from && k != to ==> r[k] == t[k]
  {
    var source := t[from];
    var disk := source[|source| - 1];
    t[from := source[..|source| - 1]][to := t[to] + [disk]]
  }

  /** A move neither creates nor loses a disk. */
  lemma ApplyKeepsDisks(t: Towers, from: int, to: int)
    requires |t| == 3 && InRange(from) && InRange(to) && from != to && t[from] != []
    ensures Disks(Apply(t, from, to)) == Disks(t)
  {
  }

  /** A move the validator accepts keeps every peg obeying the Hanoi rule. */
  lemma MovePreservesRules(t: Towers, from: int, to: int)
    requires WellFormed(t) && IsValidMove(t, from, to).Accepted?
    ensures WellFormed(Apply(t, from, to))
  {
  }

  /** A move the validator accepts, made on pegs that obey the Hanoi rule and hold the
      disks 1..n, leaves pegs that still do. */
  lemma MoveKeepsInvariant(t: Towers, from: int, to: int, n: int)
    requires WellFormed(t) && n >= 0 && Disks(t) == multiset(Stack(n))
    requires IsValidMove(t, from, to).Accepted?
    ensures WellFormed(Apply(t, from, to)) && Disks(Apply(t, from, to)) == multiset(Stack(n))
  {
    MovePreservesRules(t, from, to);
    ApplyKeepsDisks(t, from, to);
  }

  /** The game is complete when peg 1 holds N disks and pegs 0 and 2 are empty. */
  predicate Complete(t: Towers, n: int)
    requires |t| == 3
  {
    |t[1]| == n && t[0] == [] && t[2] == []
  }

  /** Peg 1 holds N, ..., 1 bottom to top and the other pegs are empty. */
  predicate Solved(t: Towers, n: int)
    requires |t| == 3
  {
    t[0] == [] && t[1] == Stack(n) && t[2] == []
  }

  /** With the disks 1..N on pegs that obey the Hanoi rule, completion means
      that peg 1 holds exactly N, ..., 1 in order and the other pegs are empty. */
  lemma CompleteIffSolved(t: Towers, n: int)
    requires WellFormed(t) && n >= 0 && Disks(t) == multiset(Stack(n))
    ensures Complete(t, n) <==> Solved(t, n)
  {
    if Complete(t, n) {
      assert multiset(t[1]) == multiset(Stack(n));
      DecreasingUnique(t[1], n);
    }
  }

  /** The starting position obeys the rule, holds the disks 1..n and is not complete. */
  lemma InitialPosition(n: int)
    requires n >= 1
    ensures WellFormed([Stack(n), [], []])
    ensures Disks([Stack(n), [], []]) == multiset(Stack(n))
    ensures !Complete([Stack(n), [], []], n)
  {
    var t: Towers := [Stack(n), [], []];
    StackDecreasing(n);
    assert t[0] == Stack(n) && t[1] == [] && t[2] == [];
  }

  /** Every disk from 1 to n is on Stack(n) (the converse is StackBounds). */
  lemma {:induction false} StackHolds(n: int, x: int)
    requires 1 <= x <= n
    ensures x in Stack(n)
    decreases n
  {
    if x < n {
      StackHolds(n - 1, x);
    }
  }

  /** On a peg obeying the Hanoi rule that holds the disks 1..n, disk n is at the bottom. */
  lemma LargestAtBottom(s: seq<int>, n: int)
    requires Decreasing(s) && n >= 1 && multiset(s) == multiset(Stack(n))
    ensures s != [] && s[0] == n
  {
    StackHolds(n, n);
    assert n in multiset(s);
    var i :| 0 <= i < |s| && s[i] == n;
    assert s[0] in multiset(Stack(n));
    assert s[0] in Stack(n);
    StackBounds(n);
    BottomIsLargest(s, i);
  }

  /** The bottom disk of a peg obeying the Hanoi rule is its largest. */
  lemma BottomIsLargest(s: seq<int>, i: int)
    requires Decreasing(s) && 0 <= i < |s|
    ensures s[0] >= s[i]
  {
  }

  /** Taking disk n off the bottom of such a peg leaves a peg obeying the rule with 1..n-1. */
  lemma RestAboveBottom(s: seq<int>, n: int)
    requires Decreasing(s) && n >= 1 && multiset(s) == multiset(Stack(n))
    ensures s != [] && s[0] == n
    ensures Decreasing(s[1..]) && multiset(s[1..]) == multiset(Stack(n - 1))
  {
    LargestAtBottom(s, n);
    assert s == [n] + s[1..];
    assert Stack(n) == [n] + Stack(n - 1);
    CancelFront(n, s[1..], Stack(n - 1));
  }

  /** Removing the same first element from two sequences with the same elements
      leaves sequences with the same elements. */
  lemma CancelFront(x: int, a: seq<int>, b: seq<int>)
    requires multiset([x] + a) == multiset([x] + b)
    ensures multiset(a) == multiset(b)
  {
    assert multiset([x] + a) == multiset{x} + multiset(a);
    assert multiset([x] + b) == multiset{x} + multiset(b);
    assert multiset(a) == multiset([x] + a) - multiset{x};
  }

  /** A peg holding none of the disks is empty. */
  lemma EmptyPeg(s: seq<int>)
    requires multiset(s) == multiset(Stack(0))
    ensures s == Stack(0)
  {
    assert Stack(0) == [];
    assert |s| == |multiset(s)| == 0;
  }

  /** A peg obeying the Hanoi rule is determined by its disks: holding 1..n, it is Stack(n). */
  lemma {:induction false} DecreasingUnique(s: seq<int>, n: nat)
    requires Decreasing(s) && multiset(s) == multiset(Stack(n))
    ensures s == Stack(n)
    decreases n
  {
    if n == 0 {
      EmptyPeg(s);
    } else {
      var tail := s[1..];
      assert s == [n] + tail && Decreasing(tail) && multiset(tail) == multiset(Stack(n - 1)) by {
        RestAboveBottom(s, n);
      }
      DecreasingUnique(tail, n - 1);
      assert Stack(n) == [n] + Stack(n - 1);
    }
  }
}
