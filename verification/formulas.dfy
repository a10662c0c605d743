/** The minimum-moves arithmetic of the Tower of Hanoi:
    the closed form T(n) = 2^n - 1, the recurrence T(1) = 1, T(n) = 2 T(n-1) + 1,
    and the cross-check that compares the two. */
module Formulas {

  /** 2^n on unbounded integers (the source uses floating-point exponentiation,
      which is exact for every n the game allows). */
  function Pow2(n: nat): (r: nat)
    ensures r >= 1
  {
    if n == 0 then 1 else 2 * Pow2(n - 1)
  }

  /** Closed form: no moves for n <= 0, otherwise 2^n - 1. */
  function MinimumMoves(n: int): (r: int)
    ensures r >= 0
    ensures n >= 1 ==> r >= n
  {
    if n <= 0 then 0 else PowerBound(n); Pow2(n) - 1
  }

  /** The recurrence T(1) = 1, T(n) = 2 T(n-1) + 1. The source only stops at
      n == 1, so it is defined for n >= 1 only. */
  function MinimumMovesRecursive(n: int): (r: int)
    requires n >= 1
    ensures r >= n
    decreases n
  {
    if n == 1 then 1 else 2 * MinimumMovesRecursive(n - 1) + 1
  }

  /** What the formula cross-check reports (its diagnostic text is not modelled). */
  datatype FormulaCheck = FormulaCheck(n: int, closedForm: int, recursiveForm: int, isValid: bool)

  /** Computes both forms and compares them; the comparison always succeeds. */
  function ValidateFormulas(n: int): (c: FormulaCheck)
    requires n >= 1
    ensures c.n == n && c.isValid
    ensures c.closedForm == Pow2(n) - 1 && c.recursiveForm == Pow2(n) - 1
  {
    var closedForm := MinimumMoves(n);
    var recursiveForm := MinimumMovesRecursive(n);
    FormulasAgree(n);
    FormulaCheck(n, closedForm, recursiveForm, closedForm == recursiveForm)
  }

  /** 2^n exceeds n. */
  lemma {:induction false} PowerBound(n: nat)
    ensures Pow2(n) > n
  {
    if n > 0 {
      PowerBound(n - 1);
    }
  }

  /** Proof by induction that the recurrence and the closed form agree:
      T(n) = 2 T(n-1) + 1 = 2 (2^(n-1) - 1) + 1 = 2^n - 1. */
  lemma {:induction false} FormulasAgree(n: int)
    requires n >= 1
    ensures MinimumMovesRecursive(n) == MinimumMoves(n) == Pow2(n) - 1
    decreases n
  {
    if n > 1 {
      FormulasAgree(n - 1);
    }
  }

  /** 2^n grows strictly with n. */
  lemma {:induction false} Pow2Increasing(m: nat, n: nat)
    requires m < n
    ensures Pow2(m) < Pow2(n)
    decreases n
  {
    if m < n - 1 {
      Pow2Increasing(m, n - 1);
    }
  }
}
