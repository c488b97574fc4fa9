/** The LP relaxation as seen by the branch-and-bound driver: an opaque
    oracle that maps a constraint system to a status, an objective value
    and a solution vector. */
module Relaxation {

  /** Status codes reported by the relaxation solver and propagated by the search. */
  const Optimal: int := 0
  const IterationLimit: int := 1
  const Infeasible: int := 2
  const Unbounded: int := 3

  /** The incumbent objective: +infinity before any integral solution is found. */
  datatype Extended = PosInf | Finite(value: real)

  /** `v < e` with `e` possibly +infinity. */
  predicate Below(v: real, e: Extended) {
    e.PosInf? || v < e.value
  }

  /** `a <= b` on extended reals. */
  predicate AtMost(a: Extended, b: Extended) {
    b.PosInf? || (a.Finite? && a.value <= b.value)
  }

  /** What one relaxation call returns: status, objective value and solution. */
  datatype LpResult = LpResult(status: int, fun: real, x: seq<real>)

  /** The relaxation solver, called with the rows of A, the right-hand sides b and the costs c. */
  type Oracle = (seq<seq<real>>, seq<real>, seq<real>) -> LpResult

  /** Whenever the solver reports a solution (status 0 or 1), it has one value per variable. */
  ghost predicate OracleFits(oracle: Oracle, c: seq<real>, n: nat) {
    forall rows: seq<seq<real>>, rhs: seq<real> ::
      oracle(rows, rhs, c).status <= IterationLimit ==> |oracle(rows, rhs, c).x| == n
  }
}
