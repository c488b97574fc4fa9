# Branch-and-bound for integer linear programs

This project models the search driver of a small branch-and-bound solver for
`min c^T x  s.t.  A x <= b, x >= 0, x integer`. Each node of the search tree
solves the LP relaxation of its constraint system and stops on a relaxation
status above 1. It also stops when the relaxation is no better than the
incumbent (the best integral objective so far). An all-integral relaxation
that is strictly better replaces the incumbent. Otherwise the node branches on
the first fractional coordinate `x_j = v`. Two children are built, each being
the parent's rows plus one unit row: `-x_j <= -ceil(v)` and `x_j <= floor(v)`.
The ceil child is explored first, then the floor child, and the two statuses
are combined. The top-level solve resets the incumbent to `+infinity` and the
zero vector, visits the root, and returns the minimum, its solution and the
root status.

Files and modules:

- `relaxation.dfy` (`Relaxation`): the status codes and the extended reals
  used for the incumbent (`PosInf | Finite`). It also holds the LP relaxation
  as a function parameter `Oracle`, which maps `(rows, rhs, c)` to
  `LpResult(status, fun, x)`.
- `integrality.dfy` (`Integrality`): the exact `int(v) != v` test (truncation
  toward zero), floor and ceil, the reference function `FirstFractional` and
  the scanning loop `ScanIntegrality`.
- `branching.dfy` (`Branching`): constraint systems and the children. The
  method `AppendBoundRow` builds a child's row column by column. The file also
  has the regions the children cut out (via `Satisfies`) and the status
  combine.
- `search.dfy` (`Search`): the reference function `Explore`, the lemmas about
  it, the class `IncumbentTracker` and the methods `SolverIteration` and
  `Solver`. `Explore` gives a visit's status, the incumbent afterwards and the
  trace of systems relaxed, in call order. The class holds the program's
  global `min_global` and `x_global`. `SolverIteration` is the recursive
  visit that updates the tracker in place, and `Solver` is the top-level
  solve. Both methods are proved equal to `Explore`.

## Model

| member | source | states |
|---|---|---|
| Integrality.Truncate | utils.py:57 | `int()` on a float truncates toward zero: the result lies within one of `v`, on the side of zero |
| Integrality.Floor | utils.py:77 | the result is the largest integer not above `v` |
| Integrality.Ceil | utils.py:76 | the result is the smallest integer not below `v` |
| Integrality.IntegralIffFloor | utils.py:57 | the scan's exact truncation test and the floor test agree: `IsIntegral(v) <==> floor(v) == v` |
| Integrality.FractionalRounding | utils.py:76-77 | for a fractional `v`: `floor(v) < v < ceil(v)` and `floor(v) + 1 == ceil(v)` |
| Integrality.NoIntegerBetween | utils.py:76-79 | every integer `k` satisfies `k <= floor(v)` or `k >= ceil(v)` when `v` is fractional |
| Integrality.FirstFractional | utils.py:55-60 | the result is `Some(j)` with `x[j]` fractional and every earlier value integral, and it is `None` exactly when every value is integral |
| Integrality.ScanIntegrality | utils.py:46-60 | `flag` holds exactly when every value is integral. Then `index` is `|x| - 1` (-1 for an empty vector); otherwise `index` is the first fractional position |
| Branching.AppendBoundRow | utils.py:80-93 | the new table is the old rows unchanged plus one row of width `n`, with `coef` at column `j` and 0 elsewhere; the new right-hand sides are the old ones plus `bound` |
| Branching.ChildrenShape | utils.py:80-110 | each child keeps every parent row and right-hand side in order, has exactly one row more, and stays of width `n` |
| Branching.CeilChildRegion | utils.py:79-93 | a point satisfies the ceil child exactly when it satisfies the parent and `x_j >= ceil(v)` |
| Branching.FloorChildRegion | utils.py:97-110 | a point satisfies the floor child exactly when it satisfies the parent and `x_j <= floor(v)` |
| Branching.BranchPartition | utils.py:76-110 | for fractional `v` the two children are disjoint, and together they are the parent's region minus the open strip `floor(v) < x_j < ceil(v)`. Every point of the parent with an integral `x_j` stays in one of them, and the point with `x_j = v` is in neither |
| Branching.RefinesSatisfies | utils.py:80-110 | a point satisfying a system that keeps all rows of another satisfies that other system |
| Branching.Combine | utils.py:118-121 | the result is 0 exactly when either child's status is 0, otherwise the larger of the two; it stays within 0..3 when both inputs do |
| Search.Explore | utils.py:23-121 | the reference visit. It relaxes the node, returns a status above 1 as is, and returns the status when `fun` is not strictly below the incumbent. An all-integral solution that is strictly below replaces the incumbent. Otherwise it visits the ceil child and then the floor child of the first fractional coordinate, the floor child from the incumbent the ceil subtree left, and combines the two statuses. It also records the systems relaxed, in call order. A node that would branch when the depth budget is spent reports status 1 |
| Search.Branches | utils.py:51-73 | a node branches exactly when its status is 0 or 1, `fun` is strictly below the incumbent, some coordinate is fractional, and depth is left |
| Integrality.IsIntegral | utils.py:57 | a value counts as integral exactly when truncating it toward zero gives it back (`int(i) == i`) |
| Branching.CeilChild | utils.py:76-95 | the ceil child: the parent's rows plus the unit row `-e_j`, and the parent's right-hand sides plus `-ceil(v)` |
| Branching.FloorChild | utils.py:97-113 | the floor child: the parent's rows plus the unit row `e_j`, and the parent's right-hand sides plus `floor(v)` |
| Branching.ChildRows | utils.py:79-110 | the row the ceil child appends has `n` entries, -1 at column `j` and 0 elsewhere, with right-hand side `-ceil(v)`. The floor child's row has 1 at column `j` and 0 elsewhere, with right-hand side `floor(v)` |
| Search.ExploreHead | utils.py:43 | a visit's first relaxation is of its own system |
| Search.ExploreTrace | utils.py:76-113 | every system relaxed during a visit keeps the visited system's rows and right-hand sides as a prefix |
| Search.ExploreShape | utils.py:80-110 | when the visited system is well shaped (width `n`), so is every system relaxed below it |
| Search.ExploreNode | utils.py:51-73 | a node branches exactly when its status is 0 or 1, `fun` is strictly below the incumbent and some coordinate is fractional (with depth left). A status above 1, a `fun` not below the incumbent, or an all-integral solution makes the node relax only itself and return its own status. The incumbent is replaced only in the last case, and only when status and bound allow it |
| Search.ExploreOrder | utils.py:95-121 | a branching node visits the ceil child right after itself and the floor child right after the whole ceil subtree. The floor child starts from the incumbent the ceil subtree left, and the status is the combine of the two |
| Search.ExploreIncumbent | utils.py:66-69 | the incumbent never increases. When it changes, the new value is strictly better, all-integral, and equal to the `fun` and `x` of a status-0-or-1 relaxation made during the visit |
| Search.ExploreStatusRange | utils.py:118-121 | the visit's status lies in 0..3 whenever every relaxation made during it does |
| Search.ExploreStatusOptimal | utils.py:118-121 | the visit's status is 0 only if some relaxation made during it returned 0 |
| Search.CutOff | utils.py:95-113 | some node of the visit would branch where the depth budget is already spent |
| Search.ExploreBudget | utils.py:95-113 | when no node is cut off, every larger budget gives the same status, incumbent and trace. So whenever the source's recursion ends, a large enough budget reproduces it |
| Search.IncumbentTracker.constructor | utils.py:141-145 | the reset before a solve: minimum `+infinity`, solution the zero vector of length `n` |
| Search.SolverIteration | utils.py:23-121 | the recursive visit returns the status of `Explore` and leaves the tracker holding `Explore`'s incumbent, starting from the tracker's old value |
| Search.VisitChildren | utils.py:75-121 | builds and visits the ceil child, then the floor child from the incumbent the first visit left. It returns the combine of the two `Explore` statuses and leaves the tracker at the floor visit's incumbent |
| Search.Solver | utils.py:141-151 | returns `Explore`'s incumbent and root status from the reset incumbent. The solution has `n` entries and is the zero vector while the minimum is `+infinity`. Otherwise it is all-integral and is the solution of a status-0-or-1 relaxation of a system that keeps all rows of `(A, b)` |

## Left out

- The LP solver itself (`linprog`, utils.py:43) is a function parameter. The model assumes only what its interface promises: whenever the status is 0 or 1, the solution has one value per variable (`OracleFits`). Nothing is claimed about LP optimality, or that the final incumbent is the integer optimum.
- Whether the final incumbent satisfies `A x <= b` depends on the oracle. The model proves that the solution was returned for a system keeping every row of `(A, b)`, and `RefinesSatisfies` carries feasibility for that system back to the root.
- Reading `A`, `b` and `c` from CSV files (utils.py:136-138) is file I/O. The column count of `A` is the parameter `n`.
- Console output (utils.py:58, 87, 157) and the `__main__` block (utils.py:154-157) are not modelled.
- The data-frame mechanics are reduced to their effect of appending one row: `DataFrame(data=A)`, the placeholder row at utils.py:86, `.loc` enlargement and `b.copy()`. Rows are `seq<seq<real>>` and right-hand sides `seq<real>`, so parent systems cannot be changed by building a child.
- Floating point is replaced by exact reals. The `isinstance(i, int)` guard (utils.py:57) is a Python type detail, since the truncation test alone decides integrality.
- The status gate follows the code: status 1 (iteration limit) passes the gate of utils.py:51 and is treated like status 0. The integrality test is exact, with no tolerance.
- Search.SolverIteration: the source has no depth bound. The model takes a `depth` budget. A node that would branch once the budget is spent returns status 1 and leaves the incumbent alone. When no node is cut off (`CutOff`), every larger budget gives the same visit (`ExploreBudget`). So a budget at least as deep as the source's search tree reproduces the source; stack exhaustion is not modelled.
- Search.Solver: bounded by the same `depth` budget as `SolverIteration`.
- Exceptions that `linprog` raises on inconsistent dimensions are not modelled.
