/** Constraint systems of the search tree, the two children a fractional
    coordinate gives rise to, and how the statuses of two children combine. */
module Branching {
  import opened Integrality

  /** The rows of A (one coefficient vector per constraint) and their right-hand sides b. */
  datatype System = System(rows: seq<seq<real>>, rhs: seq<real>)

  /** One right-hand side per row, and every row has `n` coefficients. */
  ghost predicate WellShaped(s: System, n: nat) {
    |s.rows| == |s.rhs| && forall i :: 0 <= i < |s.rows| ==> |s.rows[i]| == n
  }

  ghost function Dot(row: seq<real>, t: seq<real>): real
    requires |row| == |t|
    decreases |row|
  {
    if |row| == 0 then 0.0 else row[0] * t[0] + Dot(row[1..], t[1..])
  }

  /** The point `t` satisfies every row: row . t <= rhs. */
  ghost predicate Satisfies(s: System, t: seq<real>) {
    |s.rows| == |s.rhs| &&
    forall i :: 0 <= i < |s.rows| ==> |s.rows[i]| == |t| && Dot(s.rows[i], t) <= s.rhs[i]
  }

  /** `sub` keeps all of the rows of `s`, in order, and may add more after them. */
  ghost predicate Refines(sub: System, s: System) {
    |s.rows| <= |sub.rows| && |s.rhs| <= |sub.rhs| &&
    sub.rows[..|s.rows|] == s.rows && sub.rhs[..|s.rhs|] == s.rhs
  }

  function Zeros(n: nat): seq<real> {
    seq(n, _ => 0.0)
  }

  /** `coef` at column `j`, zero elsewhere. */
  function UnitRow(n: nat, j: int, coef: real): seq<real> {
    seq(n, k => if k == j then coef else 0.0)
  }

  /** Branch x_j >= ceil(v), written as the row -e_j with right-hand side -ceil(v). */
  function CeilChild(s: System, n: nat, j: nat, v: real): System {
    System(s.rows + [UnitRow(n, j, -1.0)], s.rhs + [-(Ceil(v) as real)])
  }

  /** Branch x_j <= floor(v), written as the row e_j with right-hand side floor(v). */
  function FloorChild(s: System, n: nat, j: nat, v: real): System {
    System(s.rows + [UnitRow(n, j, 1.0)], s.rhs + [Floor(v) as real])
  }

  /** A row that is zero outside column `j` picks out coordinate `j`. */
  lemma {:induction false} DotSparse(row: seq<real>, t: seq<real>, j: int)
    requires |row| == |t|
    requires forall k :: 0 <= k < |row| && k != j ==> row[k] == 0.0
    ensures Dot(row, t) == if 0 <= j < |row| then row[j] * t[j] else 0.0
  {
    if |row| > 0 {
      DotSparse(row[1..], t[1..], j - 1);
    }
  }

  lemma DotUnitRow(n: nat, j: nat, coef: real, t: seq<real>)
    requires |t| == n && j < n
    ensures Dot(UnitRow(n, j, coef), t) == coef * t[j]
  {
    DotSparse(UnitRow(n, j, coef), t, j);
  }

  /** Appending one row adds exactly that row's constraint. */
  lemma {:induction false} SatisfiesAppend(s: System, row: seq<real>, bound: real, t: seq<real>)
    requires |s.rows| == |s.rhs|
    ensures Satisfies(System(s.rows + [row], s.rhs + [bound]), t) <==>
            Satisfies(s, t) && |row| == |t| && Dot(row, t) <= bound
  {
    var s' := System(s.rows + [row], s.rhs + [bound]);
    assert forall i :: 0 <= i < |s.rows| ==> s'.rows[i] == s.rows[i] && s'.rhs[i] == s.rhs[i];
    assert s'.rows[|s.rows|] == row && s'.rhs[|s.rhs|] == bound;
  }

  /** Every point of a system that keeps the rows of `s` satisfies `s`. */
  lemma RefinesSatisfies(sub: System, s: System, t: seq<real>)
    requires |s.rows| == |s.rhs|
    requires Refines(sub, s) && Satisfies(sub, t)
    ensures Satisfies(s, t)
  {
    forall i | 0 <= i < |s.rows|
      ensures |s.rows[i]| == |t| && Dot(s.rows[i], t) <= s.rhs[i]
    {
      assert s.rows[i] == sub.rows[..|s.rows|][i] == sub.rows[i];
      assert s.rhs[i] == sub.rhs[..|s.rhs|][i] == sub.rhs[i];
    }
  }

  lemma RefinesTransitive(a: System, b: System, c: System)
    requires Refines(a, b) && Refines(b, c)
    ensures Refines(a, c)
  {
    assert a.rows[..|c.rows|] == a.rows[..|b.rows|][..|c.rows|];
    assert a.rhs[..|c.rhs|] == a.rhs[..|b.rhs|][..|c.rhs|];
  }

  /** Each child is its parent with exactly one more row of the same width. */
  lemma ChildrenShape(s: System, n: nat, j: nat, v: real)
    requires WellShaped(s, n)
    ensures WellShaped(CeilChild(s, n, j, v), n) && WellShaped(FloorChild(s, n, j, v), n)
    ensures Refines(CeilChild(s, n, j, v), s) && Refines(FloorChild(s, n, j, v), s)
    ensures |CeilChild(s, n, j, v).rows| == |s.rows| + 1 == |FloorChild(s, n, j, v).rows|
  {
    assert CeilChild(s, n, j, v).rows[..|s.rows|] == s.rows;
    assert FloorChild(s, n, j, v).rows[..|s.rows|] == s.rows;
    assert CeilChild(s, n, j, v).rhs[..|s.rhs|] == s.rhs;
    assert FloorChild(s, n, j, v).rhs[..|s.rhs|] == s.rhs;
  }

  /** The row each child appends: -e_j with right-hand side -ceil(v) for the
      ceil child, e_j with right-hand side floor(v) for the floor child. */
  lemma ChildRows(s: System, n: nat, j: nat, v: real)
    requires j < n
    ensures var row := CeilChild(s, n, j, v).rows[|s.rows|];
      |row| == n && row[j] == -1.0 && forall k :: 0 <= k < n && k != j ==> row[k] == 0.0
    ensures var row := FloorChild(s, n, j, v).rows[|s.rows|];
      |row| == n && row[j] == 1.0 && forall k :: 0 <= k < n && k != j ==> row[k] == 0.0
    ensures CeilChild(s, n, j, v).rhs == s.rhs + [-(Ceil(v) as real)]
    ensures FloorChild(s, n, j, v).rhs == s.rhs + [Floor(v) as real]
  {
  }

  /** The ceil child is the parent's region cut to x_j >= ceil(v). */
  lemma CeilChildRegion(s: System, n: nat, j: nat, v: real, t: seq<real>)
    requires WellShaped(s, n) && |t| == n && j < n
    ensures Satisfies(CeilChild(s, n, j, v), t) <==> Satisfies(s, t) && t[j] >= Ceil(v) as real
  {
    SatisfiesAppend(s, UnitRow(n, j, -1.0), -(Ceil(v) as real), t);
    DotUnitRow(n, j, -1.0, t);
  }

  /** The floor child is the parent's region cut to x_j <= floor(v). */
  lemma FloorChildRegion(s: System, n: nat, j: nat, v: real, t: seq<real>)
    requires WellShaped(s, n) && |t| == n && j < n
    ensures Satisfies(FloorChild(s, n, j, v), t) <==> Satisfies(s, t) && t[j] <= Floor(v) as real
  {
    SatisfiesAppend(s, UnitRow(n, j, 1.0), Floor(v) as real, t);
    DotUnitRow(n, j, 1.0, t);
  }

  /** The branching disjunction on a fractional value `v`: the two children are
      disjoint, together they are the parent's region less the open strip
      floor(v) < x_j < ceil(v), so they keep every point whose coordinate j is
      integral and both cut off the point whose coordinate j is `v`. */
  lemma BranchPartition(s: System, n: nat, j: nat, v: real, t: seq<real>)
    requires WellShaped(s, n) && |t| == n && j < n && !IsIntegral(v)
    ensures !(Satisfies(CeilChild(s, n, j, v), t) && Satisfies(FloorChild(s, n, j, v), t))
    ensures Satisfies(CeilChild(s, n, j, v), t) || Satisfies(FloorChild(s, n, j, v), t) <==>
            Satisfies(s, t) && !(Floor(v) as real < t[j] < Ceil(v) as real)
    ensures Satisfies(s, t) && IsIntegral(t[j]) ==>
            Satisfies(CeilChild(s, n, j, v), t) || Satisfies(FloorChild(s, n, j, v), t)
    ensures t[j] == v ==> !Satisfies(CeilChild(s, n, j, v), t) && !Satisfies(FloorChild(s, n, j, v), t)
  {
    CeilChildRegion(s, n, j, v, t);
    FloorChildRegion(s, n, j, v, t);
    FractionalRounding(v);
    if IsIntegral(t[j]) {
      IntegralIffFloor(t[j]);
      NoIntegerBetween(v, Floor(t[j]));
    }
  }

  /** The row appended to a child: a zero vector of `n` entries whose entry
      `j` is then set to `coef`, copied column by column; `rows` and `rhs`
      themselves are values and stay as they were. */
  method AppendBoundRow(rows: seq<seq<real>>, rhs: seq<real>, n: nat, j: nat, coef: real, bound: real)
    returns (rows': seq<seq<real>>, rhs': seq<real>)
    requires j < n
    ensures |rows'| == |rows| + 1 && rows'[..|rows|] == rows
    ensures |rows'[|rows|]| == n && rows'[|rows|][j] == coef
    ensures forall k :: 0 <= k < n && k != j ==> rows'[|rows|][k] == 0.0
    ensures rhs' == rhs + [bound]
    ensures rows' == rows + [UnitRow(n, j, coef)]
  {
    var zeros := Zeros(n)[j := coef];
    var row: seq<real> := [];
    var k := 0;
    while k < n
      invariant 0 <= k <= n
      invariant row == zeros[..k]
    {
      row := row + [zeros[k]];
      k := k + 1;
    }
    assert row == zeros;
    assert row == UnitRow(n, j, coef);
    rows' := rows + [row];
    rhs' := rhs + [bound];
  }

  /** The status of a node that branched: success if either child succeeded,
      otherwise the larger of the two codes. */
  function Combine(top: int, bot: int): (r: int)
    ensures r == 0 <==> top == 0 || bot == 0
    ensures r != 0 ==> (r == top || r == bot) && top <= r && bot <= r
    ensures 0 <= top <= 3 && 0 <= bot <= 3 ==> 0 <= r <= 3
  {
    if bot == 0 || top == 0 then 0 else if top >= bot then top else bot
  }
}
