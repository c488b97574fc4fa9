/** The branch-and-bound driver: one recursive visit per node of the search
    tree, an incumbent shared by all visits, and the top-level solve that
    resets the incumbent before visiting the root. */
module Search {
  import opened Relaxation
  import opened Integrality
  import opened Branching

  /** The best objective found so far and the solution that attains it. */
  datatype Incumbent = Incumbent(best: Extended, x: seq<real>)

  /** What visiting a subtree yields: its status, the incumbent afterwards,
      and the systems handed to the relaxation solver, in call order. */
  datatype Outcome = Outcome(status: int, incumbent: Incumbent, trace: seq<System>)

  ghost function Relax(oracle: Oracle, s: System, c: seq<real>): LpResult {
    oracle(s.rows, s.rhs, c)
  }

  /** The visit of node `s` with `depth` levels of branching left, as a function
      of the incumbent before the visit. A node relaxes its system; a status
      above 1 ends the visit; a relaxation no better than the incumbent ends
      it; an all-integral one replaces the incumbent and ends it; otherwise
      the ceil child and then the floor child of the first fractional
      coordinate are visited and their statuses combined. Once the depth is
      spent a node that would branch reports the iteration limit instead. */
  ghost function Explore(s: System, n: nat, c: seq<real>, oracle: Oracle, inc: Incumbent, depth: nat): Outcome
    decreases depth
  {
    var r := Relax(oracle, s, c);
    if r.status > IterationLimit then Outcome(r.status, inc, [s])
    else
      var j := FirstFractional(r.x);
      if !Below(r.fun, inc.best) then Outcome(r.status, inc, [s])
      else if j.None? then Outcome(r.status, Incumbent(Finite(r.fun), r.x), [s])
      else if depth == 0 then Outcome(IterationLimit, inc, [s])
      else
        var v := r.x[j.value];
        var top := Explore(CeilChild(s, n, j.value, v), n, c, oracle, inc, depth - 1);
        var bot := Explore(FloorChild(s, n, j.value, v), n, c, oracle, top.incumbent, depth - 1);
        Outcome(Combine(top.status, bot.status), bot.incumbent, [s] + top.trace + bot.trace)
  }

  /** Whether the node `s` branches: a status of 0 or 1, an objective strictly
      below the incumbent, and some fractional coordinate (and depth left). */
  ghost predicate Branches(s: System, c: seq<real>, oracle: Oracle, inc: Incumbent, depth: nat) {
    var r := Relax(oracle, s, c);
    r.status <= IterationLimit && Below(r.fun, inc.best) && FirstFractional(r.x).Some? && depth > 0
  }

  /** The visit relaxes its own system first. */
  lemma ExploreHead(s: System, n: nat, c: seq<real>, oracle: Oracle, inc: Incumbent, depth: nat)
    ensures var out := Explore(s, n, c, oracle, inc, depth);
      |out.trace| >= 1 && out.trace[0] == s
  {
  }

  /** A branching visit with `d + 1` levels left, unfolded once. */
  lemma ExploreStep(s: System, n: nat, c: seq<real>, oracle: Oracle, inc: Incumbent, d: nat)
    requires Branches(s, c, oracle, inc, d + 1)
    ensures var r := Relax(oracle, s, c); var j := FirstFractional(r.x).value;
      var top := Explore(CeilChild(s, n, j, r.x[j]), n, c, oracle, inc, d);
      var bot := Explore(FloorChild(s, n, j, r.x[j]), n, c, oracle, top.incumbent, d);
      Explore(s, n, c, oracle, inc, d + 1) ==
        Outcome(Combine(top.status, bot.status), bot.incumbent, [s] + top.trace + bot.trace)
  {
  }

  /** Every system relaxed during the visit keeps the rows of `s`, in order. */
  lemma {:induction false} ExploreTrace(s: System, n: nat, c: seq<real>, oracle: Oracle, inc: Incumbent, depth: nat)
    ensures forall t :: t in Explore(s, n, c, oracle, inc, depth).trace ==> Refines(t, s)
    decreases depth
  {
    var out := Explore(s, n, c, oracle, inc, depth);
    assert Refines(s, s) by {
      assert s.rows[..|s.rows|] == s.rows && s.rhs[..|s.rhs|] == s.rhs;
    }
    if Branches(s, c, oracle, inc, depth) {
      var r := Relax(oracle, s, c);
      var j := FirstFractional(r.x).value;
      var v := r.x[j];
      var ceil, floor := CeilChild(s, n, j, v), FloorChild(s, n, j, v);
      var d := depth - 1;
      var top := Explore(ceil, n, c, oracle, inc, d);
      var bot := Explore(floor, n, c, oracle, top.incumbent, d);
      ExploreTrace(ceil, n, c, oracle, inc, d);
      ExploreTrace(floor, n, c, oracle, top.incumbent, d);
      ExploreStep(s, n, c, oracle, inc, d);
      assert Refines(ceil, s) && Refines(floor, s) by {
        assert ceil.rows[..|s.rows|] == s.rows && ceil.rhs[..|s.rhs|] == s.rhs;
        assert floor.rows[..|s.rows|] == s.rows && floor.rhs[..|s.rhs|] == s.rhs;
      }
      forall t | t in out.trace
        ensures Refines(t, s)
      {
        if t in top.trace {
          RefinesTransitive(t, ceil, s);
        } else if t in bot.trace {
          RefinesTransitive(t, floor, s);
        }
      }
    }
  }

  /** Every system relaxed during the visit has one right-hand side per row and
      rows of width `n` when the visited system does. */
  lemma {:induction false} ExploreShape(s: System, n: nat, c: seq<real>, oracle: Oracle, inc: Incumbent, depth: nat)
    requires WellShaped(s, n)
    ensures forall t :: t in Explore(s, n, c, oracle, inc, depth).trace ==> WellShaped(t, n)
    decreases depth
  {
    if Branches(s, c, oracle, inc, depth) {
      var r := Relax(oracle, s, c);
      var j := FirstFractional(r.x).value;
      var v := r.x[j];
      var top := Explore(CeilChild(s, n, j, v), n, c, oracle, inc, depth - 1);
      ChildrenShape(s, n, j, v);
      ExploreShape(CeilChild(s, n, j, v), n, c, oracle, inc, depth - 1);
      ExploreShape(FloorChild(s, n, j, v), n, c, oracle, top.incumbent, depth - 1);
    }
  }

  /** The node rules: the visit branches exactly when `Branches` holds, and
      otherwise it relaxes only its own system and returns that relaxation's
      status (or the iteration limit when the depth is spent); the incumbent
      is replaced only by an all-integral relaxation strictly below it. */
  lemma ExploreNode(s: System, n: nat, c: seq<real>, oracle: Oracle, inc: Incumbent, depth: nat)
    ensures var out := Explore(s, n, c, oracle, inc, depth);
      |out.trace| > 1 <==> Branches(s, c, oracle, inc, depth)
    ensures var out := Explore(s, n, c, oracle, inc, depth); var r := Relax(oracle, s, c);
      r.status > IterationLimit || !Below(r.fun, inc.best) || AllIntegral(r.x) ==>
        out.trace == [s] && out.status == r.status &&
        out.incumbent == (if r.status <= IterationLimit && Below(r.fun, inc.best)
                          then Incumbent(Finite(r.fun), r.x) else inc)
    ensures var out := Explore(s, n, c, oracle, inc, depth); var r := Relax(oracle, s, c);
      depth == 0 && r.status <= IterationLimit && Below(r.fun, inc.best) && !AllIntegral(r.x) ==>
        out == Outcome(IterationLimit, inc, [s])
  {
    if Branches(s, c, oracle, inc, depth) {
      var r := Relax(oracle, s, c);
      var j := FirstFractional(r.x).value;
      var top := Explore(CeilChild(s, n, j, r.x[j]), n, c, oracle, inc, depth - 1);
      ExploreHead(CeilChild(s, n, j, r.x[j]), n, c, oracle, inc, depth - 1);
      assert |Explore(s, n, c, oracle, inc, depth).trace| >= 1 + |top.trace|;
    }
  }

  /** Depth-first order: after its own relaxation a branching node visits the
      whole ceil subtree, then the whole floor subtree starting from the
      incumbent the ceil subtree left, and combines the two statuses. */
  lemma ExploreOrder(s: System, n: nat, c: seq<real>, oracle: Oracle, inc: Incumbent, depth: nat)
    requires Branches(s, c, oracle, inc, depth)
    ensures var r := Relax(oracle, s, c);
      var j := FirstFractional(r.x).value;
      var ceil := CeilChild(s, n, j, r.x[j]);
      var floor := FloorChild(s, n, j, r.x[j]);
      var top := Explore(ceil, n, c, oracle, inc, depth - 1);
      var bot := Explore(floor, n, c, oracle, top.incumbent, depth - 1);
      var out := Explore(s, n, c, oracle, inc, depth);
      out.trace[1] == ceil && |out.trace| > 1 + |top.trace| && out.trace[1 + |top.trace|] == floor &&
      out.status == Combine(top.status, bot.status) && out.incumbent == bot.incumbent
  {
    var r := Relax(oracle, s, c);
    var j := FirstFractional(r.x).value;
    var top := Explore(CeilChild(s, n, j, r.x[j]), n, c, oracle, inc, depth - 1);
    ExploreHead(CeilChild(s, n, j, r.x[j]), n, c, oracle, inc, depth - 1);
    ExploreHead(FloorChild(s, n, j, r.x[j]), n, c, oracle, top.incumbent, depth - 1);
  }

  /** The incumbent never gets worse, and when the visit changes it, the new
      incumbent is strictly better, all-integral, and is exactly the
      objective and solution of one relaxation made during the visit with
      status 0 or 1. */
  lemma {:induction false} ExploreIncumbent(s: System, n: nat, c: seq<real>, oracle: Oracle, inc: Incumbent, depth: nat)
    ensures var out := Explore(s, n, c, oracle, inc, depth);
      AtMost(out.incumbent.best, inc.best)
    ensures var out := Explore(s, n, c, oracle, inc, depth);
      out.incumbent == inc ||
      (out.incumbent.best.Finite? && Below(out.incumbent.best.value, inc.best) &&
       AllIntegral(out.incumbent.x) &&
       exists t :: t in out.trace && Relax(oracle, t, c).status <= IterationLimit &&
         Relax(oracle, t, c).fun == out.incumbent.best.value && Relax(oracle, t, c).x == out.incumbent.x)
    decreases depth
  {
    var out := Explore(s, n, c, oracle, inc, depth);
    if Branches(s, c, oracle, inc, depth) {
      var r := Relax(oracle, s, c);
      var j := FirstFractional(r.x).value;
      var ceil, floor := CeilChild(s, n, j, r.x[j]), FloorChild(s, n, j, r.x[j]);
      var d := depth - 1;
      var top := Explore(ceil, n, c, oracle, inc, d);
      var bot := Explore(floor, n, c, oracle, top.incumbent, d);
      ExploreIncumbent(ceil, n, c, oracle, inc, d);
      ExploreIncumbent(floor, n, c, oracle, top.incumbent, d);
      ExploreStep(s, n, c, oracle, inc, d);
      if bot.incumbent != top.incumbent {
        var t :| t in bot.trace && Relax(oracle, t, c).status <= IterationLimit &&
          Relax(oracle, t, c).fun == bot.incumbent.best.value && Relax(oracle, t, c).x == bot.incumbent.x;
        assert t in out.trace;
      } else if top.incumbent != inc {
        var t :| t in top.trace && Relax(oracle, t, c).status <= IterationLimit &&
          Relax(oracle, t, c).fun == top.incumbent.best.value && Relax(oracle, t, c).x == top.incumbent.x;
        assert t in out.trace;
      }
    } else {
      ExploreNode(s, n, c, oracle, inc, depth);
      assert out.incumbent != inc ==> s in out.trace;
    }
  }

  /** Every relaxation in `trace` reported one of the four status codes. */
  ghost predicate StatusesKnown(trace: seq<System>, c: seq<real>, oracle: Oracle) {
    forall t :: t in trace ==> Optimal <= Relax(oracle, t, c).status <= Unbounded
  }

  /** The range argument at a branching node, on the two child outcomes. */
  lemma StatusesCombine(s: System, c: seq<real>, oracle: Oracle, top: Outcome, bot: Outcome)
    requires StatusesKnown(top.trace, c, oracle) ==> Optimal <= top.status <= Unbounded
    requires StatusesKnown(bot.trace, c, oracle) ==> Optimal <= bot.status <= Unbounded
    ensures StatusesKnown([s] + top.trace + bot.trace, c, oracle) ==>
      Optimal <= Combine(top.status, bot.status) <= Unbounded
  {
    if StatusesKnown([s] + top.trace + bot.trace, c, oracle) {
      forall t | t in top.trace || t in bot.trace
        ensures Optimal <= Relax(oracle, t, c).status <= Unbounded
      {
        assert t in [s] + top.trace + bot.trace;
      }
    }
  }

  /** The status of a visit stays among the four codes when every relaxation
      made during the visit does. */
  lemma {:induction false} ExploreStatusRange(s: System, n: nat, c: seq<real>, oracle: Oracle, inc: Incumbent, depth: nat)
    ensures var out := Explore(s, n, c, oracle, inc, depth);
      StatusesKnown(out.trace, c, oracle) ==> Optimal <= out.status <= Unbounded
    decreases depth
  {
    if Branches(s, c, oracle, inc, depth) {
      var r := Relax(oracle, s, c);
      var j := FirstFractional(r.x).value;
      var ceil, floor := CeilChild(s, n, j, r.x[j]), FloorChild(s, n, j, r.x[j]);
      var d := depth - 1;
      var top := Explore(ceil, n, c, oracle, inc, d);
      var bot := Explore(floor, n, c, oracle, top.incumbent, d);
      ExploreStatusRange(ceil, n, c, oracle, inc, d);
      ExploreStatusRange(floor, n, c, oracle, top.incumbent, d);
      ExploreStep(s, n, c, oracle, inc, d);
      StatusesCombine(s, c, oracle, top, bot);
    } else {
      ExploreNode(s, n, c, oracle, inc, depth);
    }
  }

  /** A visit reports status 0 only if some relaxation made during it did. */
  lemma {:induction false} ExploreStatusOptimal(s: System, n: nat, c: seq<real>, oracle: Oracle, inc: Incumbent, depth: nat)
    ensures var out := Explore(s, n, c, oracle, inc, depth);
      out.status == Optimal ==> exists t :: t in out.trace && Relax(oracle, t, c).status == Optimal
    decreases depth
  {
    var out := Explore(s, n, c, oracle, inc, depth);
    if Branches(s, c, oracle, inc, depth) {
      var r := Relax(oracle, s, c);
      var j := FirstFractional(r.x).value;
      var ceil, floor := CeilChild(s, n, j, r.x[j]), FloorChild(s, n, j, r.x[j]);
      var d := depth - 1;
      var top := Explore(ceil, n, c, oracle, inc, d);
      var bot := Explore(floor, n, c, oracle, top.incumbent, d);
      ExploreStep(s, n, c, oracle, inc, d);
      if out.status == Optimal {
        if top.status == Optimal {
          ExploreStatusOptimal(ceil, n, c, oracle, inc, d);
          var t :| t in top.trace && Relax(oracle, t, c).status == Optimal;
          assert t in out.trace;
        } else {
          ExploreStatusOptimal(floor, n, c, oracle, top.incumbent, d);
          var t :| t in bot.trace && Relax(oracle, t, c).status == Optimal;
          assert t in out.trace;
        }
      }
    } else {
      assert s in out.trace;
    }
  }

  /** Some node of the visit would need to branch once its depth is spent. */
  ghost predicate CutOff(s: System, n: nat, c: seq<real>, oracle: Oracle, inc: Incumbent, depth: nat)
    decreases depth
  {
    var r := Relax(oracle, s, c);
    r.status <= IterationLimit && Below(r.fun, inc.best) && FirstFractional(r.x).Some? &&
    (depth == 0 ||
     var j := FirstFractional(r.x).value;
     var top := Explore(CeilChild(s, n, j, r.x[j]), n, c, oracle, inc, depth - 1);
     CutOff(CeilChild(s, n, j, r.x[j]), n, c, oracle, inc, depth - 1) ||
     CutOff(FloorChild(s, n, j, r.x[j]), n, c, oracle, top.incumbent, depth - 1))
  }

  /** A branching node gives the same visit under the budgets `d + 1` and
      `m + 1` when both of its children give the same visit under `d` and `m`. */
  lemma BudgetStep(s: System, n: nat, c: seq<real>, oracle: Oracle, inc: Incumbent, d: nat, m: nat)
    requires Branches(s, c, oracle, inc, d + 1)
    requires var r := Relax(oracle, s, c); var j := FirstFractional(r.x).value;
      Explore(CeilChild(s, n, j, r.x[j]), n, c, oracle, inc, m) ==
      Explore(CeilChild(s, n, j, r.x[j]), n, c, oracle, inc, d)
    requires var r := Relax(oracle, s, c); var j := FirstFractional(r.x).value;
      var top := Explore(CeilChild(s, n, j, r.x[j]), n, c, oracle, inc, d);
      Explore(FloorChild(s, n, j, r.x[j]), n, c, oracle, top.incumbent, m) ==
      Explore(FloorChild(s, n, j, r.x[j]), n, c, oracle, top.incumbent, d)
    ensures Explore(s, n, c, oracle, inc, m + 1) == Explore(s, n, c, oracle, inc, d + 1)
  {
  }

  /** A node that would branch and is not cut off has depth left. */
  lemma CutOffDepth(s: System, n: nat, c: seq<real>, oracle: Oracle, inc: Incumbent, depth: nat)
    requires !CutOff(s, n, c, oracle, inc, depth)
    ensures var r := Relax(oracle, s, c);
      r.status <= IterationLimit && Below(r.fun, inc.best) && FirstFractional(r.x).Some? ==> depth > 0
  {
  }

  /** Neither child of a node that would branch and is not cut off is cut off. */
  lemma CutOffChildren(s: System, n: nat, c: seq<real>, oracle: Oracle, inc: Incumbent, d: nat)
    requires !CutOff(s, n, c, oracle, inc, d + 1)
    ensures var r := Relax(oracle, s, c);
      r.status <= IterationLimit && Below(r.fun, inc.best) && FirstFractional(r.x).Some? ==>
        var j := FirstFractional(r.x).value;
        var top := Explore(CeilChild(s, n, j, r.x[j]), n, c, oracle, inc, d);
        !CutOff(CeilChild(s, n, j, r.x[j]), n, c, oracle, inc, d) &&
        !CutOff(FloorChild(s, n, j, r.x[j]), n, c, oracle, top.incumbent, d)
  {
  }

  /** A node that does not branch gives the same visit under every budget. */
  lemma BudgetLeaf(s: System, n: nat, c: seq<real>, oracle: Oracle, inc: Incumbent, depth: nat, more: nat)
    requires var r := Relax(oracle, s, c);
      !(r.status <= IterationLimit && Below(r.fun, inc.best) && FirstFractional(r.x).Some?)
    ensures Explore(s, n, c, oracle, inc, more) == Explore(s, n, c, oracle, inc, depth)
  {
  }

  /** When no node is cut off, any larger depth budget gives the same visit:
      the budget then agrees with the unbounded recursion. */
  lemma {:induction false} ExploreBudget(s: System, n: nat, c: seq<real>, oracle: Oracle, inc: Incumbent,
                                         depth: nat, more: nat)
    requires !CutOff(s, n, c, oracle, inc, depth) && depth <= more
    ensures Explore(s, n, c, oracle, inc, more) == Explore(s, n, c, oracle, inc, depth)
    decreases depth
  {
    var r := Relax(oracle, s, c);
    if r.status <= IterationLimit && Below(r.fun, inc.best) && FirstFractional(r.x).Some? {
      var j := FirstFractional(r.x).value;
      var ceil, floor := CeilChild(s, n, j, r.x[j]), FloorChild(s, n, j, r.x[j]);
      CutOffDepth(s, n, c, oracle, inc, depth);
      var d, m := depth - 1, more - 1;
      CutOffChildren(s, n, c, oracle, inc, d);
      var top := Explore(ceil, n, c, oracle, inc, d);
      ExploreBudget(ceil, n, c, oracle, inc, d, m);
      ExploreBudget(floor, n, c, oracle, top.incumbent, d, m);
      BudgetStep(s, n, c, oracle, inc, d, m);
    } else {
      BudgetLeaf(s, n, c, oracle, inc, depth, more);
    }
  }

  /** The incumbent held for the duration of one solve: the program's
      global `min_global` and `x_global`. */
  class IncumbentTracker {
    var minGlobal: Extended
    var xGlobal: seq<real>

    /** The reset done at the start of a solve: +infinity and the zero vector. */
    constructor (n: nat)
      ensures minGlobal == PosInf && xGlobal == Zeros(n)
    {
      minGlobal := PosInf;
      xGlobal := Zeros(n);
    }

    function Value(): Incumbent
      reads this
    {
      Incumbent(minGlobal, xGlobal)
    }
  }

  /** One recursive visit of the search tree: relaxes the system (a, b),
      updates the tracker in place and returns the visit's status. */
  method SolverIteration(tracker: IncumbentTracker, a: seq<seq<real>>, b: seq<real>, c: seq<real>,
                         n: nat, oracle: Oracle, depth: nat) returns (status: int)
    requires OracleFits(oracle, c, n)
    modifies tracker
    ensures var out := Explore(System(a, b), n, c, oracle, old(tracker.Value()), depth);
      status == out.status && tracker.Value() == out.incumbent
    decreases depth, 0
  {
    var resp := oracle(a, b, c);

    if resp.status > IterationLimit {
      return resp.status;
    }

    var flag, index := ScanIntegrality(resp.x);

    if Below(resp.fun, tracker.minGlobal) {
      if flag {
        tracker.minGlobal := Finite(resp.fun);
        tracker.xGlobal := resp.x;
        return resp.status;
      }
    } else {
      return resp.status;
    }

    if depth == 0 {
      return IterationLimit;
    }

    assert |resp.x| == n;
    status := VisitChildren(tracker, a, b, c, n, oracle, depth - 1, index, resp.x[index]);
  }

  /** The branching half of a visit on coordinate `j` with value `v`: builds
      the ceil child and visits it, then builds the floor child and visits it
      with the incumbent the first visit left, and combines the two statuses. */
  method VisitChildren(tracker: IncumbentTracker, a: seq<seq<real>>, b: seq<real>, c: seq<real>,
                       n: nat, oracle: Oracle, depth: nat, j: nat, v: real) returns (status: int)
    requires OracleFits(oracle, c, n) && j < n
    modifies tracker
    ensures var top := Explore(CeilChild(System(a, b), n, j, v), n, c, oracle, old(tracker.Value()), depth);
      var bot := Explore(FloorChild(System(a, b), n, j, v), n, c, oracle, top.incumbent, depth);
      status == Combine(top.status, bot.status) && tracker.Value() == bot.incumbent
    decreases depth, 1
  {
    var xTop := Ceil(v);
    var xBot := Floor(v);

    var aTop, bTop := AppendBoundRow(a, b, n, j, -1.0, -(xTop as real));
    var statusTop := SolverIteration(tracker, aTop, bTop, c, n, oracle, depth);

    var aBot, bBot := AppendBoundRow(a, b, n, j, 1.0, xBot as real);
    var statusBot := SolverIteration(tracker, aBot, bBot, c, n, oracle, depth);

    status := Combine(statusTop, statusBot);
  }

  /** The top-level solve: resets the incumbent, visits the root system (A, b)
      and returns the final minimum, its solution and the root's status. */
  method Solver(a: seq<seq<real>>, b: seq<real>, c: seq<real>, n: nat, oracle: Oracle, depth: nat)
    returns (minGlobal: Extended, xGlobal: seq<real>, status: int)
    requires OracleFits(oracle, c, n)
    ensures var out := Explore(System(a, b), n, c, oracle, Incumbent(PosInf, Zeros(n)), depth);
      minGlobal == out.incumbent.best && xGlobal == out.incumbent.x && status == out.status
    ensures |xGlobal| == n
    ensures minGlobal.PosInf? ==> xGlobal == Zeros(n)
    ensures minGlobal.Finite? ==> AllIntegral(xGlobal)
    ensures minGlobal.Finite? ==>
      exists t :: t in Explore(System(a, b), n, c, oracle, Incumbent(PosInf, Zeros(n)), depth).trace &&
        Refines(t, System(a, b)) && Relax(oracle, t, c).status <= IterationLimit &&
        Relax(oracle, t, c).fun == minGlobal.value && Relax(oracle, t, c).x == xGlobal
  {
    var tracker := new IncumbentTracker(n);
    status := SolverIteration(tracker, a, b, c, n, oracle, depth);
    minGlobal, xGlobal := tracker.minGlobal, tracker.xGlobal;

    ghost var root := System(a, b);
    ghost var init := Incumbent(PosInf, Zeros(n));
    ExploreIncumbent(root, n, c, oracle, init, depth);
    ExploreTrace(root, n, c, oracle, init, depth);
    if minGlobal.Finite? {
      ghost var out := Explore(root, n, c, oracle, init, depth);
      ghost var t :| t in out.trace && Relax(oracle, t, c).status <= IterationLimit &&
        Relax(oracle, t, c).fun == minGlobal.value && Relax(oracle, t, c).x == xGlobal;
      assert |Relax(oracle, t, c).x| == n;
    }
  }
}
