/** The two macro expansions of BQL:

    - ExpandProbabilityEstimate lowers "expected value of E" into a scalar
      subquery averaging column `x` of a one-column simulate request, left
      in macro form for a later pass;
    - ExpandSimulateModels resolves a macro-form simulate request: if every
      column is a single primitive it is answered directly, otherwise every
      primitive occurrence is hoisted into its own synthetic column
      `v0, v1, ...` of one resolved request, and an outer SELECT recomputes
      the user's columns from those. */
module Macro {
  import opened Ast
  import opened SyntheticNames

  /** The name under which the averaged simulate column is requested. */
  const EstimateColumn: string := "x"

  /** Recognises a lowered probability estimate: a scalar subquery taking the
      mean of the only column of a macro-form simulate request, with nothing
      else in the query. Gives back that request. */
  function MeanOfSimulation(e: Exp): Option<SimulateModelsExp> {
    if && e.ExpSub?
       && e.query.quantifier == All
       && |e.query.columns| == 1
       && |e.query.tables| == 1
       && e.query.tables[0].name == None
       && e.query.tables[0].table.TabSimulateExp?
       && |e.query.tables[0].table.request.columns| == 1
       && e.query.columns[0] == SelColExp(ExpApp(false, "AVG", [
            ExpCol(None, e.query.tables[0].table.request.columns[0].name)]), None)
       && e.query.condition == None && e.query.grouping == None
       && e.query.having == None && e.query.order == None
    then Some(e.query.tables[0].table.request)
    else None
  }

  /** Lowering of a probability estimate. The estimated expression is carried
      verbatim, unhoisted, as the only column of the inner request, which stays
      in macro form. */
  function ExpandProbabilityEstimate(probest: Exp, population: string, generator: string): (r: Exp)
    requires probest.ExpBQLProbEst?
    ensures MeanOfSimulation(r) ==
              Some(SimulateModelsExp([SimCol(probest.expression, EstimateColumn)], population, generator))
    ensures !MacroFreeExp(r)
  {
    var simmodels := SimulateModelsExp([SimCol(probest.expression, EstimateColumn)], population, generator);
    var table := SelTab(TabSimulateExp(simmodels), None);
    assert !MacroFreeTable(table.table);
    ExpSub(Select(All,
                  [SelColExp(ExpApp(false, "AVG", [ExpCol(None, EstimateColumn)]), None)],
                  [table],
                  None, None, None, None))
  }

  /** A rewritten value together with the synthetic simulate columns created
      while rewriting it, in discovery order. */
  datatype Hoisted<T> = Hoisted(value: T, found: seq<SimCol>)

  /** `found` lists the primitive occurrences `prims`, in order, under the
      consecutive synthetic names starting at counter `next`. */
  ghost predicate NamesPrimitives(found: seq<SimCol>, prims: seq<Exp>, next: nat) {
    && |found| == |prims|
    && forall k :: 0 <= k < |found| ==> found[k] == SimCol(prims[k], SyntheticName(next + k))
  }

  lemma NamesConcat(f1: seq<SimCol>, p1: seq<Exp>, f2: seq<SimCol>, p2: seq<Exp>, next: nat)
    requires NamesPrimitives(f1, p1, next)
    requires NamesPrimitives(f2, p2, next + |p1|)
    ensures NamesPrimitives(f1 + f2, p1 + p2, next)
  {
  }

  /** No unqualified column reference in the combinator part of `e` is
      spelled like a synthetic name `v<digits>`. Hoisting would capture such
      a reference; the model does not rule that input out. Arguments of
      primitives are not looked at. */
  predicate NoSyntheticRefs(e: Exp)
    decreases e
  {
    match e
    case ExpCol(None, nm) => !LooksSynthetic(nm)
    case ExpOp(_, args) => forall i :: 0 <= i < |args| ==> NoSyntheticRefs(args[i])
    case ExpApp(_, _, args) => forall i :: 0 <= i < |args| ==> NoSyntheticRefs(args[i])
    case _ => true
  }

  /** The unqualified references in the combinator part of `e` that are
      spelled like synthetic names, depth first and left to right, one entry
      per occurrence. Arguments of primitives are not looked at. */
  function SyntheticRefs(e: Exp): seq<string>
    decreases e
  {
    match e
    case ExpCol(None, nm) => if LooksSynthetic(nm) then [nm] else []
    case ExpOp(_, args) => SyntheticRefsOf(args)
    case ExpApp(_, _, args) => SyntheticRefsOf(args)
    case _ => []
  }

  function SyntheticRefsOf(es: seq<Exp>): seq<string>
    decreases es
  {
    if es == [] then [] else SyntheticRefs(es[0]) + SyntheticRefsOf(es[1..])
  }

  /** The `count` consecutive synthetic names starting at counter `next`. */
  function NameRun(next: nat, count: nat): (r: seq<string>)
    ensures |r| == count
  {
    seq(count, k requires 0 <= k < count => SyntheticName(next + k))
  }

  lemma NameRunConcat(next: nat, m: nat, n: nat)
    ensures NameRun(next, m) + NameRun(next + m, n) == NameRun(next, m + n)
  {
  }

  /** Hoists the primitives of one expression, numbering them from `next`.
      Each primitive occurrence is replaced by an unqualified reference to its
      synthetic column; everything else is rebuilt as it was. */
  function HoistExp(e: Exp, next: nat): (r: Hoisted<Exp>)
    requires Hoistable(e)
    decreases e
  {
    match e
    case ExpOp(op, args) =>
      var h := HoistExps(args, next);
      Hoisted(ExpOp(op, h.value), h.found)
    case ExpApp(distinct, name, args) =>
      var h := HoistExps(args, next);
      Hoisted(ExpApp(distinct, name, h.value), h.found)
    case ExpBQLMutInf(_, _, _, _) =>
      Hoisted(ExpCol(None, SyntheticName(next)), [SimCol(e, SyntheticName(next))])
    case ExpBQLProbDensity(_, _) =>
      Hoisted(ExpCol(None, SyntheticName(next)), [SimCol(e, SyntheticName(next))])
    case _ =>
      Hoisted(e, [])
  }

  /** Hoists a list of operands left to right, threading the counter. */
  function HoistExps(es: seq<Exp>, next: nat): (r: Hoisted<seq<Exp>>)
    requires forall i :: 0 <= i < |es| ==> Hoistable(es[i])
    ensures |r.value| == |es|
    decreases es
  {
    if es == [] then Hoisted([], [])
    else
      var h := HoistExp(es[0], next);
      var t := HoistExps(es[1..], next + |h.found|);
      Hoisted([h.value] + t.value, h.found + t.found)
  }

  /** One step of HoistExps: the head is hoisted first and the tail continues
      the count where the head stopped. */
  lemma HoistExpsStep(es: seq<Exp>, next: nat)
    requires es != []
    requires forall i :: 0 <= i < |es| ==> Hoistable(es[i])
    ensures var h := HoistExp(es[0], next);
            var t := HoistExps(es[1..], next + |h.found|);
            && HoistExps(es, next).found == h.found + t.found
            && HoistExps(es, next).value[0] == h.value
            && HoistExps(es, next).value[1..] == t.value
  {
  }

  /** Hoists every output column of a simulate request: the column
      expressions are hoisted as one left-to-right list, so the counter runs
      on from column to column, and each rewritten column keeps the user's
      name as its alias. */
  function HoistColumns(cols: seq<SimCol>, next: nat): (r: Hoisted<seq<SelCol>>)
    requires forall i :: 0 <= i < |cols| ==> Hoistable(cols[i].exp)
    ensures |r.value| == |cols|
    ensures forall i :: 0 <= i < |cols| ==> r.value[i].name == Some(cols[i].name)
    ensures NamesPrimitives(r.found, ColumnPrimitives(cols), next)
  {
    var h := HoistExps(ColumnExps(cols), next);
    HoistExpsNamePrimitives(ColumnExps(cols), next);
    Hoisted(seq(|cols|, i requires 0 <= i < |cols| => SelColExp(h.value[i], Some(cols[i].name))),
            h.found)
  }

  /** Hoisting names the primitive occurrences of `e`, in discovery order,
      v(next), v(next + 1), ... and keeps each occurrence whole. */
  lemma {:induction false} HoistExpNamesPrimitives(e: Exp, next: nat)
    requires Hoistable(e)
    ensures NamesPrimitives(HoistExp(e, next).found, Primitives(e), next)
    decreases e
  {
    match e
    case ExpOp(_, args) => HoistExpsNamePrimitives(args, next);
    case ExpApp(_, _, args) => HoistExpsNamePrimitives(args, next);
    case _ =>
  }

  lemma {:induction false} HoistExpsNamePrimitives(es: seq<Exp>, next: nat)
    requires forall i :: 0 <= i < |es| ==> Hoistable(es[i])
    ensures NamesPrimitives(HoistExps(es, next).found, PrimitivesOf(es), next)
    decreases es
  {
    if es != [] {
      var h := HoistExp(es[0], next);
      var t := HoistExps(es[1..], next + |h.found|);
      HoistExpsStep(es, next);
      HoistExpNamesPrimitives(es[0], next);
      HoistExpsNamePrimitives(es[1..], next + |h.found|);
      NamesConcat(h.found, Primitives(es[0]), t.found, PrimitivesOf(es[1..]), next);
    }
  }

  /** Every primitive is hoisted: no primitive is left in a rewritten
      expression. */
  lemma {:induction false} HoistExpLeavesNoPrimitive(e: Exp, next: nat)
    requires Hoistable(e)
    ensures Primitives(HoistExp(e, next).value) == []
    decreases e
  {
    match e
    case ExpOp(_, args) => HoistExpsLeaveNoPrimitive(args, next);
    case ExpApp(_, _, args) => HoistExpsLeaveNoPrimitive(args, next);
    case _ =>
  }

  lemma {:induction false} HoistExpsLeaveNoPrimitive(es: seq<Exp>, next: nat)
    requires forall i :: 0 <= i < |es| ==> Hoistable(es[i])
    ensures PrimitivesOf(HoistExps(es, next).value) == []
    decreases es
  {
    if es != [] {
      var h := HoistExp(es[0], next);
      HoistExpsStep(es, next);
      HoistExpLeavesNoPrimitive(es[0], next);
      HoistExpsLeaveNoPrimitive(es[1..], next + |h.found|);
    }
  }

  lemma HoistColumnsLeaveNoPrimitive(cols: seq<SimCol>, next: nat)
    requires forall i :: 0 <= i < |cols| ==> Hoistable(cols[i].exp)
    ensures forall i :: 0 <= i < |cols| ==> Primitives(HoistColumns(cols, next).value[i].exp) == []
  {
    var h := HoistExps(ColumnExps(cols), next);
    HoistExpsLeaveNoPrimitive(ColumnExps(cols), next);
    PrimitivesOfEmpty(h.value);
  }

  /** Hoisting introduces no macro node: the rewritten expression holds only
      what the input held, plus column references. */
  lemma {:induction false} HoistExpKeepsMacroFree(e: Exp, next: nat)
    requires Hoistable(e) && MacroFreeExp(e)
    ensures MacroFreeExp(HoistExp(e, next).value)
    decreases e
  {
    match e
    case ExpOp(_, args) => HoistExpsKeepMacroFree(args, next);
    case ExpApp(_, _, args) => HoistExpsKeepMacroFree(args, next);
    case _ =>
  }

  lemma {:induction false} HoistExpsKeepMacroFree(es: seq<Exp>, next: nat)
    requires forall i :: 0 <= i < |es| ==> Hoistable(es[i]) && MacroFreeExp(es[i])
    ensures forall i :: 0 <= i < |es| ==> MacroFreeExp(HoistExps(es, next).value[i])
    decreases es
  {
    if es != [] {
      var h := HoistExp(es[0], next);
      var r := HoistExps(es, next);
      HoistExpsStep(es, next);
      HoistExpKeepsMacroFree(es[0], next);
      HoistExpsKeepMacroFree(es[1..], next + |h.found|);
      forall i | 0 <= i < |es| ensures MacroFreeExp(r.value[i]) {
        if i > 0 {
          assert r.value[i] == r.value[1..][i - 1];
        }
      }
    }
  }

  lemma HoistColumnsKeepMacroFree(cols: seq<SimCol>, next: nat)
    requires forall i :: 0 <= i < |cols| ==> Hoistable(cols[i].exp) && MacroFreeExp(cols[i].exp)
    ensures forall i :: 0 <= i < |cols| ==> MacroFreeExp(HoistColumns(cols, next).value[i].exp)
  {
    HoistExpsKeepMacroFree(ColumnExps(cols), next);
  }

  /** Hoisting puts the k-th primitive occurrence's reference in the k-th
      place: read depth first, the references to synthetic columns in the
      rewritten expression are exactly v(next), v(next + 1), ..., one per
      primitive occurrence, each name once. */
  lemma {:induction false} HoistExpRefsInOrder(e: Exp, next: nat)
    requires Hoistable(e) && NoSyntheticRefs(e)
    ensures SyntheticRefs(HoistExp(e, next).value) == NameRun(next, |Primitives(e)|)
    decreases e
  {
    match e
    case ExpOp(_, args) => HoistExpsRefsInOrder(args, next);
    case ExpApp(_, _, args) => HoistExpsRefsInOrder(args, next);
    case ExpBQLMutInf(_, _, _, _) => SyntheticNameLooksSynthetic(next);
    case ExpBQLProbDensity(_, _) => SyntheticNameLooksSynthetic(next);
    case _ =>
  }

  lemma {:induction false} HoistExpsRefsInOrder(es: seq<Exp>, next: nat)
    requires forall i :: 0 <= i < |es| ==> Hoistable(es[i]) && NoSyntheticRefs(es[i])
    ensures SyntheticRefsOf(HoistExps(es, next).value) == NameRun(next, |PrimitivesOf(es)|)
    decreases es
  {
    if es != [] {
      var r := HoistExps(es, next);
      var h := HoistExp(es[0], next);
      HoistExpsStep(es, next);
      HoistExpNamesPrimitives(es[0], next);
      HoistExpRefsInOrder(es[0], next);
      HoistExpsRefsInOrder(es[1..], next + |h.found|);
      NameRunConcat(next, |Primitives(es[0])|, |PrimitivesOf(es[1..])|);
    }
  }

  /** The same over the output columns of a hoisted request: the counter
      runs on from column to column. */
  lemma HoistColumnsRefsInOrder(cols: seq<SimCol>, next: nat)
    requires forall i :: 0 <= i < |cols| ==> Hoistable(cols[i].exp)
    ensures (forall i :: 0 <= i < |cols| ==> NoSyntheticRefs(cols[i].exp)) ==>
              SyntheticRefsOf(OutputExps(HoistColumns(cols, next).value)) ==
                NameRun(next, |ColumnPrimitives(cols)|)
  {
    if forall i :: 0 <= i < |cols| ==> NoSyntheticRefs(cols[i].exp) {
      HoistExpsRefsInOrder(ColumnExps(cols), next);
      assert OutputExps(HoistColumns(cols, next).value) == HoistExps(ColumnExps(cols), next).value;
    }
  }

  /** What the hoister accepts: every column is a combinator tree over
      primitives and contains at least one primitive. */
  ghost predicate WellFormedRequest(cols: seq<SimCol>) {
    forall i :: 0 <= i < |cols| ==> Hoistable(cols[i].exp) && Primitives(cols[i].exp) != []
  }

  /** The shape of a non-trivial expansion: SELECT ALL over exactly one
      unaliased resolved simulate request on the same population and
      generator, whose columns are the request's primitive occurrences named
      v0, v1, ... in discovery order; one output column per user column, in
      order, aliased with the user's name and free of primitives; no
      WHERE, GROUP BY, HAVING or ORDER BY. */
  ghost predicate HoistedShape(sim: SimulateModelsExp, r: TableRef) {
    && r.TabSelect?
    && r.select.quantifier == All
    && |r.select.columns| == |sim.columns|
    && (forall i :: 0 <= i < |sim.columns| ==>
          && r.select.columns[i].name == Some(sim.columns[i].name)
          && Primitives(r.select.columns[i].exp) == [])
    && |r.select.tables| == 1
    && r.select.tables[0].name == None
    && r.select.tables[0].table.TabSimulate?
    && r.select.tables[0].table.simulate.population == sim.population
    && r.select.tables[0].table.simulate.generator == sim.generator
    && NamesPrimitives(r.select.tables[0].table.simulate.columns, ColumnPrimitives(sim.columns), 0)
    && r.select.condition == None
    && r.select.grouping == None
    && r.select.having == None
    && r.select.order == None
  }

  /** Resolves a macro-form simulate request. */
  function ExpandSimulateModels(sim: SimulateModelsExp): (r: TableRef)
    requires WellFormedRequest(sim.columns)
    ensures r.TabSimulate? <==> AllPrimitive(sim.columns)
    ensures AllPrimitive(sim.columns) ==>
              r.simulate == SimulateModels(sim.columns, sim.population, sim.generator)
    ensures !AllPrimitive(sim.columns) ==> HoistedShape(sim, r)
    ensures && !AllPrimitive(sim.columns)
            && (forall i :: 0 <= i < |sim.columns| ==> NoSyntheticRefs(sim.columns[i].exp))
            ==> SyntheticRefsOf(OutputExps(r.select.columns)) ==
                  NameRun(0, |ColumnPrimitives(sim.columns)|)
    ensures r.TabSimulate? ==> Resolved(r.simulate)
    ensures r.TabSelect? ==> Resolved(r.select.tables[0].table.simulate)
  {
    if AllPrimitive(sim.columns) then
      TabSimulate(SimulateModels(sim.columns, sim.population, sim.generator))
    else
      var h := HoistColumns(sim.columns, 0);
      HoistColumnsLeaveNoPrimitive(sim.columns, 0);
      HoistColumnsRefsInOrder(sim.columns, 0);
      TabSelect(Select(All,
                       h.value,
                       [SelTab(TabSimulate(SimulateModels(h.found, sim.population, sim.generator)), None)],
                       None, None, None, None))
  }

  /** Simulate expansion leaves no macro node behind when the user's
      columns held none: the result can go straight to the SQL emitter. */
  lemma ExpandSimulateModelsIsMacroFree(sim: SimulateModelsExp)
    requires WellFormedRequest(sim.columns)
    requires forall i :: 0 <= i < |sim.columns| ==> MacroFreeExp(sim.columns[i].exp)
    ensures MacroFreeTable(ExpandSimulateModels(sim))
  {
    var r := ExpandSimulateModels(sim);
    if !AllPrimitive(sim.columns) {
      HoistColumnsKeepMacroFree(sim.columns, 0);
      PrimitivesOfMacroFree(ColumnExps(sim.columns));
      var inner := r.select.tables[0].table.simulate.columns;
      var prims := ColumnPrimitives(sim.columns);
      forall k | 0 <= k < |inner| ensures MacroFreeExp(inner[k].exp) {
        assert inner[k].exp == prims[k];
      }
      assert MacroFreeTable(r.select.tables[0].table);
    }
  }
}
