/** Properties of the macro expansions that relate several calls or an
    expansion to an independent reference:

    - inlining the hoisted primitives back into the outer SELECT gives back
      the user's request (simulate expansion loses and invents nothing, and
      keeps every combinator as it was);
    - the synthetic columns carry pairwise distinct names;
    - expanding the resolved request again changes nothing;
    - lowering a probability estimate and then expanding its simulate request
      leaves no macro node and still averages the estimated expression. */
module MacroProperties {
  import opened Ast
  import opened SyntheticNames
  import opened Macro

  /** The expression of the first simulate column called `nm`. */
  function Lookup(cols: seq<SimCol>, nm: string): Option<Exp>
  {
    if cols == [] then None
    else if cols[0].name == nm then Some(cols[0].exp)
    else Lookup(cols[1..], nm)
  }

  /** Undoes hoisting in one expression: every unqualified reference to a
      column of `inner` is replaced by that column's expression. */
  function Inline(e: Exp, inner: seq<SimCol>): Exp
    decreases e
  {
    match e
    case ExpCol(None, nm) =>
      (match Lookup(inner, nm)
       case Some(x) => x
       case None => e)
    case ExpOp(op, args) => ExpOp(op, InlineAll(args, inner))
    case ExpApp(distinct, name, args) => ExpApp(distinct, name, InlineAll(args, inner))
    case _ => e
  }

  function InlineAll(es: seq<Exp>, inner: seq<SimCol>): (r: seq<Exp>)
    ensures |r| == |es|
    ensures forall i :: 0 <= i < |es| ==> r[i] == Inline(es[i], inner)
    decreases es
  {
    if es == [] then [] else [Inline(es[0], inner)] + InlineAll(es[1..], inner)
  }

  /** Reads the user's columns back out of outer SELECT columns: each must be
      aliased, and its alias and inlined expression form one column. */
  function UnhoistColumns(cols: seq<SelCol>, inner: seq<SimCol>): Option<seq<SimCol>>
  {
    if forall i :: 0 <= i < |cols| ==> cols[i].name.Some? then
      Some(seq(|cols|, i requires 0 <= i < |cols| && cols[i].name.Some? =>
                         SimCol(Inline(cols[i].exp, inner), cols[i].name.value)))
    else None
  }

  /** Reference inverse of simulate expansion: the macro-form request a
      resolved request, or a SELECT over exactly one resolved request, stands
      for. */
  function Unhoist(t: TableRef): Option<SimulateModelsExp> {
    match t
    case TabSimulate(m) => Some(SimulateModelsExp(m.columns, m.population, m.generator))
    case TabSelect(s) =>
      if |s.tables| == 1 && s.tables[0].table.TabSimulate? then
        var m := s.tables[0].table.simulate;
        match UnhoistColumns(s.columns, m.columns)
        case None => None
        case Some(cols) => Some(SimulateModelsExp(cols, m.population, m.generator))
      else None
    case _ => None
  }

  /** The k-th column of `inner` is named v(base + k). */
  ghost predicate SyntheticallyNamed(inner: seq<SimCol>, base: nat) {
    forall j :: 0 <= j < |inner| ==> inner[j].name == SyntheticName(base + j)
  }

  /** `found` sits in `inner` starting at position `next`. */
  ghost predicate Embedded(found: seq<SimCol>, inner: seq<SimCol>, next: nat) {
    next + |found| <= |inner| && inner[next..next + |found|] == found
  }

  lemma EmbeddedSplit(whole: seq<SimCol>, f1: seq<SimCol>, f2: seq<SimCol>, inner: seq<SimCol>, next: nat)
    requires whole == f1 + f2
    requires Embedded(whole, inner, next)
    ensures Embedded(f1, inner, next)
    ensures Embedded(f2, inner, next + |f1|)
  {
    assert inner[next..next + |f1|] == whole[..|f1|];
    assert inner[next + |f1|..next + |f1| + |f2|] == whole[|f1|..];
  }

  lemma {:induction false} LookupSynthetic(inner: seq<SimCol>, base: nat, k: nat)
    requires SyntheticallyNamed(inner, base)
    requires k < |inner|
    ensures Lookup(inner, SyntheticName(base + k)) == Some(inner[k].exp)
    decreases k
  {
    if k > 0 {
      SyntheticNameInjective(base, base + k);
      LookupSynthetic(inner[1..], base + 1, k - 1);
    }
  }

  lemma {:induction false} LookupMissing(inner: seq<SimCol>, base: nat, nm: string)
    requires SyntheticallyNamed(inner, base)
    requires !LooksSynthetic(nm)
    ensures Lookup(inner, nm) == None
  {
    if |inner| > 0 {
      assert inner[0].name == SyntheticName(base);
      SyntheticNameLooksSynthetic(base);
      LookupMissing(inner[1..], base + 1, nm);
    }
  }

  lemma {:induction false} InlineHoistExp(e: Exp, next: nat, inner: seq<SimCol>)
    requires Hoistable(e)
    requires NoSyntheticRefs(e)
    requires SyntheticallyNamed(inner, 0)
    requires Embedded(HoistExp(e, next).found, inner, next)
    ensures Inline(HoistExp(e, next).value, inner) == e
    decreases e
  {
    match e
    case ExpCol(None, nm) =>
      LookupMissing(inner, 0, nm);
    case ExpOp(_, args) =>
      InlineHoistExps(args, next, inner);
    case ExpApp(_, _, args) =>
      InlineHoistExps(args, next, inner);
    case ExpBQLMutInf(_, _, _, _) =>
      assert inner[next] == inner[next..next + 1][0];
      LookupSynthetic(inner, 0, next);
    case ExpBQLProbDensity(_, _) =>
      assert inner[next] == inner[next..next + 1][0];
      LookupSynthetic(inner, 0, next);
    case _ =>
  }

  lemma InlineAllStep(hs: seq<Exp>, es: seq<Exp>, inner: seq<SimCol>)
    requires |hs| == |es| > 0
    requires Inline(hs[0], inner) == es[0]
    requires InlineAll(hs[1..], inner) == es[1..]
    ensures InlineAll(hs, inner) == es
  {
  }

  lemma {:induction false} InlineHoistExps(es: seq<Exp>, next: nat, inner: seq<SimCol>)
    requires forall i :: 0 <= i < |es| ==> Hoistable(es[i])
    requires forall i :: 0 <= i < |es| ==> NoSyntheticRefs(es[i])
    requires SyntheticallyNamed(inner, 0)
    requires Embedded(HoistExps(es, next).found, inner, next)
    ensures InlineAll(HoistExps(es, next).value, inner) == es
    decreases es
  {
    if es != [] {
      var h := HoistExp(es[0], next);
      var t := HoistExps(es[1..], next + |h.found|);
      var r := HoistExps(es, next);
      HoistExpsStep(es, next);
      EmbeddedSplit(r.found, h.found, t.found, inner, next);
      InlineHoistExp(es[0], next, inner);
      InlineHoistExps(es[1..], next + |h.found|, inner);
      InlineAllStep(r.value, es, inner);
    }
  }

  lemma UnhoistHoistColumns(cols: seq<SimCol>, inner: seq<SimCol>)
    requires forall i :: 0 <= i < |cols| ==> Hoistable(cols[i].exp)
    requires forall i :: 0 <= i < |cols| ==> NoSyntheticRefs(cols[i].exp)
    requires SyntheticallyNamed(inner, 0)
    requires Embedded(HoistColumns(cols, 0).found, inner, 0)
    ensures UnhoistColumns(HoistColumns(cols, 0).value, inner) == Some(cols)
  {
    var es := ColumnExps(cols);
    var h := HoistExps(es, 0);
    InlineHoistExps(es, 0, inner);
    var r := HoistColumns(cols, 0);
    assert forall i :: 0 <= i < |r.value| ==> r.value[i].name.Some?;
    var u := UnhoistColumns(r.value, inner);
    forall i | 0 <= i < |cols| ensures u.value[i] == cols[i] {
      assert r.value[i].exp == h.value[i];
      assert InlineAll(h.value, inner)[i] == es[i];
    }
    assert u.value == cols;
  }

  /** Round trip: inlining the synthetic columns back into the outer SELECT
      recovers exactly the user's request: the same columns, names,
      expressions, population and generator. */
  lemma ExpandSimulateModelsRoundTrip(sim: SimulateModelsExp)
    requires WellFormedRequest(sim.columns)
    requires forall i :: 0 <= i < |sim.columns| ==> NoSyntheticRefs(sim.columns[i].exp)
    ensures Unhoist(ExpandSimulateModels(sim)) == Some(sim)
  {
    if !AllPrimitive(sim.columns) {
      var h := HoistColumns(sim.columns, 0);
      assert SyntheticallyNamed(h.found, 0);
      assert Embedded(h.found, h.found, 0);
      UnhoistHoistColumns(sim.columns, h.found);
    }
  }

  /** In a non-trivial expansion the synthetic columns are v0, v1, ... in
      order, so no two of them share a name. */
  lemma SyntheticColumnsDistinct(sim: SimulateModelsExp)
    requires WellFormedRequest(sim.columns)
    requires !AllPrimitive(sim.columns)
    ensures var inner := ExpandSimulateModels(sim).select.tables[0].table.simulate.columns;
            && (forall j :: 0 <= j < |inner| ==> inner[j].name == SyntheticName(j))
            && (forall j, k :: 0 <= j < k < |inner| ==> inner[j].name != inner[k].name)
  {
    var inner := ExpandSimulateModels(sim).select.tables[0].table.simulate.columns;
    forall j, k | 0 <= j < k < |inner| ensures inner[j].name != inner[k].name {
      SyntheticNameInjective(j, k);
    }
  }

  /** Expansion reaches a fixpoint at once: the resolved request it produces,
      offered again in macro form, is returned unchanged. */
  lemma ExpandSimulateModelsIdempotent(sim: SimulateModelsExp)
    requires WellFormedRequest(sim.columns)
    ensures var r := ExpandSimulateModels(sim);
            var m := if r.TabSimulate? then r.simulate else r.select.tables[0].table.simulate;
            && WellFormedRequest(m.columns)
            && ExpandSimulateModels(SimulateModelsExp(m.columns, m.population, m.generator)) == TabSimulate(m)
  {
  }

  /** Lowering a probability estimate and then expanding the simulate request
      it produced leaves a tree with no macro node, whose simulated table
      still stands for the one-column request averaged by AVG(x). */
  lemma LowerThenExpand(e: Exp, population: string, generator: string)
    requires Hoistable(e) && Primitives(e) != []
    requires MacroFreeExp(e)
    requires NoSyntheticRefs(e)
    ensures var lowered := ExpandProbabilityEstimate(ExpBQLProbEst(e), population, generator);
            var request := lowered.query.tables[0].table.request;
            && WellFormedRequest(request.columns)
            && var expanded := ExpSub(lowered.query.(tables := [SelTab(ExpandSimulateModels(request), None)]));
               && MacroFreeExp(expanded)
               && Unhoist(ExpandSimulateModels(request)) ==
                    Some(SimulateModelsExp([SimCol(e, EstimateColumn)], population, generator))
  {
    var lowered := ExpandProbabilityEstimate(ExpBQLProbEst(e), population, generator);
    var request := lowered.query.tables[0].table.request;
    assert request.columns == [SimCol(e, EstimateColumn)];
    ExpandSimulateModelsIsMacroFree(request);
    ExpandSimulateModelsRoundTrip(request);
    MeanOverMacroFree(ExpandSimulateModels(request));
  }

  /** The averaging query of a lowered estimate is macro-free once the table
      it reads is. */
  lemma MeanOverMacroFree(t: TableRef)
    requires MacroFreeTable(t)
    ensures MacroFreeExp(ExpSub(Select(All,
                                       [SelColExp(ExpApp(false, "AVG", [ExpCol(None, EstimateColumn)]), None)],
                                       [SelTab(t, None)],
                                       None, None, None, None)))
  {
    var avg := ExpApp(false, "AVG", [ExpCol(None, EstimateColumn)]);
    assert MacroFreeExp(avg.args[0]);
    assert MacroFreeList(None);
  }
}
