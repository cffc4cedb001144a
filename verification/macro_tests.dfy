/** The expected outputs of the macro expander on three concrete requests:
    the lowering of a probability estimate, a simulate request that is
    already resolved, and one whose columns combine several primitives. */
module MacroTests {
  import opened Ast
  import opened SyntheticNames
  import opened Macro

  /** MUTUAL INFORMATION OF c0 WITH c1, c2 GIVEN c3 = 3. */
  const MutInf0: Exp := ExpBQLMutInf(["c0"], ["c1", "c2"], [ColValue("c3", ExpLit(LitInt(3)))], None)

  /** MUTUAL INFORMATION OF c4, c5 WITH c6 GIVEN c7 = 'ergodic' USING 100 SAMPLES. */
  const MutInf1: Exp := ExpBQLMutInf(["c4", "c5"], ["c6"], [ColValue("c7", ExpLit(LitString("ergodic")))], Some(100))

  /** PROBABILITY DENSITY OF x = 1.2, with no conditions. */
  const ProbDensity: Exp := ExpBQLProbDensity([ColValue("x", ExpLit(LitFloat("1.2")))], [])

  const Tenth: Exp := ExpLit(LitFloat("0.1"))

  /** (mutinf0 < 0.1 * mutinf1), and the same with v0 and v1 in place of the
      two primitives. */
  const Expression0: Exp := ExpOp(OpLt, [MutInf0, ExpOp(OpMul, [Tenth, MutInf1])])
  const Expression0Hoisted: Exp :=
    ExpOp(OpLt, [ExpCol(None, "v0"), ExpOp(OpMul, [Tenth, ExpCol(None, "v1")])])

  lemma ExpandProbabilityEstimateExample()
    ensures var expression := ExpOp(OpLt, [MutInf0, ExpLit(LitFloat("0.1"))]);
            ExpandProbabilityEstimate(ExpBQLProbEst(expression), "p", "g") ==
              ExpSub(Select(All,
                            [SelColExp(ExpApp(false, "AVG", [ExpCol(None, "x")]), None)],
                            [SelTab(TabSimulateExp(SimulateModelsExp([SimCol(expression, "x")], "p", "g")), None)],
                            None, None, None, None))
  {
  }

  lemma ExpandSimulateModelsTrivialExample()
    ensures ExpandSimulateModels(SimulateModelsExp([SimCol(MutInf0, "x")], "p", "g")) ==
              TabSimulate(SimulateModels([SimCol(MutInf0, "x")], "p", "g"))
  {
  }

  /** Hoisting a one- or two-element operand list, spelled out. */
  lemma HoistOne(a: Exp, next: nat)
    requires Hoistable(a)
    ensures HoistExps([a], next) == Hoisted([HoistExp(a, next).value], HoistExp(a, next).found)
  {
    var h := HoistExp(a, next);
    var t := HoistExps([a][1..], next + |h.found|);
    assert [a][1..] == [];
    assert [h.value] + t.value == [h.value];
    assert h.found + t.found == h.found;
  }

  lemma HoistTwo(a: Exp, b: Exp, next: nat)
    requires Hoistable(a) && Hoistable(b)
    ensures var h := HoistExp(a, next);
            var t := HoistExp(b, next + |h.found|);
            HoistExps([a, b], next) == Hoisted([h.value, t.value], h.found + t.found)
  {
    var h := HoistExp(a, next);
    assert [a, b][1..] == [b];
    HoistOne(b, next + |h.found|);
    var t := HoistExps([b], next + |h.found|);
    assert [h.value] + t.value == [h.value, t.value[0]];
  }

  lemma PrimitivesOfTwo(a: Exp, b: Exp)
    ensures PrimitivesOf([a, b]) == Primitives(a) + Primitives(b)
  {
    assert [a, b][1..] == [b];
    assert [b][1..] == [];
    assert PrimitivesOf([b]) == Primitives(b) + PrimitivesOf([]);
    assert Primitives(b) + [] == Primitives(b);
  }

  lemma HoistExpression0()
    ensures Hoistable(Expression0)
    ensures Primitives(Expression0) == [MutInf0, MutInf1]
    ensures HoistExp(Expression0, 0) ==
              Hoisted(Expression0Hoisted, [SimCol(MutInf0, "v0"), SimCol(MutInf1, "v1")])
  {
    var product := ExpOp(OpMul, [Tenth, MutInf1]);
    assert SyntheticName(0) == "v0" && SyntheticName(1) == "v1";
    PrimitivesOfTwo(Tenth, MutInf1);
    PrimitivesOfTwo(MutInf0, product);
    HoistTwo(Tenth, MutInf1, 1);
    var product' := ExpOp(OpMul, [Tenth, ExpCol(None, "v1")]);
    assert HoistExp(product, 1) == Hoisted(product', [SimCol(MutInf1, "v1")]);
    HoistTwo(MutInf0, product, 0);
  }

  /** A primitive repeated twice is hoisted twice: `mutinf0 + mutinf0`
      rewrites to `v0 + v1`, never to `v0 + v0`. */
  lemma HoistRepeatedPrimitive()
    ensures HoistExp(ExpOp(OpAdd, [MutInf0, MutInf0]), 0) ==
              Hoisted(ExpOp(OpAdd, [ExpCol(None, "v0"), ExpCol(None, "v1")]),
                      [SimCol(MutInf0, "v0"), SimCol(MutInf0, "v1")])
  {
    assert SyntheticName(0) == "v0" && SyntheticName(1) == "v1";
    HoistTwo(MutInf0, MutInf0, 0);
  }

  lemma ExpandSimulateModelsNontrivialExample()
    ensures var cols := [SimCol(Expression0, "quagga"), SimCol(ProbDensity, "eland")];
            && WellFormedRequest(cols)
            && ExpandSimulateModels(SimulateModelsExp(cols, "p", "g")) ==
                 TabSelect(Select(All,
                                  [SelColExp(Expression0Hoisted, Some("quagga")),
                                   SelColExp(ExpCol(None, "v2"), Some("eland"))],
                                  [SelTab(TabSimulate(SimulateModels([SimCol(MutInf0, "v0"),
                                                                      SimCol(MutInf1, "v1"),
                                                                      SimCol(ProbDensity, "v2")], "p", "g")),
                                          None)],
                                  None, None, None, None))
  {
    var cols := [SimCol(Expression0, "quagga"), SimCol(ProbDensity, "eland")];
    HoistExpression0();
    assert SyntheticName(2) == "v2";
    assert WellFormedRequest(cols);
    assert ColumnExps(cols) == [Expression0, ProbDensity];
    HoistTwo(Expression0, ProbDensity, 0);
    var found := [SimCol(MutInf0, "v0"), SimCol(MutInf1, "v1"), SimCol(ProbDensity, "v2")];
    assert [SimCol(MutInf0, "v0"), SimCol(MutInf1, "v1")] + [SimCol(ProbDensity, "v2")] == found;
    assert HoistExps(ColumnExps(cols), 0) == Hoisted([Expression0Hoisted, ExpCol(None, "v2")], found);
    var h := HoistColumns(cols, 0);
    assert h.value == [SelColExp(Expression0Hoisted, Some("quagga")), SelColExp(ExpCol(None, "v2"), Some("eland"))];
    assert h.found == found;
    assert !IsPrimitive(cols[0].exp);
  }
}
