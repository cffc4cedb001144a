/** The fragment of the BQL abstract syntax that macro expansion reads and
    produces: scalar expressions (ordinary SQL combinators and the
    probabilistic primitives), simulate requests in macro and resolved form,
    and SELECT queries. All values are immutable and compared structurally,
    which is the equality the expansion's expected outputs are stated in.

    The module also holds the reference walks over these trees that the
    expansion is specified against: the depth-first list of primitive
    occurrences and macro-freeness. */
module Ast {

  datatype Option<+T> = None | Some(value: T)

  /** Literal values. A floating-point literal is kept as its spelling: the
      expansion only carries literals along and never computes with them. */
  datatype Literal =
    | LitInt(i: int)
    | LitFloat(spelling: string)
    | LitString(s: string)

  /** Operator tags of ExpOp nodes. */
  datatype Op =
    | OpBoolOr | OpBoolAnd | OpBoolNot
    | OpLt | OpLeq | OpGeq | OpGt | OpEq | OpNeq
    | OpAdd | OpSub | OpMul | OpDiv | OpRem | OpConcat | OpNegate

  /** A BQL expression. ExpBQLMutInf and ExpBQLProbDensity are the atomic
      probabilistic primitives, answered only by a generator's sampler;
      ExpBQLProbEst is the macro node "expected value of the expression". */
  datatype Exp =
    | ExpLit(lit: Literal)
    | ExpCol(table: Option<string>, column: string)
    | ExpOp(op: Op, operands: seq<Exp>)
    | ExpApp(distinct: bool, name: string, args: seq<Exp>)
    | ExpSub(query: Select)
    | ExpBQLMutInf(columns0: seq<string>, columns1: seq<string>,
                   constraints: seq<ColValue>, nsamples: Option<int>)
    | ExpBQLProbDensity(targets: seq<ColValue>, constraints: seq<ColValue>)
    | ExpBQLProbEst(expression: Exp)

  /** A (column, value) pair: a conditioning constraint or a density target. */
  datatype ColValue = ColValue(column: string, value: Exp)

  /** One named output column of a simulate request. */
  datatype SimCol = SimCol(exp: Exp, name: string)

  /** Simulate request in macro form: its columns may still be arbitrary
      expressions over primitives. */
  datatype SimulateModelsExp =
    SimulateModelsExp(columns: seq<SimCol>, population: string, generator: string)

  /** Simulate request in resolved form: every column is one primitive. */
  datatype SimulateModels =
    SimulateModels(columns: seq<SimCol>, population: string, generator: string)

  datatype Quantifier = All | Distinct

  datatype SelCol = SelColExp(exp: Exp, name: Option<string>)

  /** What a FROM clause entry names: a table, a nested query, or a simulate
      request in either form. */
  datatype TableRef =
    | TabName(table: string)
    | TabSelect(select: Select)
    | TabSimulateExp(request: SimulateModelsExp)
    | TabSimulate(simulate: SimulateModels)

  datatype SelTab = SelTab(table: TableRef, name: Option<string>)

  /** The expression list of a GROUP BY or ORDER BY clause. */
  datatype Terms = Terms(items: seq<Exp>)

  datatype Select = Select(quantifier: Quantifier,
                           columns: seq<SelCol>,
                           tables: seq<SelTab>,
                           condition: Option<Exp>,
                           grouping: Option<Terms>,
                           having: Option<Exp>,
                           order: Option<Terms>)

  /** The primitive classifier: true exactly for the atomic estimator nodes,
      whatever their internal arguments. */
  predicate IsPrimitive(e: Exp) {
    e.ExpBQLMutInf? || e.ExpBQLProbDensity?
  }

  predicate AllPrimitive(cols: seq<SimCol>) {
    forall i :: 0 <= i < |cols| ==> IsPrimitive(cols[i].exp)
  }

  /** Resolved form: a simulate request the generator can answer directly. */
  predicate Resolved(m: SimulateModels) {
    AllPrimitive(m.columns)
  }

  /** An expression the simulate hoister can walk: combinators (literals,
      column references, operator and function applications) over
      primitives. Primitives are atomic, so their arguments are not looked at. */
  predicate Hoistable(e: Exp)
    decreases e
  {
    match e
    case ExpLit(_) => true
    case ExpCol(_, _) => true
    case ExpOp(_, args) => forall i :: 0 <= i < |args| ==> Hoistable(args[i])
    case ExpApp(_, _, args) => forall i :: 0 <= i < |args| ==> Hoistable(args[i])
    case ExpSub(_) => false
    case ExpBQLMutInf(_, _, _, _) => true
    case ExpBQLProbDensity(_, _) => true
    case ExpBQLProbEst(_) => false
  }

  /** Reference definition: the primitive occurrences of `e`, depth first and
      left to right, one entry per occurrence. */
  function Primitives(e: Exp): (r: seq<Exp>)
    ensures forall k :: 0 <= k < |r| ==> IsPrimitive(r[k])
    decreases e
  {
    match e
    case ExpOp(_, args) => PrimitivesOf(args)
    case ExpApp(_, _, args) => PrimitivesOf(args)
    case ExpBQLMutInf(_, _, _, _) => [e]
    case ExpBQLProbDensity(_, _) => [e]
    case _ => []
  }

  function PrimitivesOf(es: seq<Exp>): (r: seq<Exp>)
    ensures forall k :: 0 <= k < |r| ==> IsPrimitive(r[k])
    decreases es
  {
    if es == [] then [] else Primitives(es[0]) + PrimitivesOf(es[1..])
  }

  /** The expressions of a list of simulate columns, in order. */
  function ColumnExps(cols: seq<SimCol>): seq<Exp> {
    seq(|cols|, i requires 0 <= i < |cols| => cols[i].exp)
  }

  /** The expressions of a list of output columns, in order. */
  function OutputExps(cols: seq<SelCol>): seq<Exp> {
    seq(|cols|, i requires 0 <= i < |cols| => cols[i].exp)
  }

  /** The primitive occurrences of a list of simulate columns, in order. */
  function ColumnPrimitives(cols: seq<SimCol>): (r: seq<Exp>)
    ensures forall k :: 0 <= k < |r| ==> IsPrimitive(r[k])
  {
    PrimitivesOf(ColumnExps(cols))
  }

  /** A list has no primitive occurrence exactly when none of its members has. */
  lemma {:induction false} PrimitivesOfEmpty(es: seq<Exp>)
    ensures PrimitivesOf(es) == [] <==> forall i :: 0 <= i < |es| ==> Primitives(es[i]) == []
    decreases es
  {
    if es != [] {
      PrimitivesOfEmpty(es[1..]);
      if PrimitivesOf(es) == [] {
        forall i | 0 <= i < |es| ensures Primitives(es[i]) == [] {
          if i > 0 { assert es[i] == es[1..][i - 1]; }
        }
      } else if Primitives(es[0]) == [] {
        var i :| 0 <= i < |es[1..]| && Primitives(es[1..][i]) != [];
        assert es[i + 1] == es[1..][i];
      }
    }
  }

  /** A primitive occurrence is a subtree, so it holds no macro node when
      the whole expression holds none. */
  lemma {:induction false} PrimitivesMacroFree(e: Exp)
    requires MacroFreeExp(e)
    ensures forall k :: 0 <= k < |Primitives(e)| ==> MacroFreeExp(Primitives(e)[k])
    decreases e
  {
    match e
    case ExpOp(_, args) => PrimitivesOfMacroFree(args);
    case ExpApp(_, _, args) => PrimitivesOfMacroFree(args);
    case _ =>
  }

  lemma {:induction false} PrimitivesOfMacroFree(es: seq<Exp>)
    requires forall i :: 0 <= i < |es| ==> MacroFreeExp(es[i])
    ensures forall k :: 0 <= k < |PrimitivesOf(es)| ==> MacroFreeExp(PrimitivesOf(es)[k])
    decreases es
  {
    if es != [] {
      PrimitivesMacroFree(es[0]);
      PrimitivesOfMacroFree(es[1..]);
      var a, b := Primitives(es[0]), PrimitivesOf(es[1..]);
      assert PrimitivesOf(es) == a + b;
      forall k | 0 <= k < |a + b| ensures MacroFreeExp((a + b)[k]) {
        if k >= |a| { assert (a + b)[k] == b[k - |a|]; }
      }
    }
  }

  /** No macro node (probability estimate or macro-form simulate request)
      anywhere in the tree, including inside primitives and subqueries. */
  predicate MacroFreeExp(e: Exp)
    decreases e
  {
    match e
    case ExpLit(_) => true
    case ExpCol(_, _) => true
    case ExpOp(_, args) => forall i :: 0 <= i < |args| ==> MacroFreeExp(args[i])
    case ExpApp(_, _, args) => forall i :: 0 <= i < |args| ==> MacroFreeExp(args[i])
    case ExpSub(q) => MacroFreeSelect(q)
    case ExpBQLMutInf(_, _, cs, _) =>
      forall i :: 0 <= i < |cs| ==> MacroFreeExp(cs[i].value)
    case ExpBQLProbDensity(ts, cs) =>
      && (forall i :: 0 <= i < |ts| ==> MacroFreeExp(ts[i].value))
      && (forall i :: 0 <= i < |cs| ==> MacroFreeExp(cs[i].value))
    case ExpBQLProbEst(_) => false
  }

  predicate MacroFreeSelect(s: Select)
    decreases s
  {
    && (forall i :: 0 <= i < |s.columns| ==> MacroFreeExp(s.columns[i].exp))
    && (forall i :: 0 <= i < |s.tables| ==> MacroFreeTable(s.tables[i].table))
    && (s.condition.Some? ==> MacroFreeExp(s.condition.value))
    && MacroFreeList(s.grouping)
    && (s.having.Some? ==> MacroFreeExp(s.having.value))
    && MacroFreeList(s.order)
  }

  predicate MacroFreeList(ts: Option<Terms>)
    decreases ts
  {
    match ts
    case None => true
    case Some(t) => forall i :: 0 <= i < |t.items| ==> MacroFreeExp(t.items[i])
  }

  predicate MacroFreeTable(t: TableRef)
    decreases t
  {
    match t
    case TabName(_) => true
    case TabSelect(q) => MacroFreeSelect(q)
    case TabSimulateExp(_) => false
    case TabSimulate(m) =>
      forall i :: 0 <= i < |m.columns| ==> MacroFreeExp(m.columns[i].exp)
  }
}
