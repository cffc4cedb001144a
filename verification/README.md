# BQL macro expansion, modelled in Dafny

bayeslite compiles BQL, a query language with probabilistic estimators,
into plain SQL over a virtual "simulate" table that a generator answers by
drawing from its posterior. This project models the part of that compiler
which removes the two BQL macro forms from a tree:

- `expand_probability_estimate(probest, p, g)` lowers "expected value of E"
  (`ExpBQLProbEst(E)`) into a scalar subquery `SELECT AVG(x)` over a
  one-column simulate request `SimulateModelsExp([SimCol(E, 'x')], p, g)`.
  The request stays in macro form, and E is carried verbatim and unhoisted.
- `expand_simulate_models(simmodels)`, the simulate hoister, turns a
  macro-form request into something a generator can answer. There are two
  cases:
  - When every output column is a single primitive (mutual information or
    probability density), it returns the resolved request with the same
    columns.
  - Otherwise it walks the columns depth first and left to right. It gives
    every primitive occurrence its own synthetic column `v0, v1, ...` of one
    resolved request, and replaces the occurrence by an unqualified
    reference to that column. It then wraps the request in a `SELECT ALL`
    that keeps the user's column names as aliases.

The behaviour is the one fixed by the exact expected trees of
`tests/test_macro.py`. The implementation files `bayeslite/macro.py` and
`bayeslite/ast.py` are not part of this model.

Layout:

- `ast.dfy` (`Ast`): the AST fragment as immutable datatypes, compared
  structurally. It also holds the reference walks the expansion is stated
  against:
  - `Primitives` lists the primitive occurrences depth first, left to right;
  - `MacroFreeExp` / `MacroFreeSelect` / `MacroFreeTable` say "no macro node
    anywhere";
  - `Hoistable` describes the trees the hoister walks.
- `synthetic_names.dfy` (`SyntheticNames`): the names `v<k>`, the decimal
  spelling of the counter and its inverse.
- `macro.dfy` (`Macro`): the two expansions, plus the counter-threading
  hoister (`HoistExp`, `HoistExps`, `HoistColumns`) and its contracts.
- `macro_properties.dfy` (`MacroProperties`): an independent inverse of
  hoisting (`Unhoist`, which inlines the synthetic columns back). It proves:
  - the round trip;
  - the distinctness of the synthetic names;
  - idempotence;
  - lowering followed by hoisting.
- `macro_tests.dfy` (`MacroTests`): the three test cases as lemmas.

## Model

| member | source | states |
|---|---|---|
| Macro.ExpandProbabilityEstimate | tests/test_macro.py:21-41 | The lowered tree is a subquery computing AVG of the single column of a simulate request. That request is still in macro form, on the same population and generator, and its one column `x` is the estimated expression verbatim. The result is not macro-free, so it still needs a hoisting pass. |
| Macro.ExpandSimulateModels | tests/test_macro.py:43-94 | The result is a resolved request exactly when every column is one primitive, and then it holds the identical columns. Otherwise it is a `SELECT ALL` with these properties: one aliased, primitive-free column per user column, in order; one unaliased resolved request on the same population and generator, whose columns are the input's primitive occurrences in discovery order, named v0, v1, ...; no WHERE/GROUP BY/HAVING/ORDER BY. Read depth first, the references to synthetic columns in the output columns are v0, v1, ... in order, one per primitive occurrence, so the k-th occurrence reads column v(k) even when primitives repeat. Either way the inner request is resolved. |
| Macro.HoistColumns | tests/test_macro.py:73-85 | One rewritten column per input column, in order, each aliased with the user's column name. The synthetic columns are the primitives of all columns, numbered on from column to column. |
| Macro.HoistExpNamesPrimitives | tests/test_macro.py:76-91 | The synthetic columns created for one expression are its primitive occurrences in depth-first, left-to-right order, named consecutively from the counter. Each primitive is kept whole, arguments included. |
| Macro.HoistExpsNamePrimitives | tests/test_macro.py:76-84 | The same for an operand list: the counter runs on from operand to operand, with no gap or repeat. |
| Macro.HoistExpRefsInOrder | tests/test_macro.py:76-91 | Read depth first, the references to synthetic columns in a rewritten expression are v(next), v(next + 1), ..., exactly one per primitive occurrence and in the same order, so the k-th occurrence is replaced by a reference to the k-th synthetic column. |
| Macro.HoistExpsRefsInOrder | tests/test_macro.py:76-84 | The same for an operand list, with the counter running on from operand to operand. |
| Macro.HoistColumnsRefsInOrder | tests/test_macro.py:73-85 | The same across all output columns of a request, in column order. |
| Macro.HoistExpLeavesNoPrimitive | tests/test_macro.py:76-84 | No primitive survives in a rewritten expression: every occurrence, including a bare primitive column, becomes a reference. |
| Macro.HoistColumnsLeaveNoPrimitive | tests/test_macro.py:73-85 | No rewritten output column contains a primitive. |
| Macro.HoistExpKeepsMacroFree | tests/test_macro.py:76-84 | Rewriting adds no macro node to an expression. |
| Macro.ExpandSimulateModelsIsMacroFree | tests/test_macro.py:86-94 | Expanding a request whose columns hold no macro node leaves no macro node anywhere in the result, including the inner request. |
| MacroProperties.InlineHoistExp | tests/test_macro.py:62-84 | Substituting each synthetic column's primitive back for its reference gives back the original expression. Combinator structure, literals and column references are untouched by hoisting. |
| MacroProperties.InlineHoistExps | tests/test_macro.py:62-84 | The same for a whole operand list, with the counter threaded through. |
| MacroProperties.ExpandSimulateModelsRoundTrip | tests/test_macro.py:51-94 | Reading the user's request back out of the expansion gives it back exactly: the same columns, names, population and generator. This holds in both the trivial and the non-trivial case. |
| MacroProperties.SyntheticColumnsDistinct | tests/test_macro.py:86-91 | In a non-trivial expansion the k-th synthetic column is named v(k), so no two synthetic columns share a name. |
| MacroProperties.ExpandSimulateModelsIdempotent | tests/test_macro.py:43-49 | The resolved request an expansion produces, offered again in macro form, comes back unchanged as the same resolved request. |
| MacroProperties.LowerThenExpand | tests/test_macro.py:21-41 | Take a lowered probability estimate and expand its inner request. The expanded request is well formed, the whole tree is macro-free, and the expanded request still stands for the one-column request over the estimated expression. |
| MacroProperties.LookupSynthetic | tests/test_macro.py:86-91 | Looking up v(k) among synthetic columns named in order finds the k-th column. |
| MacroProperties.LookupMissing | tests/test_macro.py:86-91 | A name that does not have the shape `v<digits>` is never found among synthetic columns. |
| SyntheticNames.SyntheticNameInjective | tests/test_macro.py:76-91 | Two synthetic names are equal exactly when their counters are. |
| SyntheticNames.ParseDecimalInverse | tests/test_macro.py:76-91 | Reading back the decimal spelling of the counter gives the counter. |
| SyntheticNames.Decimal | tests/test_macro.py:76-91 | The decimal spelling of the counter is non-empty, all digits, one digit long exactly for counters below 10, and canonical: from 10 on it has no leading zero, so v10, v11, ... are spelled as `v%d` spells them. |
| SyntheticNames.DecimalCanonical | tests/test_macro.py:76-91 | A digit string without a leading zero is the decimal spelling of the number it denotes, so `Decimal` is the unique canonical spelling and the synthetic names are exactly `v0`, `v1`, ..., `v10`, ... |
| Ast.Primitives | tests/test_macro.py:52-65 | Reference definition of the primitive occurrences of an expression, depth first and left to right, against which the hoister's synthetic columns are stated. Its contract states only that every entry is a primitive node. |
| Ast.PrimitivesOfEmpty | tests/test_macro.py:62-65 | A list of expressions has no primitive occurrence exactly when none of its members has one. |
| Ast.PrimitivesMacroFree | tests/test_macro.py:52-61 | A primitive occurrence of a macro-free expression is itself macro-free. |
| MacroTests.ExpandProbabilityEstimateExample | tests/test_macro.py:21-41 | The expected lowering of `mutinf0 < 0.1` on population p and generator g. |
| MacroTests.ExpandSimulateModelsTrivialExample | tests/test_macro.py:43-49 | A single bare primitive column `x` is answered directly, keeping the user's name. |
| MacroTests.HoistExpression0 | tests/test_macro.py:62-84 | `mutinf0 < 0.1 * mutinf1` rewrites to `v0 < 0.1 * v1`, with synthetic columns v0 and v1. |
| MacroTests.HoistRepeatedPrimitive | tests/test_macro.py:76-91 | A primitive that occurs twice gets two synthetic columns: `mutinf0 + mutinf0` rewrites to `v0 + v1`. |
| MacroTests.ExpandSimulateModelsNontrivialExample | tests/test_macro.py:51-94 | The expected expansion of the `quagga`/`eland` request, with the synthetic columns v0, v1, v2. |

## Left out

- The recursive macro driver is not modelled. It is the loop that finds macro nodes anywhere in a statement and expands them until none remain, with a bound on the number of passes. No part of it is fixed by the expected trees. `MacroProperties.LowerThenExpand` shows the one composition it performs: lowering, then hoisting the produced request.
- A column with no primitive is excluded by the precondition `Macro.WellFormedRequest`; how bayeslite reports it is not modelled.
- Subqueries and probability estimates nested inside a simulate column are excluded by the `Ast.Hoistable` precondition. No expected tree shows what the hoister does with them.
- Repeated identical primitives are not deduplicated. Each occurrence gets its own synthetic column. Sharing a column between duplicates is not modelled.
- Other estimator shapes besides mutual information and probability density are not modelled (similarity, predictive probability, and so on). Only these two appear in the expected trees.
- Floating-point literals are kept as their spelling (`LitFloat("0.1")`). The expansion never computes with them, and only structural equality matters.
- The Python functions return a bare `Select` or `SimulateModels`. The model returns both inside one `TableRef` type (`TabSelect` / `TabSimulate`), so that the result can be placed directly in a FROM clause. The constructors inside are the same.
- The model has no `LIMIT` on `Select` and no ORDER BY direction, because the expansion never produces either.
- MacroProperties.ExpandSimulateModelsRoundTrip: the round trip excludes user column references spelled `v<digits>` (`Macro.NoSyntheticRefs`). Hoisting would capture them, and the model does not rule that input out.
- Macro.ExpandSimulateModels: the clause that the output columns reference v0, v1, ... in order is stated only for user columns without references spelled `v<digits>` (`Macro.NoSyntheticRefs`). Such a user reference could not be told apart from a synthetic one.
- The BQL parser, the SQL emitter and the evaluation of primitives by a generator are not modelled. They are external collaborators.
- Session recording, the loom backend and subsampling are not modelled, because they are I/O, persistence and numerics.
