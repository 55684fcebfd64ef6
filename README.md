# Quadric-surface classifier

A Dafny model of `identificar_superficie_cuadrica` (main.py), the part of the multivariable
calculator that names the quadric surface an equation in three variables describes. It takes the
expanded expression and the list of variables. It then tries a fixed cascade of syntactic rules:
ellipsoid, the two hyperboloids, the two paraboloids, elliptic cone, elliptic and parabolic
cylinder. The first rule that matches gives one of eight Spanish labels. If no rule matches, or a
sign comparison cannot be decided, there is no label.

## Structure

- `polynomial.dfy`, module `Polynomial`: the expanded expression in normal form, plus the
  structural queries the classifier makes of it. A summand is `Term(coef, ex, ey, ez)` with an
  exact `real` coefficient. An expression is either `Sum(terms)` (a sum node) or `Single(term)`
  (any other node). The queries are:
  - `HasSquare`: `term.has(v**2)`, true only when the exponent of v is exactly 2, so `x**4`
    does not count.
  - `HasVar`: `term.has(v)`.
  - `IsMulOrPow`: `is_Mul or is_Pow`.
  - `Quotient`: `term.coeff(v**2)`.
  - `Factors`: the `args` of a single non-sum node. That is nothing for a number or a bare
    symbol, `(v, k)` for a power, and the coefficient (unless 1) plus one factor per variable for
    a product.
- `classifier.dfy`, module `Quadric`: the cascade written rule by rule in source order.
  - `Checked<T>` is a value or the `TypeError` raised when the truth value of a comparison with
    a non-numeric side is needed. `OrElse` and `AndAlso` are Python's short-circuit `or`/`and`
    over it.
  - `Select` builds the `pos`/`neg` lists. `ZTerms` and `OtherTerms` build the paraboloid's
    `z_terms` and `other_terms`.
  - `Cascade` is the body of the `try` block. `Classify` is the whole function: the arity guard,
    then the cascade, with both fall-through and a raised `TypeError` giving `None`.
- `properties.dfy`, module `QuadricProperties`: a reference decision table. `ShapeOf` collects
  the nine facts about a sum that the rules look at, `Decide` maps them to a label, and
  `SingleReference` does the same from the monomial of a single node. `ClassifyMatchesReference`
  proves the classifier agrees with the table for every expression and every variable list of
  length three. The rule-by-rule properties and order independence follow from it. Module
  `QuadricExamples` holds concrete and parametric instances.

The variable list is a `seq<Var>` over the three symbols `X`, `Y`, `Z`. The classifier binds
`x, y, z` to its first three entries, exactly as line 16 does, so permuted and repeated lists are
covered too. No lemma of `QuadricProperties` assumes that the summands of a sum have distinct
monomials or non-zero coefficients: those properties hold for any list of terms. The parametric
examples `QuadricExamples.ShiftedSquares` and `QuadricExamples.ParaboloidShapeUnlabelled` do
require their coefficient parameters to be non-zero, as the coefficients of an expanded sum
always are. With a zero coefficient a summand is the number 0, and the label can change: for
example, `z + 0*x**2 + b*y**2` as a three-term list passes the ellipsoid rule.

Where the code and the intent stated in its own comments disagree, the model follows the code:

- The comment at main.py:21 gives `x²/a² + y²/b² + z²/c² = 1` as the ellipsoid. Moved to one
  side, that equation has four summands, and the code returns no label for it
  (`ShiftedSquaresExamples`).
- The paraboloid forms in the comments at main.py:41-42 (`z - x**2 - y**2`,
  `z - x**2 + y**2`) are three-summand sums, and the code gives them no label
  (`ParaboloidExamplesUnlabelled`). The paraboloid branch itself can never fire
  (`ParaboloidUnreachable`), so only six of the eight labels can actually be returned.
- A three-summand sum none of whose summands is a product or a power (`x + y + z`) is labelled
  an ellipsoid, because `all` over an empty list is true.
- `x**2 + y**2` is a cone, not a cylinder.
- `x**2` on its own gets no label, because its `args` are `x` and `2`. `2*x**2` on its own is a
  parabolic cylinder.

## Model

| member | source | states |
|---|---|---|
| `Polynomial.Factors` | main.py:62-67 | The children of a single non-sum node contain v**2 exactly when the node is a product (not a bare power) with exponent 2 on v. They contain v exactly when the node is a product or power in which v occurs. |
| `Polynomial.Quotient` | main.py:30-35 | For a summand that contains v**2 (every call sits behind `term.has(v**2)`), `term.coeff(v**2)` keeps the coefficient, removes v and leaves the other exponents unchanged. |
| `Polynomial.HasSquare` | main.py:24 | `term.has(v**2)`: true exactly when v has exponent 2 in a non-zero term. It has no contract of its own. `Polynomial.Factors` states what it sees through a node's children, and `Quadric.SquareCompareFacts` what it guards. |
| `Polynomial.HasVar` | main.py:44 | `term.has(v)`: true exactly when v occurs in a non-zero term. It has no contract of its own. `Polynomial.Factors` states what it sees through a node's children. |
| `Polynomial.IsMulOrPow` | main.py:23 | `term.is_Mul or term.is_Pow`: anything but a number or a bare symbol. It has no contract of its own. `QuadricProperties.NoProductsIsEllipsoid` and `Polynomial.Factors` state its effect. |
| `Polynomial.Args` | main.py:22-67 | `expr.args`: the summands of a sum, the children of any other node. It has no contract of its own. `Polynomial.Factors` states what the children contain, and `QuadricProperties.ClassifyMatchesReference` pins its use. |
| `Quadric.NamesDistinct` | main.py:22-67 | The eight labels are pairwise different strings, so a label names exactly one surface. |
| `Quadric.Compare` | main.py:30-35 | `q > 0` (or `q < 0`) used as a condition, raising unless q is a number. It has no contract of its own. `Quadric.SquareCompareFacts` states when a guarded comparison raises and when it holds. |
| `Quadric.OrElse` | main.py:30-35 | Python's `or`: the plain disjunction when neither side raises. A raise on the right escapes only when the left side is false. |
| `Quadric.AndAlso` | main.py:50-52 | Python's `and`: the plain conjunction when neither side raises. A raise on the right escapes only when the left side is true. |
| `Quadric.SquareCompare` | main.py:30-35 | `(term.coeff(v**2) > 0 if term.has(v**2) else False)`. It has no contract of its own. `Quadric.SquareCompareFacts` states when it raises and when it holds. |
| `Quadric.SquareCompareFacts` | main.py:30-35 | One `coeff(v**2) > 0` / `< 0` test raises exactly when v**2 occurs alongside another variable. It holds exactly for c*v**2 with c of the right sign. A summand that is c*v**2 contains no other square. |
| `Quadric.SquareSign` | main.py:30-35 | The `or` of the three squared-variable comparisons raises exactly when the summand is not decidable. Otherwise it holds exactly when the summand is c*v**2 for a v of the triple with c of the tested sign. |
| `Quadric.Select` | main.py:30-35 | The `pos`/`neg` comprehension raises exactly when some summand is undecidable. Otherwise it keeps exactly the signed squares, and its length is their count. |
| `Quadric.EllipsoidTest` | main.py:23-24 | Every product or power summand contains x**2, or every one y**2, or every one z**2. It has no contract of its own. `QuadricProperties.EllipsoidExactly` ties it to the label. |
| `Quadric.HyperboloidStep` | main.py:29-39 | Raises exactly when some summand is undecidable. Otherwise one sheet exactly for counts (2 positive, 1 negative) and two sheets exactly for (1, 2); anything else falls through. |
| `Quadric.ZTerms` | main.py:44 | `z_terms` holds exactly the summands that contain z and neither x**2 nor y**2. |
| `Quadric.OtherTerms` | main.py:46 | `other_terms` holds exactly the summands not in `z_terms`. It is shorter than the sum whenever some summand is a z-term. |
| `Quadric.ParaboloidStep` | main.py:43-53 | On a sum of at most two summands the paraboloid branch always falls through. |
| `Quadric.ConeTest` | main.py:57-58 | Every summand contains x**2 or y**2, or every summand contains z**2. It has no contract of its own. `QuadricProperties.ConeExactly` ties it to the label. |
| `Quadric.CylinderStep` | main.py:62-67 | The cylinder rule over a node's children. It has no contract of its own. `QuadricProperties.CylinderConditions`, `QuadricProperties.CylinderExactly` and `QuadricProperties.SingleMatchesReference` state the rule for the whole classifier. |
| `Quadric.Cascade` | main.py:20-71 | The rule cascade raises, so the handler runs, exactly for a sum past the ellipsoid rule that has a summand which is not decidable. |
| `Quadric.Classify` | main.py:13-14 | A variable list whose length is not three gives no label, whatever the expression. |
| `QuadricProperties.ClassifyMatchesReference` | main.py:11-73 | For every expression and variable triple, the classifier's result equals the reference decision table. |
| `QuadricProperties.SumMatchesReference` | main.py:20-73 | For a sum, the cascade with its swallowed TypeError equals the table on the sum's shape, with no paraboloid rule. |
| `QuadricProperties.SingleMatchesReference` | main.py:62-67 | For a single node, the result equals the table read off its monomial: only a z-free product with x**2 or y**2 is a cylinder. |
| `QuadricProperties.CountsShareSummands` | main.py:30-39 | No summand is counted as both positive and negative, so the two counts together are at most the number of summands. |
| `QuadricProperties.CountPermutation` | main.py:30-36 | The positive and negative counts do not depend on the order of the summands. |
| `QuadricProperties.EllipsoidExactly` | main.py:22-25 | The ellipsoid label is returned exactly for three-summand sums whose product/power summands all contain x**2, or all y**2, or all z**2. |
| `QuadricProperties.NoProductsIsEllipsoid` | main.py:22-25 | Three summands with no product or power among them are labelled an ellipsoid. |
| `QuadricProperties.HyperboloidByCounts` | main.py:29-39 | Past the ellipsoid rule and with every summand decidable: one sheet exactly when the counts are 2 positive and 1 negative, two sheets exactly when they are 1 and 2. |
| `QuadricProperties.HyperboloidNeedsThreeSummands` | main.py:29-39 | Both hyperboloid labels need a sum of at least three summands. |
| `QuadricProperties.ParaboloidUnreachable` | main.py:43-53 | Neither paraboloid label is ever returned, for any expression and any variable list. |
| `QuadricProperties.ConeExactly` | main.py:56-59 | For two decidable summands: a cone exactly when every summand contains x**2 or y**2, or every summand contains z**2. |
| `QuadricProperties.ConeNeedsTwoSummands` | main.py:56-59 | Only a sum of exactly two summands can be a cone. |
| `QuadricProperties.CylinderConditions` | main.py:62-67 | The elliptic cylinder needs no child containing z and both x**2 and y**2 present. The parabolic cylinder needs no z and exactly one of them. |
| `QuadricProperties.CylinderExactly` | main.py:62-67 | For a sum that no earlier rule labels, with nothing raising and no z: elliptic exactly when x**2 and y**2 both occur, parabolic exactly when one does, `None` exactly when neither does. |
| `QuadricProperties.UndecidableIsNone` | main.py:30-71 | Once the ellipsoid rule has not fired, a summand with a squared variable beside another variable makes the result `None`, with no error escaping. |
| `QuadricProperties.ShapeInvariant` | main.py:22-67 | Two sums with the same length, the same members and the same counts have the same shape. |
| `QuadricProperties.OrderIndependent` | main.py:22-67 | Permuting the summands of a sum never changes its label. |
| `QuadricProperties.SingleNodeLabels` | main.py:62-67 | A single node is a cylinder or nothing. A bare power is nothing. A z-free product with x**2 but not y**2 is a parabolic cylinder. |
| `QuadricExamples.ShiftedSquares` | main.py:29-39 | a*x**2 + b*y**2 + c*z**2 + d with d != 0 gets no label when a, b, c > 0. It is a one-sheet hyperboloid when only c < 0 and a two-sheet one when only c > 0. |
| `QuadricExamples.ShiftedSquaresExamples` | main.py:21-39 | `x**2+y**2+z**2-1` gets no label. `x**2+y**2-z**2-1` has one sheet and `-x**2-y**2+z**2-1` two. |
| `QuadricExamples.ParaboloidShapeUnlabelled` | main.py:22-67 | z + a*x**2 + b*y**2 with a, b non-zero gets no label. |
| `QuadricExamples.ParaboloidExamplesUnlabelled` | main.py:41-53 | `z - x**2 - y**2` and `z - x**2 + y**2` get no label. |
| `QuadricExamples.ConeExample` | main.py:56-59 | `x**2 + y**2` is an elliptic cone. |
| `QuadricExamples.ConeExampleReordered` | main.py:16-67 | With the variables listed as [Z, Y, X], `x**2 + y**2` gets no label. |
| `QuadricExamples.SingleNodeExamples` | main.py:62-67 | `x**2` alone gets no label. `2*x**2` is a parabolic cylinder and `x**2*y**2` an elliptic one. |
| `QuadricExamples.CrossTermUnlabelled` | main.py:22-73 | `x*y + z**2` gets no label. |
| `QuadricExamples.SymbolSumExample` | main.py:22-25 | `x + y + z` is labelled an ellipsoid. |
| `QuadricExamples.UndecidableExample` | main.py:30-71 | `3*x**2*y + z` gets no label, because the sign of `3*y` cannot be decided. |

## Left out

- Parsing and expansion (`parse_function`, main.py:8-9, and `sp.expand`, main.py:17). The model
  takes the already expanded expression as its input.
- The error message printed at main.py:70. Only the `None` result is modelled.
- Plotting, derivatives, critical points, integrals, Lagrange optimisation and the menu loop
  (main.py:75-302). These are calls into the symbolic and plotting libraries or console I/O.
  The callers at main.py:98 and main.py:129 only supply the variable list.
- Expressions outside the normal form are not modelled. That means symbolic or irrational
  coefficients, symbols other than the three of the triple (including variable lists naming such
  symbols), negative or fractional exponents, and non-polynomial expressions. For these the
  library may behave differently (its `has` and `coeff` on arbitrary trees).
- Float coefficients and exponents: `coef` is an exact `real`, so `Term(1.0, 2, 0, 0)` is the
  power `x**2`. A typed `1.0*x**2`, which the library keeps as a product with children
  `(1.0, x**2)` and labels a parabolic cylinder, cannot be written. Neither can `1.0*x + y + z`,
  which gets no label, or `x**2.0`, which `has(x**2)` does not match.
- Sums of fewer than two summands: an expanded sum always has at least two. `Sum` admits the
  shorter lists anyway, and every lemma about sums holds for them too. Such a value is not the
  same as the corresponding single node: `Sum([x**2])` is a parabolic cylinder, while
  `Single(x**2)` gets no label.
- Symbol assumptions: the symbols are plain (no positivity or reality assumption), as
  `sympify` creates them. That is why a comparison such as `3*y > 0` is undecidable.
