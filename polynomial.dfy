/**
 * The expanded polynomial that the quadric classifier inspects, in normal form,
 * together with the few structural queries the classifier puts to it: does a
 * summand contain v**2, does it contain v at all, is it a product or a power,
 * what is left after dividing it by v**2, and which children a single
 * (non-sum) node has.
 */
module Polynomial {

  /** The three symbols an expression may mention. */
  datatype Var = X | Y | Z

  /** One summand coef * X^ex * Y^ey * Z^ez. A zero coefficient is the number 0. */
  datatype Term = Term(coef: real, ex: nat, ey: nat, ez: nat)

  /**
   * An expanded expression: either a sum node with its summands (the summands
   * of an expanded sum have distinct monomials and non-zero coefficients), or
   * a single node that is not a sum (a number, a symbol, a power or a product).
   * An expanded sum has at least two summands; `Sum` also admits shorter lists,
   * which no expansion produces, and the properties simply hold for them too.
   */
  datatype Expr = Sum(terms: seq<Term>) | Single(term: Term)

  function Exp(t: Term, v: Var): nat {
    match v
    case X => t.ex
    case Y => t.ey
    case Z => t.ez
  }

  /** `t` with the exponent of `v` replaced by `k`. */
  function WithExp(t: Term, v: Var, k: nat): (r: Term)
    ensures Exp(r, v) == k && r.coef == t.coef
    ensures forall w :: w != v ==> Exp(r, w) == Exp(t, w)
  {
    match v
    case X => t.(ex := k)
    case Y => t.(ey := k)
    case Z => t.(ez := k)
  }

  function Num(c: real): Term {
    Term(c, 0, 0, 0)
  }

  /** The node v**k (for k == 1, the bare symbol v). */
  function Power(v: Var, k: nat): Term {
    WithExp(Num(1.0), v, k)
  }

  predicate IsNumber(t: Term) {
    t.coef == 0.0 || (t.ex == 0 && t.ey == 0 && t.ez == 0)
  }

  /** A bare symbol: coefficient 1 and a single variable to the first power. */
  predicate IsSymbol(t: Term) {
    t.coef == 1.0 && t.ex + t.ey + t.ez == 1
  }

  /** A power node v**k with k >= 2: coefficient 1 and a single variable. */
  predicate IsPow(t: Term) {
    && t.coef == 1.0
    && ((t.ex >= 2 && t.ey == 0 && t.ez == 0)
        || (t.ex == 0 && t.ey >= 2 && t.ez == 0)
        || (t.ex == 0 && t.ey == 0 && t.ez >= 2))
  }

  /** `term.is_Mul or term.is_Pow`: anything but a number or a bare symbol. */
  predicate IsMulOrPow(t: Term) {
    !IsNumber(t) && !IsSymbol(t)
  }

  /** A product node: a coefficient other than 1, or more than one variable. */
  predicate IsMul(t: Term) {
    IsMulOrPow(t) && !IsPow(t)
  }

  /** `term.has(v**2)`: v**2 occurs as a subtree, i.e. the exponent of v is exactly 2. */
  predicate HasSquare(t: Term, v: Var) {
    t.coef != 0.0 && Exp(t, v) == 2
  }

  /** `term.has(v)`: v occurs with any positive exponent. */
  predicate HasVar(t: Term, v: Var) {
    t.coef != 0.0 && Exp(t, v) >= 1
  }

  predicate AnyHasSquare(ts: seq<Term>, v: Var) {
    exists t :: t in ts && HasSquare(t, v)
  }

  predicate AnyHasVar(ts: seq<Term>, v: Var) {
    exists t :: t in ts && HasVar(t, v)
  }

  /**
   * `term.coeff(v**2)` for a summand that contains v**2 (every call is behind
   * `term.has(v**2)`): the summand divided by v**2, which no longer mentions v.
   */
  function Quotient(t: Term, v: Var): (q: Term)
    requires HasSquare(t, v)
    ensures q.coef == t.coef && Exp(q, v) == 0
    ensures forall w :: w != v ==> Exp(q, w) == Exp(t, w)
  {
    WithExp(t, v, 0)
  }

  /** The summand is c * v**2 and nothing else, so its quotient by v**2 is a number. */
  predicate PureSquare(t: Term, v: Var) {
    HasSquare(t, v) && forall w :: w != v ==> Exp(t, w) == 0
  }

  /** The variable of a power node. */
  function PowBase(t: Term): (v: Var)
    requires IsPow(t)
    ensures Exp(t, v) >= 2 && forall w :: w != v ==> Exp(t, w) == 0
  {
    if t.ex >= 2 then X else if t.ey >= 2 then Y else Z
  }

  function VarFactor(t: Term, v: Var): seq<Term> {
    if Exp(t, v) == 0 then [] else [Power(v, Exp(t, v))]
  }

  /**
   * The children (`args`) of a single non-sum node: none for a number or a
   * bare symbol, base and exponent for a power, and for a product its numeric
   * coefficient (unless 1) followed by one factor per variable present.
   * What the classifier can see through them: a child contains v**2 only for
   * a product whose exponent of v is 2, and a child contains v exactly when
   * the node is a product or a power in which v occurs.
   */
  function Factors(t: Term): (r: seq<Term>)
    ensures forall v :: AnyHasSquare(r, v) <==> IsMul(t) && Exp(t, v) == 2
    ensures forall v :: AnyHasVar(r, v) <==> IsMulOrPow(t) && Exp(t, v) >= 1
  {
    if IsNumber(t) || IsSymbol(t) then []
    else if IsPow(t) then
      var v := PowBase(t);
      var r := [Power(v, 1), Num(Exp(t, v) as real)];
      PowerFactorsSeen(t, v, r);
      r
    else
      var c := if t.coef == 1.0 then [] else [Num(t.coef)];
      var r := c + VarFactor(t, X) + VarFactor(t, Y) + VarFactor(t, Z);
      ProductFactorsSeen(t, c, r);
      r
  }

  lemma PowerFactorsSeen(t: Term, v: Var, r: seq<Term>)
    requires IsPow(t) && Exp(t, v) >= 2 && forall w :: w != v ==> Exp(t, w) == 0
    requires r == [Power(v, 1), Num(Exp(t, v) as real)]
    ensures forall w :: !AnyHasSquare(r, w)
    ensures forall w :: AnyHasVar(r, w) <==> w == v
  {
    assert HasVar(r[0], v);
  }

  lemma ProductFactorsSeen(t: Term, c: seq<Term>, r: seq<Term>)
    requires IsMul(t)
    requires c == if t.coef == 1.0 then [] else [Num(t.coef)]
    requires r == c + VarFactor(t, X) + VarFactor(t, Y) + VarFactor(t, Z)
    ensures forall v :: AnyHasSquare(r, v) <==> Exp(t, v) == 2
    ensures forall v :: AnyHasVar(r, v) <==> Exp(t, v) >= 1
  {
    forall v
      ensures (AnyHasSquare(r, v) <==> Exp(t, v) == 2) && (AnyHasVar(r, v) <==> Exp(t, v) >= 1)
    {
      assert forall f :: f in r <==> f in c || f in VarFactor(t, X) || f in VarFactor(t, Y) || f in VarFactor(t, Z);
      if Exp(t, v) >= 1 {
        var f := Power(v, Exp(t, v));
        assert f in VarFactor(t, v);
        assert HasVar(f, v);
      }
    }
  }

  /** `expr.args`: the summands of a sum, the children of any other node. */
  function Args(e: Expr): seq<Term> {
    match e
    case Sum(ts) => ts
    case Single(t) => Factors(t)
  }
}
