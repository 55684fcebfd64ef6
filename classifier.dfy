/**
 * The quadric-surface classifier: an ordered cascade of syntactic rules over
 * the summands of an expanded polynomial. The first rule that matches names
 * the surface; when none matches, or when a sign comparison on the way cannot
 * be decided, there is no label. Line numbers in the comments below refer to
 * main.py, where the classifier is `identificar_superficie_cuadrica`.
 */
module Quadric {
  import opened Polynomial

  datatype Option<T> = None | Some(value: T)

  datatype Surface =
    | Ellipsoid
    | HyperboloidOneSheet
    | HyperboloidTwoSheets
    | EllipticParaboloid
    | HyperbolicParaboloid
    | EllipticCone
    | EllipticCylinder
    | ParabolicCylinder

  /** The label the classifier returns for each surface. */
  function Name(s: Surface): string {
    match s
    case Ellipsoid => "Elipsoide"
    case HyperboloidOneSheet => "Hiperboloide de una hoja"
    case HyperboloidTwoSheets => "Hiperboloide de dos hojas"
    case EllipticParaboloid => "Paraboloide elíptico"
    case HyperbolicParaboloid => "Paraboloide hiperbólico"
    case EllipticCone => "Cono elíptico"
    case EllipticCylinder => "Cilindro elíptico"
    case ParabolicCylinder => "Cilindro parabólico"
  }

  lemma NamesDistinct(s: Surface, s': Surface)
    ensures Name(s) == Name(s') <==> s == s'
  {
  }

  /**
   * A truth value, or the TypeError raised when the truth value of a
   * relational comparison with a non-numeric side is asked for.
   */
  datatype Checked<T> = Ok(value: T) | TypeError

  /** What a stage of the cascade does: return a label, fall through, or raise. */
  datatype Outcome = Matched(surface: Surface) | NoMatch | Raised

  /** `q > 0` (or `q < 0`) used as a condition: decidable only when q is a number. */
  function Compare(q: Term, positive: bool): Checked<bool> {
    if IsNumber(q) then Ok(if positive then q.coef > 0.0 else q.coef < 0.0) else TypeError
  }

  /**
   * Python's short-circuiting `a or b` on conditions that may raise: the plain
   * `or` when neither side raises; a raise on the right counts only when the
   * left side is false.
   */
  function OrElse(a: Checked<bool>, b: Checked<bool>): (r: Checked<bool>)
    ensures a.Ok? && b.Ok? ==> r == Ok(a.value || b.value)
    ensures r.TypeError? <==> a.TypeError? || (a == Ok(false) && b.TypeError?)
  {
    match a
    case TypeError => TypeError
    case Ok(va) => if va then Ok(true) else b
  }

  /**
   * Python's short-circuiting `a and b` on conditions that may raise: the plain
   * `and` when neither side raises; a raise on the right counts only when the
   * left side is true.
   */
  function AndAlso(a: Checked<bool>, b: Checked<bool>): (r: Checked<bool>)
    ensures a.Ok? && b.Ok? ==> r == Ok(a.value && b.value)
    ensures r.TypeError? <==> a.TypeError? || (a == Ok(true) && b.TypeError?)
  {
    match a
    case TypeError => TypeError
    case Ok(va) => if va then b else Ok(false)
  }

  /** `(term.coeff(v**2) > 0 if term.has(v**2) else False)`, or `< 0` when not `positive`. */
  function SquareCompare(t: Term, v: Var, positive: bool): Checked<bool> {
    if HasSquare(t, v) then Compare(Quotient(t, v), positive) else Ok(false)
  }

  /** One squared-variable comparison raises exactly when v**2 is there but not alone. */
  lemma SquareCompareFacts(t: Term, v: Var, positive: bool)
    ensures SquareCompare(t, v, positive).Ok? <==> (HasSquare(t, v) ==> PureSquare(t, v))
    ensures SquareCompare(t, v, positive) == Ok(true) <==>
              PureSquare(t, v) && (if positive then t.coef > 0.0 else t.coef < 0.0)
    ensures forall w :: PureSquare(t, v) && HasSquare(t, w) ==> w == v
  {
    if HasSquare(t, v) {
      var q := Quotient(t, v);
      assert IsNumber(q) <==> Exp(q, X) == 0 && Exp(q, Y) == 0 && Exp(q, Z) == 0;
    }
  }

  /** Every v**2 of the triple that the summand contains stands alone with its coefficient. */
  predicate Decidable(t: Term, x: Var, y: Var, z: Var) {
    && (HasSquare(t, x) ==> PureSquare(t, x))
    && (HasSquare(t, y) ==> PureSquare(t, y))
    && (HasSquare(t, z) ==> PureSquare(t, z))
  }

  /** The summand is c * v**2 for a v of the triple, with c > 0 (or c < 0 when not `positive`). */
  predicate SignedSquare(t: Term, x: Var, y: Var, z: Var, positive: bool) {
    && (PureSquare(t, x) || PureSquare(t, y) || PureSquare(t, z))
    && (if positive then t.coef > 0.0 else t.coef < 0.0)
  }

  /** The number of summands that are a signed square in the sense of SignedSquare. */
  function CountSigned(ts: seq<Term>, x: Var, y: Var, z: Var, positive: bool): nat {
    if ts == [] then 0
    else (if SignedSquare(ts[0], x, y, z, positive) then 1 else 0) + CountSigned(ts[1..], x, y, z, positive)
  }

  /**
   * The condition of the comprehensions that build `pos` and `neg`: the three
   * squared-variable comparisons joined by `or`. It raises exactly when the
   * summand is not Decidable, and otherwise holds exactly of a signed square.
   */
  function SquareSign(t: Term, x: Var, y: Var, z: Var, positive: bool): (r: Checked<bool>)
    ensures r.Ok? <==> Decidable(t, x, y, z)
    ensures r.Ok? ==> (r.value <==> SignedSquare(t, x, y, z, positive))
  {
    SquareCompareFacts(t, x, positive);
    SquareCompareFacts(t, y, positive);
    SquareCompareFacts(t, z, positive);
    OrElse(OrElse(SquareCompare(t, x, positive), SquareCompare(t, y, positive)), SquareCompare(t, z, positive))
  }

  /**
   * The list `pos` (or `neg`): the summands whose condition holds, in order.
   * It raises exactly when some summand is not Decidable; otherwise it keeps
   * exactly the signed squares, and as many of them as there are.
   */
  function Select(ts: seq<Term>, x: Var, y: Var, z: Var, positive: bool): (r: Checked<seq<Term>>)
    ensures r.Ok? <==> forall t :: t in ts ==> Decidable(t, x, y, z)
    ensures r.Ok? ==> |r.value| == CountSigned(ts, x, y, z, positive)
    ensures r.Ok? ==> forall t :: t in r.value <==> t in ts && SignedSquare(t, x, y, z, positive)
  {
    if ts == [] then Ok([])
    else
      var head := SquareSign(ts[0], x, y, z, positive);
      var rest := Select(ts[1..], x, y, z, positive);
      assert forall t :: t in ts <==> t == ts[0] || t in ts[1..];
      if head.TypeError? || rest.TypeError? then TypeError
      else Ok(if head.value then [ts[0]] + rest.value else rest.value)
  }

  /** Lines 22-25 without the length test: every product or power summand contains x**2, or every one y**2, or every one z**2. */
  predicate EllipsoidTest(ts: seq<Term>, x: Var, y: Var, z: Var) {
    || (forall t :: t in ts && IsMulOrPow(t) ==> HasSquare(t, x))
    || (forall t :: t in ts && IsMulOrPow(t) ==> HasSquare(t, y))
    || (forall t :: t in ts && IsMulOrPow(t) ==> HasSquare(t, z))
  }

  /**
   * Lines 29-39: count the positive and the negative squared summands. It
   * raises exactly when some summand is not Decidable; otherwise one sheet
   * means two positive and one negative signed square, two sheets one
   * positive and two negative.
   */
  function HyperboloidStep(ts: seq<Term>, x: Var, y: Var, z: Var): (r: Outcome)
    ensures r.Raised? <==> exists t :: t in ts && !Decidable(t, x, y, z)
    ensures r == Matched(HyperboloidOneSheet) <==>
              (!r.Raised? && CountSigned(ts, x, y, z, true) == 2 && CountSigned(ts, x, y, z, false) == 1)
    ensures r == Matched(HyperboloidTwoSheets) <==>
              (!r.Raised? && CountSigned(ts, x, y, z, true) == 1 && CountSigned(ts, x, y, z, false) == 2)
    ensures r.Raised? || r.NoMatch? || r == Matched(HyperboloidOneSheet) || r == Matched(HyperboloidTwoSheets)
  {
    var pos := Select(ts, x, y, z, true);
    if pos.TypeError? then Raised
    else
      var neg := Select(ts, x, y, z, false);
      if neg.TypeError? then Raised
      else if |pos.value| == 2 && |neg.value| == 1 then Matched(HyperboloidOneSheet)
      else if |pos.value| == 1 && |neg.value| == 2 then Matched(HyperboloidTwoSheets)
      else NoMatch
  }

  predicate IsZTerm(t: Term, x: Var, y: Var, z: Var) {
    HasVar(t, z) && !(HasSquare(t, x) || HasSquare(t, y))
  }

  /** `z_terms`: the summands that contain z but neither x**2 nor y**2. */
  function ZTerms(ts: seq<Term>, x: Var, y: Var, z: Var): (r: seq<Term>)
    ensures forall t :: t in r <==> t in ts && IsZTerm(t, x, y, z)
  {
    if ts == [] then []
    else
      var rest := ZTerms(ts[1..], x, y, z);
      assert forall t :: t in ts <==> t == ts[0] || t in ts[1..];
      if IsZTerm(ts[0], x, y, z) then [ts[0]] + rest else rest
  }

  /** `other_terms`: the summands not in `zs`; at least one fewer when some summand is in `zs`. */
  function OtherTerms(ts: seq<Term>, zs: seq<Term>): (r: seq<Term>)
    ensures forall t :: t in r <==> t in ts && t !in zs
    ensures |r| <= |ts|
    ensures (exists t :: t in ts && t in zs) ==> |r| < |ts|
  {
    if ts == [] then []
    else
      var rest := OtherTerms(ts[1..], zs);
      assert forall t :: t in ts <==> t == ts[0] || t in ts[1..];
      if ts[0] !in zs then [ts[0]] + rest else rest
  }

  /**
   * Lines 44-53, reached only for a sum of two summands. The branch wants two
   * summands besides at least one z-term, so it never fires on two summands.
   */
  function ParaboloidStep(ts: seq<Term>, x: Var, y: Var, z: Var): (r: Outcome)
    ensures |ts| <= 2 ==> r == NoMatch
  {
    var zs := ZTerms(ts, x, y, z);
    if zs == [] then NoMatch
    else
      var others := OtherTerms(ts, zs);
      assert zs[0] in ts && zs[0] in zs;
      if |others| != 2 then NoMatch
      else
        var first := others[0];
        var x2 := if HasSquare(first, x) then Quotient(first, x) else Num(0.0);
        var y2 := if HasSquare(first, y) then Quotient(first, y) else Num(0.0);
        var elliptic := AndAlso(Compare(x2, true), Compare(y2, true));
        if elliptic.TypeError? then Raised
        else if elliptic.value then Matched(EllipticParaboloid)
        else
          var hyperbolic := OrElse(AndAlso(Compare(x2, true), Compare(y2, false)),
                                   AndAlso(Compare(x2, false), Compare(y2, true)));
          if hyperbolic.TypeError? then Raised
          else if hyperbolic.value then Matched(HyperbolicParaboloid)
          else NoMatch
  }

  /** Lines 57-58: every summand contains x**2 or y**2, or every summand contains z**2. */
  predicate ConeTest(ts: seq<Term>, x: Var, y: Var, z: Var) {
    || (forall t :: t in ts ==> HasSquare(t, x) || HasSquare(t, y))
    || (forall t :: t in ts ==> HasSquare(t, z))
  }

  /** Lines 62-67, over the node's `args` whatever the node is. */
  function CylinderStep(ts: seq<Term>, x: Var, y: Var, z: Var): Outcome {
    if AnyHasVar(ts, z) then NoMatch
    else if AnyHasSquare(ts, x) && AnyHasSquare(ts, y) then Matched(EllipticCylinder)
    else if (AnyHasSquare(ts, x) && !AnyHasSquare(ts, y)) || (!AnyHasSquare(ts, x) && AnyHasSquare(ts, y))
    then Matched(ParabolicCylinder)
    else NoMatch
  }

  /**
   * The body of the `try` block (lines 22-67), rule by rule in source order.
   * It raises (and the handler at lines 69-71 runs) exactly for a sum that the
   * ellipsoid rule lets past and that has a summand which is not Decidable.
   */
  function Cascade(e: Expr, x: Var, y: Var, z: Var): (r: Outcome)
    ensures r.Raised? <==>
              (&& e.Sum? && !(|e.terms| == 3 && EllipsoidTest(e.terms, x, y, z))
               && exists t :: t in e.terms && !Decidable(t, x, y, z))
  {
    var args := Args(e);
    if e.Sum? && |args| == 3 && EllipsoidTest(args, x, y, z) then Matched(Ellipsoid)
    else
      var hyperboloid := if e.Sum? then HyperboloidStep(args, x, y, z) else NoMatch;
      if !hyperboloid.NoMatch? then hyperboloid
      else
        var paraboloid := if e.Sum? && |args| == 2 then ParaboloidStep(args, x, y, z) else NoMatch;
        if !paraboloid.NoMatch? then paraboloid
        else if e.Sum? && |args| == 2 && ConeTest(args, x, y, z) then Matched(EllipticCone)
        else CylinderStep(args, x, y, z)
  }

  /**
   * The classifier: no label unless exactly three variables are given; then
   * the cascade's label, with a fall-through and a raised TypeError both
   * giving no label.
   */
  function Classify(e: Expr, vars: seq<Var>): (r: Option<Surface>)
    ensures |vars| != 3 ==> r == None
  {
    if |vars| != 3 then None
    else
      match Cascade(e, vars[0], vars[1], vars[2])
      case Matched(s) => Some(s)
      case NoMatch => None
      case Raised => None
  }
}
