/**
 * What the quadric classifier decides, stated without the mechanics of the
 * cascade: a reference decision table over the summands (or the monomial of
 * a single node), the lemma that the classifier agrees with it, and the
 * properties that follow.
 */
module QuadricProperties {
  import opened Polynomial
  import opened Quadric

  /**
   * A single non-sum node can only be a cylinder: it must be a product (a bare
   * power such as x**2 shows only its base and exponent), free of z, with x**2
   * or y**2 among its factors.
   */
  function SingleReference(t: Term, x: Var, y: Var, z: Var): Option<Surface> {
    if IsMul(t) && Exp(t, z) == 0 then
      if Exp(t, x) == 2 && Exp(t, y) == 2 then Some(EllipticCylinder)
      else if Exp(t, x) == 2 || Exp(t, y) == 2 then Some(ParabolicCylinder)
      else None
    else None
  }

  /** Everything about a sum that the rules look at. */
  datatype Shape = Shape(
    size: nat,
    ellipsoid: bool,
    decidable: bool,
    positives: nat,
    negatives: nat,
    cone: bool,
    hasZ: bool,
    hasX2: bool,
    hasY2: bool)

  function ShapeOf(ts: seq<Term>, x: Var, y: Var, z: Var): Shape {
    Shape(
      |ts|,
      EllipsoidTest(ts, x, y, z),
      forall t :: t in ts ==> Decidable(t, x, y, z),
      CountSigned(ts, x, y, z, true),
      CountSigned(ts, x, y, z, false),
      ConeTest(ts, x, y, z),
      AnyHasVar(ts, z),
      AnyHasSquare(ts, x),
      AnyHasSquare(ts, y))
  }

  /**
   * A sum, rule by rule: ellipsoid on three summands; no label once a squared
   * coefficient is not a number; hyperboloids by the numbers of positive and
   * negative signed squares; cone on two summands; otherwise the cylinder test.
   * There is no paraboloid rule.
   */
  function Decide(s: Shape): Option<Surface> {
    if s.size == 3 && s.ellipsoid then Some(Ellipsoid)
    else if !s.decidable then None
    else if s.positives == 2 && s.negatives == 1 then Some(HyperboloidOneSheet)
    else if s.positives == 1 && s.negatives == 2 then Some(HyperboloidTwoSheets)
    else if s.size == 2 && s.cone then Some(EllipticCone)
    else if s.hasZ then None
    else if s.hasX2 && s.hasY2 then Some(EllipticCylinder)
    else if s.hasX2 || s.hasY2 then Some(ParabolicCylinder)
    else None
  }

  function SumReference(ts: seq<Term>, x: Var, y: Var, z: Var): Option<Surface> {
    Decide(ShapeOf(ts, x, y, z))
  }

  function Reference(e: Expr, x: Var, y: Var, z: Var): Option<Surface> {
    match e
    case Sum(ts) => SumReference(ts, x, y, z)
    case Single(t) => SingleReference(t, x, y, z)
  }

  /** The classifier agrees with the reference table on every expression and every variable triple. */
  lemma ClassifyMatchesReference(e: Expr, vars: seq<Var>)
    requires |vars| == 3
    ensures Classify(e, vars) == Reference(e, vars[0], vars[1], vars[2])
  {
    match e
    case Sum(ts) => SumMatchesReference(ts, vars);
    case Single(t) => SingleMatchesReference(t, vars);
  }

  lemma SumMatchesReference(ts: seq<Term>, vars: seq<Var>)
    requires |vars| == 3
    ensures Classify(Sum(ts), vars) == SumReference(ts, vars[0], vars[1], vars[2])
  {
    var x, y, z := vars[0], vars[1], vars[2];
    var s := ShapeOf(ts, x, y, z);
    var h := HyperboloidStep(ts, x, y, z);
    var c := Cascade(Sum(ts), x, y, z);
    if s.size == 3 && s.ellipsoid {
      assert c == Matched(Ellipsoid);
    } else if h.Raised? {
      assert c == Raised && !s.decidable;
    } else if !h.NoMatch? {
      assert c == h && s.decidable;
    } else {
      assert s.decidable && !(s.positives == 2 && s.negatives == 1) && !(s.positives == 1 && s.negatives == 2);
      if |ts| == 2 {
        assert ParaboloidStep(ts, x, y, z) == NoMatch;
      }
      assert c == if s.size == 2 && s.cone then Matched(EllipticCone) else CylinderStep(ts, x, y, z);
    }
  }

  lemma SingleMatchesReference(t: Term, vars: seq<Var>)
    requires |vars| == 3
    ensures Classify(Single(t), vars) == SingleReference(t, vars[0], vars[1], vars[2])
  {
    var args := Factors(t);
    assert AnyHasVar(args, vars[2]) <==> IsMulOrPow(t) && Exp(t, vars[2]) >= 1;
  }

  // ---------------------------------------------------------------------------
  // Counting signed squares

  /** A summand is never both a positive and a negative square, so the two counts share the summands. */
  lemma {:induction false} CountsShareSummands(ts: seq<Term>, x: Var, y: Var, z: Var)
    ensures CountSigned(ts, x, y, z, true) + CountSigned(ts, x, y, z, false) <= |ts|
  {
    if ts != [] {
      CountsShareSummands(ts[1..], x, y, z);
    }
  }

  lemma {:induction false} CountAppend(a: seq<Term>, b: seq<Term>, x: Var, y: Var, z: Var, positive: bool)
    ensures CountSigned(a + b, x, y, z, positive) == CountSigned(a, x, y, z, positive) + CountSigned(b, x, y, z, positive)
  {
    if a == [] {
      assert a + b == b;
    } else {
      assert (a + b)[1..] == a[1..] + b;
      CountAppend(a[1..], b, x, y, z, positive);
    }
  }

  /** Taking out the summand at `i` takes its contribution out of the count. */
  lemma CountRemoveAt(q: seq<Term>, i: nat, x: Var, y: Var, z: Var, positive: bool)
    requires i < |q|
    ensures CountSigned(q, x, y, z, positive) ==
              CountSigned(q[..i] + q[i + 1..], x, y, z, positive) + (if SignedSquare(q[i], x, y, z, positive) then 1 else 0)
  {
    assert q == q[..i] + [q[i]] + q[i + 1..];
    CountAppend(q[..i] + [q[i]], q[i + 1..], x, y, z, positive);
    CountAppend(q[..i], [q[i]], x, y, z, positive);
    CountAppend(q[..i], q[i + 1..], x, y, z, positive);
  }

  lemma MultisetRemoveAt<T>(q: seq<T>, i: nat)
    requires i < |q|
    ensures multiset(q[..i] + q[i + 1..]) == multiset(q) - multiset{q[i]}
  {
    assert q == q[..i] + [q[i]] + q[i + 1..];
  }

  lemma MultisetRemoveFirst<T>(p: seq<T>)
    requires p != []
    ensures multiset(p[1..]) == multiset(p) - multiset{p[0]}
  {
    assert p == [p[0]] + p[1..];
  }

  /** Where the first summand of `p` sits in a permutation `q` of it, and what is left on both sides. */
  lemma MatchFirst<T>(p: seq<T>, q: seq<T>) returns (i: nat)
    requires multiset(p) == multiset(q) && p != []
    ensures i < |q| && q[i] == p[0]
    ensures multiset(p[1..]) == multiset(q[..i] + q[i + 1..])
  {
    assert p[0] in multiset(q);
    i :| 0 <= i < |q| && q[i] == p[0];
    MultisetRemoveAt(q, i);
    MultisetRemoveFirst(p);
  }

  /** The counts depend only on which summands there are, not on their order. */
  lemma {:induction false} CountPermutation(p: seq<Term>, q: seq<Term>, x: Var, y: Var, z: Var, positive: bool)
    requires multiset(p) == multiset(q)
    ensures CountSigned(p, x, y, z, positive) == CountSigned(q, x, y, z, positive)
    decreases |p|
  {
    if p == [] {
      assert |q| == |multiset(q)| == 0;
    } else {
      var i := MatchFirst(p, q);
      CountPermutation(p[1..], q[..i] + q[i + 1..], x, y, z, positive);
      CountRemoveAt(q, i, x, y, z, positive);
    }
  }

  // ---------------------------------------------------------------------------
  // The rules, one by one

  /**
   * A sum is an ellipsoid exactly when it has three summands and every product
   * or power summand contains x**2, or every one y**2, or every one z**2; a
   * single node never is.
   */
  lemma EllipsoidExactly(e: Expr, vars: seq<Var>)
    requires |vars| == 3
    ensures Classify(e, vars) == Some(Ellipsoid) <==>
              e.Sum? && |e.terms| == 3 && EllipsoidTest(e.terms, vars[0], vars[1], vars[2])
  {
    ClassifyMatchesReference(e, vars);
  }

  /** Three summands none of which is a product or a power (x + y + z, say) count as an ellipsoid. */
  lemma NoProductsIsEllipsoid(ts: seq<Term>, vars: seq<Var>)
    requires |vars| == 3 && |ts| == 3
    requires forall t :: t in ts ==> !IsMulOrPow(t)
    ensures Classify(Sum(ts), vars) == Some(Ellipsoid)
  {
    EllipsoidExactly(Sum(ts), vars);
  }

  /**
   * Past the ellipsoid rule, with every squared coefficient a number, the
   * hyperboloid labels are decided by the counts of positive and negative
   * signed squares: 2 and 1 for one sheet, 1 and 2 for two sheets.
   */
  lemma HyperboloidByCounts(ts: seq<Term>, vars: seq<Var>)
    requires |vars| == 3
    requires !(|ts| == 3 && EllipsoidTest(ts, vars[0], vars[1], vars[2]))
    requires forall t :: t in ts ==> Decidable(t, vars[0], vars[1], vars[2])
    ensures Classify(Sum(ts), vars) == Some(HyperboloidOneSheet) <==>
              CountSigned(ts, vars[0], vars[1], vars[2], true) == 2 && CountSigned(ts, vars[0], vars[1], vars[2], false) == 1
    ensures Classify(Sum(ts), vars) == Some(HyperboloidTwoSheets) <==>
              CountSigned(ts, vars[0], vars[1], vars[2], true) == 1 && CountSigned(ts, vars[0], vars[1], vars[2], false) == 2
  {
    ClassifyMatchesReference(Sum(ts), vars);
  }

  /** The hyperboloid labels need a sum with at least three summands. */
  lemma HyperboloidNeedsThreeSummands(e: Expr, vars: seq<Var>)
    requires |vars| == 3
    requires Classify(e, vars) == Some(HyperboloidOneSheet) || Classify(e, vars) == Some(HyperboloidTwoSheets)
    ensures e.Sum? && |e.terms| >= 3
  {
    ClassifyMatchesReference(e, vars);
    if e.Sum? {
      CountsShareSummands(e.terms, vars[0], vars[1], vars[2]);
    }
  }

  /** Neither paraboloid label is ever returned. */
  lemma ParaboloidUnreachable(e: Expr, vars: seq<Var>)
    ensures Classify(e, vars) != Some(EllipticParaboloid)
    ensures Classify(e, vars) != Some(HyperbolicParaboloid)
  {
    if |vars| == 3 {
      ClassifyMatchesReference(e, vars);
    }
  }

  /**
   * A sum of two summands with every squared coefficient a number is a cone
   * exactly when every summand contains x**2 or y**2, or every one z**2; and
   * nothing but a two-summand sum is a cone.
   */
  lemma ConeExactly(ts: seq<Term>, vars: seq<Var>)
    requires |vars| == 3 && |ts| == 2
    requires forall t :: t in ts ==> Decidable(t, vars[0], vars[1], vars[2])
    ensures Classify(Sum(ts), vars) == Some(EllipticCone) <==> ConeTest(ts, vars[0], vars[1], vars[2])
  {
    ClassifyMatchesReference(Sum(ts), vars);
    CountsShareSummands(ts, vars[0], vars[1], vars[2]);
  }

  lemma ConeNeedsTwoSummands(e: Expr, vars: seq<Var>)
    requires Classify(e, vars) == Some(EllipticCone)
    ensures e.Sum? && |e.terms| == 2
  {
    ClassifyMatchesReference(e, vars);
  }

  /**
   * Both cylinder labels need a node no child of which contains z; the
   * elliptic one needs x**2 and y**2 among the children, the parabolic one
   * exactly one of them. So with neither there is no cylinder.
   */
  lemma CylinderConditions(e: Expr, vars: seq<Var>)
    requires |vars| == 3
    ensures Classify(e, vars) == Some(EllipticCylinder) ==>
              && !AnyHasVar(Args(e), vars[2])
              && AnyHasSquare(Args(e), vars[0]) && AnyHasSquare(Args(e), vars[1])
    ensures Classify(e, vars) == Some(ParabolicCylinder) ==>
              && !AnyHasVar(Args(e), vars[2])
              && (AnyHasSquare(Args(e), vars[0]) != AnyHasSquare(Args(e), vars[1]))
  {
    ClassifyMatchesReference(e, vars);
  }

  /**
   * The converse for a sum: once no earlier rule fires and nothing raises, and
   * no summand contains z, the cylinder labels are decided by x**2 and y**2
   * alone.
   */
  lemma CylinderExactly(ts: seq<Term>, vars: seq<Var>)
    requires |vars| == 3
    requires !(|ts| == 3 && EllipsoidTest(ts, vars[0], vars[1], vars[2]))
    requires forall t :: t in ts ==> Decidable(t, vars[0], vars[1], vars[2])
    requires var pos, neg := CountSigned(ts, vars[0], vars[1], vars[2], true), CountSigned(ts, vars[0], vars[1], vars[2], false);
               !(pos == 2 && neg == 1) && !(pos == 1 && neg == 2)
    requires !(|ts| == 2 && ConeTest(ts, vars[0], vars[1], vars[2]))
    requires !AnyHasVar(ts, vars[2])
    ensures Classify(Sum(ts), vars) == Some(EllipticCylinder) <==>
              AnyHasSquare(ts, vars[0]) && AnyHasSquare(ts, vars[1])
    ensures Classify(Sum(ts), vars) == Some(ParabolicCylinder) <==>
              AnyHasSquare(ts, vars[0]) != AnyHasSquare(ts, vars[1])
    ensures Classify(Sum(ts), vars) == None <==>
              !AnyHasSquare(ts, vars[0]) && !AnyHasSquare(ts, vars[1])
  {
    ClassifyMatchesReference(Sum(ts), vars);
  }

  /**
   * Once a summand holds a squared variable of the triple beside another
   * variable (3*x**2*y, say) and the ellipsoid rule has not fired, there is no
   * label: the comparison raises and the error is swallowed.
   */
  lemma UndecidableIsNone(ts: seq<Term>, vars: seq<Var>, t: Term)
    requires |vars| == 3
    requires !(|ts| == 3 && EllipsoidTest(ts, vars[0], vars[1], vars[2]))
    requires t in ts && !Decidable(t, vars[0], vars[1], vars[2])
    ensures Classify(Sum(ts), vars) == None
  {
    ClassifyMatchesReference(Sum(ts), vars);
  }

  /** Any test that one summand passes or fails gives the same answer on two lists with the same members. */
  lemma SameMembersSameTests(p: seq<Term>, q: seq<Term>, x: Var, y: Var, z: Var)
    requires forall t :: t in p ==> t in q
    ensures EllipsoidTest(q, x, y, z) ==> EllipsoidTest(p, x, y, z)
    ensures ConeTest(q, x, y, z) ==> ConeTest(p, x, y, z)
    ensures (forall t :: t in q ==> Decidable(t, x, y, z)) ==> (forall t :: t in p ==> Decidable(t, x, y, z))
    ensures AnyHasVar(p, z) ==> AnyHasVar(q, z)
    ensures AnyHasSquare(p, x) ==> AnyHasSquare(q, x)
    ensures AnyHasSquare(p, y) ==> AnyHasSquare(q, y)
  {
    if AnyHasVar(p, z) {
      var t :| t in p && HasVar(t, z);
      assert t in q;
    }
    if AnyHasSquare(p, x) {
      var t :| t in p && HasSquare(t, x);
      assert t in q;
    }
    if AnyHasSquare(p, y) {
      var t :| t in p && HasSquare(t, y);
      assert t in q;
    }
  }

  /** The shape of a sum depends only on its length, which summands occur, and the two counts. */
  lemma ShapeInvariant(p: seq<Term>, q: seq<Term>, x: Var, y: Var, z: Var)
    requires |p| == |q| && forall t :: t in p <==> t in q
    requires CountSigned(p, x, y, z, true) == CountSigned(q, x, y, z, true)
    requires CountSigned(p, x, y, z, false) == CountSigned(q, x, y, z, false)
    ensures ShapeOf(p, x, y, z) == ShapeOf(q, x, y, z)
  {
    SameMembersSameTests(p, q, x, y, z);
    SameMembersSameTests(q, p, x, y, z);
  }

  /** Permuting the summands of a sum never changes its label. */
  lemma OrderIndependent(p: seq<Term>, q: seq<Term>, vars: seq<Var>)
    requires multiset(p) == multiset(q)
    ensures Classify(Sum(p), vars) == Classify(Sum(q), vars)
  {
    if |vars| == 3 {
      var x, y, z := vars[0], vars[1], vars[2];
      ClassifyMatchesReference(Sum(p), vars);
      ClassifyMatchesReference(Sum(q), vars);
      assert |p| == |multiset(p)| == |q|;
      forall t ensures t in p <==> t in q {
        assert t in p <==> t in multiset(p);
      }
      CountPermutation(p, q, x, y, z, true);
      CountPermutation(p, q, x, y, z, false);
      ShapeInvariant(p, q, x, y, z);
    }
  }

  /** A single node is a cylinder or nothing; a bare power such as x**2 is nothing. */
  lemma SingleNodeLabels(t: Term, vars: seq<Var>)
    requires |vars| == 3
    ensures Classify(Single(t), vars) in {None, Some(EllipticCylinder), Some(ParabolicCylinder)}
    ensures IsPow(t) ==> Classify(Single(t), vars) == None
    ensures IsMul(t) && Exp(t, vars[2]) == 0 && Exp(t, vars[0]) == 2 && Exp(t, vars[1]) != 2 ==>
              Classify(Single(t), vars) == Some(ParabolicCylinder)
  {
    ClassifyMatchesReference(Single(t), vars);
  }
}

/**
 * Concrete inputs, with the variable list [X, Y, Z] unless stated otherwise.
 * Each is checked against the reference table through the shape of the sum.
 */
module QuadricExamples {
  import opened Polynomial
  import opened Quadric
  import opened QuadricProperties

  /** The signed-square counts of any four summands, written out summand by summand. */
  lemma FourSummandCounts(ts: seq<Term>, x: Var, y: Var, z: Var, positive: bool)
    requires |ts| == 4
    ensures CountSigned(ts, x, y, z, positive) ==
              (if SignedSquare(ts[0], x, y, z, positive) then 1 else 0)
              + (if SignedSquare(ts[1], x, y, z, positive) then 1 else 0)
              + (if SignedSquare(ts[2], x, y, z, positive) then 1 else 0)
              + (if SignedSquare(ts[3], x, y, z, positive) then 1 else 0)
  {
    var t1 := ts[1..];
    var t2 := t1[1..];
    var t3 := t2[1..];
    assert t1[0] == ts[1] && t2[0] == ts[2] && t3[0] == ts[3] && t3[1..] == [];
    assert CountSigned(t3, x, y, z, positive) == (if SignedSquare(ts[3], x, y, z, positive) then 1 else 0);
    assert CountSigned(t2, x, y, z, positive) ==
             (if SignedSquare(ts[2], x, y, z, positive) then 1 else 0) + CountSigned(t3, x, y, z, positive);
    assert CountSigned(t1, x, y, z, positive) ==
             (if SignedSquare(ts[1], x, y, z, positive) then 1 else 0) + CountSigned(t2, x, y, z, positive);
  }

  /**
   * a*x**2 + b*y**2 + c*z**2 + d with a constant d != 0: four summands, so the
   * labels come from the counts alone; with a, b, c all positive (the unit
   * sphere, say) there is none, with exactly one negative it is a hyperboloid
   * of one sheet, with exactly one positive one of two sheets.
   */
  lemma ShiftedSquares(a: real, b: real, c: real, d: real)
    requires a != 0.0 && b != 0.0 && c != 0.0 && d != 0.0
    ensures var e := Sum([Term(a, 2, 0, 0), Term(b, 0, 2, 0), Term(c, 0, 0, 2), Num(d)]);
      && (a > 0.0 && b > 0.0 && c > 0.0 ==> Classify(e, [X, Y, Z]) == None)
      && (a > 0.0 && b > 0.0 && c < 0.0 ==> Classify(e, [X, Y, Z]) == Some(HyperboloidOneSheet))
      && (a < 0.0 && b < 0.0 && c > 0.0 ==> Classify(e, [X, Y, Z]) == Some(HyperboloidTwoSheets))
  {
    var ts := [Term(a, 2, 0, 0), Term(b, 0, 2, 0), Term(c, 0, 0, 2), Num(d)];
    ClassifyMatchesReference(Sum(ts), [X, Y, Z]);
    ShiftedSquaresShape(a, b, c, d);
  }

  lemma ShiftedSquaresShape(a: real, b: real, c: real, d: real)
    requires a != 0.0 && b != 0.0 && c != 0.0 && d != 0.0
    ensures var s := ShapeOf([Term(a, 2, 0, 0), Term(b, 0, 2, 0), Term(c, 0, 0, 2), Num(d)], X, Y, Z);
      && s.size == 4 && s.decidable && s.hasZ
      && s.positives == (if a > 0.0 then 1 else 0) + (if b > 0.0 then 1 else 0) + (if c > 0.0 then 1 else 0)
      && s.negatives == (if a < 0.0 then 1 else 0) + (if b < 0.0 then 1 else 0) + (if c < 0.0 then 1 else 0)
  {
    var ts := [Term(a, 2, 0, 0), Term(b, 0, 2, 0), Term(c, 0, 0, 2), Num(d)];
    assert PureSquare(ts[0], X) && PureSquare(ts[1], Y) && PureSquare(ts[2], Z);
    assert forall t :: t in ts ==> Decidable(t, X, Y, Z);
    assert HasVar(ts[2], Z);
    FourSummandCounts(ts, X, Y, Z, true);
    FourSummandCounts(ts, X, Y, Z, false);
    assert !SignedSquare(ts[3], X, Y, Z, true) && !SignedSquare(ts[3], X, Y, Z, false);
  }

  /** x**2 + y**2 + z**2 - 1 carries no label; x**2 + y**2 - z**2 - 1 and -x**2 - y**2 + z**2 - 1 are hyperboloids. */
  lemma ShiftedSquaresExamples()
    ensures Classify(Sum([Term(1.0, 2, 0, 0), Term(1.0, 0, 2, 0), Term(1.0, 0, 0, 2), Num(-1.0)]), [X, Y, Z]) == None
    ensures Classify(Sum([Term(1.0, 2, 0, 0), Term(1.0, 0, 2, 0), Term(-1.0, 0, 0, 2), Num(-1.0)]), [X, Y, Z])
              == Some(HyperboloidOneSheet)
    ensures Classify(Sum([Term(-1.0, 2, 0, 0), Term(-1.0, 0, 2, 0), Term(1.0, 0, 0, 2), Num(-1.0)]), [X, Y, Z])
              == Some(HyperboloidTwoSheets)
  {
    ShiftedSquares(1.0, 1.0, 1.0, -1.0);
    ShiftedSquares(1.0, 1.0, -1.0, -1.0);
    ShiftedSquares(-1.0, -1.0, 1.0, -1.0);
  }

  /** The sum z + a*x**2 + b*y**2 with a, b non-zero is unlabelled: the ellipsoid rule fails and z occurs. */
  lemma ParaboloidShapeUnlabelled(a: real, b: real)
    requires a != 0.0 && b != 0.0
    ensures Classify(Sum([Term(1.0, 0, 0, 1), Term(a, 2, 0, 0), Term(b, 0, 2, 0)]), [X, Y, Z]) == None
  {
    ClassifyMatchesReference(Sum([Term(1.0, 0, 0, 1), Term(a, 2, 0, 0), Term(b, 0, 2, 0)]), [X, Y, Z]);
    ParaboloidShape(a, b);
  }

  lemma ParaboloidShape(a: real, b: real)
    requires a != 0.0 && b != 0.0
    ensures var s := ShapeOf([Term(1.0, 0, 0, 1), Term(a, 2, 0, 0), Term(b, 0, 2, 0)], X, Y, Z);
      s.size == 3 && !s.ellipsoid && s.hasZ && s.positives + s.negatives <= 2
  {
    var ts := [Term(1.0, 0, 0, 1), Term(a, 2, 0, 0), Term(b, 0, 2, 0)];
    assert IsMulOrPow(ts[1]) && !HasSquare(ts[1], Y) && !HasSquare(ts[1], Z);
    assert IsMulOrPow(ts[2]) && !HasSquare(ts[2], X);
    assert HasVar(ts[0], Z);
    assert !SignedSquare(ts[0], X, Y, Z, true) && !SignedSquare(ts[0], X, Y, Z, false);
    CountsShareSummands(ts[1..], X, Y, Z);
  }

  /** z - x**2 - y**2 and z - x**2 + y**2 carry no label. */
  lemma ParaboloidExamplesUnlabelled()
    ensures Classify(Sum([Term(1.0, 0, 0, 1), Term(-1.0, 2, 0, 0), Term(-1.0, 0, 2, 0)]), [X, Y, Z]) == None
    ensures Classify(Sum([Term(1.0, 0, 0, 1), Term(-1.0, 2, 0, 0), Term(1.0, 0, 2, 0)]), [X, Y, Z]) == None
  {
    ParaboloidShapeUnlabelled(-1.0, -1.0);
    ParaboloidShapeUnlabelled(-1.0, 1.0);
  }

  /** x**2 + y**2 is a cone. */
  lemma ConeExample()
    ensures Classify(Sum([Term(1.0, 2, 0, 0), Term(1.0, 0, 2, 0)]), [X, Y, Z]) == Some(EllipticCone)
  {
    var ts := [Term(1.0, 2, 0, 0), Term(1.0, 0, 2, 0)];
    ConeExactly(ts, [X, Y, Z]);
    assert ConeTest(ts, X, Y, Z);
  }

  /** The same sum with the variables listed as [Z, Y, X] carries no label: X now plays z. */
  lemma ConeExampleReordered()
    ensures Classify(Sum([Term(1.0, 2, 0, 0), Term(1.0, 0, 2, 0)]), [Z, Y, X]) == None
  {
    var ts := [Term(1.0, 2, 0, 0), Term(1.0, 0, 2, 0)];
    ClassifyMatchesReference(Sum(ts), [Z, Y, X]);
    CountsShareSummands(ts, Z, Y, X);
    assert !ShapeOf(ts, Z, Y, X).cone by {
      assert !HasSquare(ts[0], Z) && !HasSquare(ts[0], Y) && !HasSquare(ts[1], X);
    }
    assert HasVar(ts[0], X);
    assert ShapeOf(ts, Z, Y, X).hasZ;
  }

  /** x**2 alone is nothing; 2*x**2 is a parabolic and x**2*y**2 an elliptic cylinder. */
  lemma SingleNodeExamples()
    ensures Classify(Single(Term(1.0, 2, 0, 0)), [X, Y, Z]) == None
    ensures Classify(Single(Term(2.0, 2, 0, 0)), [X, Y, Z]) == Some(ParabolicCylinder)
    ensures Classify(Single(Term(1.0, 2, 2, 0)), [X, Y, Z]) == Some(EllipticCylinder)
  {
    ClassifyMatchesReference(Single(Term(1.0, 2, 0, 0)), [X, Y, Z]);
    ClassifyMatchesReference(Single(Term(2.0, 2, 0, 0)), [X, Y, Z]);
    ClassifyMatchesReference(Single(Term(1.0, 2, 2, 0)), [X, Y, Z]);
  }

  /** x*y + z**2: a cross term, no rule fires. */
  lemma CrossTermUnlabelled()
    ensures Classify(Sum([Term(1.0, 1, 1, 0), Term(1.0, 0, 0, 2)]), [X, Y, Z]) == None
  {
    var ts := [Term(1.0, 1, 1, 0), Term(1.0, 0, 0, 2)];
    ClassifyMatchesReference(Sum(ts), [X, Y, Z]);
    CountsShareSummands(ts, X, Y, Z);
    assert !ShapeOf(ts, X, Y, Z).cone by {
      assert !HasSquare(ts[0], X) && !HasSquare(ts[0], Y) && !HasSquare(ts[0], Z);
    }
    assert HasVar(ts[1], Z);
    assert ShapeOf(ts, X, Y, Z).hasZ;
  }

  /** x + y + z: no product or power summand, so the ellipsoid rule holds vacuously. */
  lemma SymbolSumExample()
    ensures Classify(Sum([Term(1.0, 1, 0, 0), Term(1.0, 0, 1, 0), Term(1.0, 0, 0, 1)]), [X, Y, Z]) == Some(Ellipsoid)
  {
    NoProductsIsEllipsoid([Term(1.0, 1, 0, 0), Term(1.0, 0, 1, 0), Term(1.0, 0, 0, 1)], [X, Y, Z]);
  }

  /** 3*x**2*y + z: the coefficient of x**2 is 3*y, whose sign cannot be decided. */
  lemma UndecidableExample()
    ensures Classify(Sum([Term(3.0, 2, 1, 0), Term(1.0, 0, 0, 1)]), [X, Y, Z]) == None
  {
    var ts := [Term(3.0, 2, 1, 0), Term(1.0, 0, 0, 1)];
    assert !Decidable(ts[0], X, Y, Z) by {
      assert Exp(ts[0], Y) != 0;
    }
    UndecidableIsNone(ts, [X, Y, Z], ts[0]);
  }
}
