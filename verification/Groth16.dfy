// The Groth16 statement itself, over points and integers: the reference the verifier's bytes are
// measured against (Groth16, EUROCRYPT 2016, section 3.2).
module Groth16 {
  import opened Bytes
  import opened Constants
  import opened Points

  datatype Key = Key(alpha: G1, beta: G2, gamma: G2, delta: G2, ic: seq<G1>)
  datatype ProofPoints = ProofPoints(a: G1, b: G2, c: G1)

  ghost predicate OnCurves(c: Curve, ps: seq<G1>) {
    forall i :: 0 <= i < |ps| ==> c.On1(ps[i])
  }

  ghost predicate KeyOnCurve(c: Curve, k: Key) {
    c.On1(k.alpha) && c.On2(k.beta) && c.On2(k.gamma) && c.On2(k.delta) && OnCurves(c, k.ic) && |k.ic| > 0
  }

  ghost predicate ProofOnCurve(c: Curve, p: ProofPoints) {
    c.On1(p.a) && c.On2(p.b) && c.On1(p.c)
  }

  /** `IC0 + a1 * IC1 + ... + an * ICn`. */
  function PublicSum(c: Curve, ic: seq<G1>, s: seq<nat>): G1
    requires |ic| == |s| + 1
  {
    if |s| == 0 then ic[0]
    else c.add1(PublicSum(c, ic[..|s|], s[..|s| - 1]), c.Mul1(s[|s| - 1], ic[|s|]))
  }

  /** `e(A, B) = e(alpha, beta) * e(L, gamma) * e(C, delta)`. */
  ghost predicate Accepts(c: Curve, k: Key, p: ProofPoints, s: seq<nat>)
    requires |k.ic| == |s| + 1
  {
    c.pair(p.a, p.b) ==
    c.gtMul(c.pair(k.alpha, k.beta), c.gtMul(c.pair(PublicSum(c, k.ic, s), k.gamma), c.pair(p.c, k.delta)))
  }

  // --- Scalar multiples ---

  lemma {:induction false} Mul1On(c: Curve, s: nat, p: G1)
    requires c.GroupLaws() && c.On1(p)
    ensures c.On1(c.Mul1(s, p))
  {
    if s > 0 {
      Mul1On(c, s - 1, p);
      assert c.ClosedAt(c.Mul1(s - 1, p), p);
    }
  }

  lemma {:induction false} Mul1Identity(c: Curve, s: nat)
    requires c.GroupLaws()
    ensures c.Mul1(s, O1) == O1
  {
    assert c.UnitAt(O1);
    if s > 0 {
      Mul1Identity(c, s - 1);
    }
  }

  lemma AddZero(c: Curve, p: G1)
    requires c.GroupLaws() && c.On1(p)
    ensures c.add1(p, O1) == p && c.add1(O1, p) == p
  {
    assert c.UnitAt(p) && c.ClosedAt(p, O1);
  }

  lemma Mul1One(c: Curve, p: G1)
    requires c.GroupLaws() && c.On1(p)
    ensures c.Mul1(1, p) == p
  {
    assert c.Mul1(1, p) == c.add1(c.Mul1(0, p), p);
    AddZero(c, p);
  }

  lemma {:induction false} Mul1Sum(c: Curve, s: nat, t: nat, p: G1)
    requires c.GroupLaws() && c.On1(p)
    ensures c.Mul1(s + t, p) == c.add1(c.Mul1(s, p), c.Mul1(t, p))
  {
    Mul1On(c, s, p);
    if t == 0 {
      AddZero(c, c.Mul1(s, p));
    } else {
      Mul1Sum(c, s, t - 1, p);
      Mul1On(c, t - 1, p);
      assert c.AssocAt(c.Mul1(s, p), c.Mul1(t - 1, p), p);
    }
  }

  lemma Cancel(c: Curve, p: G1, q: G1, t: G1)
    requires c.GroupLaws() && c.On1(p) && c.On1(q) && c.On1(t)
    requires c.add1(p, q) == c.add1(p, t)
    ensures q == t
  {
    var n := Neg1(p);
    assert c.UnitAt(p) && c.ClosedAt(p, n);
    assert c.AssocAt(n, p, q) && c.AssocAt(n, p, t);
    assert c.UnitAt(q) && c.UnitAt(t);
  }

  lemma {:induction false} PublicSumOn(c: Curve, ic: seq<G1>, s: seq<nat>)
    requires c.GroupLaws() && |ic| == |s| + 1 && OnCurves(c, ic)
    ensures c.On1(PublicSum(c, ic, s))
  {
    if |s| > 0 {
      var k := |s|;
      PublicSumOn(c, ic[..k], s[..k - 1]);
      Mul1On(c, s[k - 1], ic[k]);
      assert c.ClosedAt(PublicSum(c, ic[..k], s[..k - 1]), c.Mul1(s[k - 1], ic[k]));
    }
  }

  // --- The negated form the syscall checks ---

  /** In a commutative monoid, `x * y = 1` turns `a * x = 1` into `a = y`. */
  lemma InverseMoves(c: Curve, a: Gt, x: Gt, y: Gt)
    requires c.PairingLaws() && c.gtMul(x, y) == c.gtOne
    ensures c.gtMul(a, x) == c.gtOne <==> a == y
  {
    assert c.GtUnitAt(a) && c.GtUnitAt(y) && c.GtCommAt(a, c.gtOne) && c.GtCommAt(x, y);
    assert c.GtAssocAt(a, x, y);
  }

  lemma ProductOfInverses(c: Curve, x: Gt, y: Gt, x': Gt, y': Gt)
    requires c.PairingLaws() && c.gtMul(x, x') == c.gtOne && c.gtMul(y, y') == c.gtOne
    ensures c.gtMul(c.gtMul(x, y), c.gtMul(x', y')) == c.gtOne
  {
    assert c.GtAssocAt(x, y, c.gtMul(x', y'));
    assert c.GtAssocAt(y, x', y') && c.GtCommAt(y, x') && c.GtAssocAt(x', y, y');
    assert c.GtCommAt(x', c.gtOne) && c.GtUnitAt(x');
  }

  /** `e(A,B) * e(alpha,-beta) * e(L,-gamma) * e(C,-delta) = 1` is the Groth16 equation. */
  lemma NegatedEquation(c: Curve, k: Key, p: ProofPoints, s: seq<nat>)
    requires c.Laws() && KeyOnCurve(c, k) && ProofOnCurve(c, p) && |k.ic| == |s| + 1
    ensures
      var l := PublicSum(c, k.ic, s);
      Accepts(c, k, p, s) <==>
      c.gtMul(c.pair(p.a, p.b),
              c.gtMul(c.pair(k.alpha, Neg2(k.beta)),
                      c.gtMul(c.pair(l, Neg2(k.gamma)), c.gtMul(c.pair(p.c, Neg2(k.delta)), c.gtOne)))) == c.gtOne
  {
    var l := PublicSum(c, k.ic, s);
    PublicSumOn(c, k.ic, s);
    var b, g, d := c.pair(k.alpha, k.beta), c.pair(l, k.gamma), c.pair(p.c, k.delta);
    var b', g', d' := c.pair(k.alpha, Neg2(k.beta)), c.pair(l, Neg2(k.gamma)), c.pair(p.c, Neg2(k.delta));
    assert c.PairNegAt(k.alpha, k.beta) && c.PairNegAt(l, k.gamma) && c.PairNegAt(p.c, k.delta);
    ProductOfInverses(c, g, d, g', d');
    ProductOfInverses(c, b, c.gtMul(g, d), b', c.gtMul(g', d'));
    var right, inverse := c.gtMul(b, c.gtMul(g, d)), c.gtMul(b', c.gtMul(g', d'));
    assert c.GtCommAt(right, inverse);
    InverseMoves(c, c.pair(p.a, p.b), inverse, right);
    assert c.GtUnitAt(d') && c.GtCommAt(d', c.gtOne);
  }

  // --- Why validation asks for non-identity elements ---

  /** With `gamma` not the identity a fixed proof pins the public sum. */
  lemma SameProofSameSum(c: Curve, k: Key, p: ProofPoints, s: seq<nat>, t: seq<nat>)
    requires c.Laws() && c.PrimeOrder()
    requires KeyOnCurve(c, k) && ProofOnCurve(c, p) && |k.ic| == |s| + 1 == |t| + 1
    requires k.gamma != O2
    requires Accepts(c, k, p, s) && Accepts(c, k, p, t)
    ensures PublicSum(c, k.ic, s) == PublicSum(c, k.ic, t)
  {
    var l, m := PublicSum(c, k.ic, s), PublicSum(c, k.ic, t);
    PublicSumOn(c, k.ic, s);
    PublicSumOn(c, k.ic, t);
    var e, f := c.pair(l, k.gamma), c.pair(m, k.gamma);
    GtCancel(c, k.alpha, k.beta, c.gtMul(e, c.pair(p.c, k.delta)), c.gtMul(f, c.pair(p.c, k.delta)));
    assert c.GtCommAt(e, c.pair(p.c, k.delta)) && c.GtCommAt(f, c.pair(p.c, k.delta));
    GtCancel(c, p.c, k.delta, e, f);
    // e(l - m, gamma) = 1
    var n := Neg1(m);
    NegOn(c, m);
    assert c.BilinearAt(l, n, k.gamma) && c.BilinearAt(m, n, k.gamma) && c.UnitAt(m);
    PairOfIdentity(c, k.gamma);
    assert c.ClosedAt(l, n) && c.NonDegenerateAt(c.add1(l, n), k.gamma);
    assert c.ClosedAt(m, n);
    assert c.ClosedAt(l, n);
    Cancel(c, n, l, m);
  }

  lemma NegOn(c: Curve, p: G1)
    ensures c.On1(p) ==> c.On1(Neg1(p))
  {
  }

  lemma GtCancel(c: Curve, p: G1, q: G2, x: Gt, y: Gt)
    requires c.PairingLaws() && c.On1(p) && c.On2(q)
    requires c.gtMul(c.pair(p, q), x) == c.gtMul(c.pair(p, q), y)
    ensures x == y
  {
    var a, a' := c.pair(p, q), c.pair(p, Neg2(q));
    assert c.PairNegAt(p, q) && c.GtCommAt(a, a');
    assert c.GtAssocAt(a', a, x) && c.GtAssocAt(a', a, y) && c.GtUnitAt(x) && c.GtUnitAt(y);
  }

  lemma PairOfIdentity(c: Curve, q: G2)
    requires c.GroupLaws() && c.PairingLaws() && c.On2(q)
    ensures c.pair(O1, q) == c.gtOne
  {
    var a := c.pair(O1, q);
    assert c.UnitAt(O1) && c.BilinearAt(O1, O1, q);
    assert c.GtUnitAt(a) && c.GtCommAt(a, c.gtOne);
    GtCancel(c, O1, q, a, c.gtOne);
  }

  /** With one public input whose point is not the identity, a proof is accepted for at most one value. */
  lemma OneInputPinned(c: Curve, k: Key, p: ProofPoints, a: nat, b: nat)
    requires c.Laws() && c.PrimeOrder()
    requires KeyOnCurve(c, k) && ProofOnCurve(c, p) && |k.ic| == 2
    requires k.gamma != O2 && k.ic[1] != O1 && a < FR && b < FR
    requires Accepts(c, k, p, [a]) && Accepts(c, k, p, [b])
    ensures a == b
  {
    if a != b {
      SameProofSameSum(c, k, p, [a], [b]);
      SingleTerm(c, k.ic, a);
      SingleTerm(c, k.ic, b);
      Mul1On(c, a, k.ic[1]);
      Mul1On(c, b, k.ic[1]);
      Cancel(c, k.ic[0], c.Mul1(a, k.ic[1]), c.Mul1(b, k.ic[1]));
      MultiplesDiffer(c, if a < b then a else b, if a < b then b else a, k.ic[1]);
    }
  }

  lemma SingleTerm(c: Curve, ic: seq<G1>, a: nat)
    requires |ic| == 2
    ensures PublicSum(c, ic, [a]) == c.add1(ic[0], c.Mul1(a, ic[1]))
  {
    assert PublicSum(c, ic[..1], [a][..0]) == ic[0];
  }

  lemma MultiplesDiffer(c: Curve, a: nat, b: nat, p: G1)
    requires c.GroupLaws() && c.PrimeOrder() && c.On1(p) && p != O1 && a < b < FR
    ensures c.Mul1(a, p) != c.Mul1(b, p)
  {
    assert c.OrderAt(b - a, p);
    if c.Mul1(a, p) == c.Mul1(b, p) {
      Mul1Sum(c, a, b - a, p);
      Mul1On(c, a, p);
      Mul1On(c, b - a, p);
      AddZero(c, c.Mul1(a, p));
      Cancel(c, c.Mul1(a, p), c.Mul1(b - a, p), O1);
    }
  }

  /** The identity rule is tight: with `gamma = O` the proof `(alpha, beta, O)` is accepted for every input. */
  lemma IdentityGammaAcceptsAll(c: Curve, k: Key, s: seq<nat>)
    requires c.Laws() && KeyOnCurve(c, k) && |k.ic| == |s| + 1 && k.gamma == O2
    ensures Accepts(c, k, ProofPoints(k.alpha, k.beta, O1), s)
  {
    PublicSumOn(c, k.ic, s);
    assert c.PairUnitAt(PublicSum(c, k.ic, s));
    PairOfIdentity(c, k.delta);
    var e := c.pair(k.alpha, k.beta);
    assert c.GtUnitAt(c.gtOne) && c.GtUnitAt(e) && c.GtCommAt(e, c.gtOne);
  }
}
