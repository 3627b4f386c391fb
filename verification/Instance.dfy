// The laws asked of the curve are consistent: the discrete-logarithm model satisfies all of them.
// Both groups are the integers modulo the group order, a point being its logarithm up to sign with
// the sign in `y`; the pairing multiplies logarithms; the syscall decodes, operates and encodes.
module Instance {
  import opened Wrappers
  import opened Bytes
  import opened Constants
  import opened Points
  import opened Arithmetic

  const HALF := FR / 2

  type Log = k: int | 0 <= k < FR

  function AddLog(a: Log, b: Log): Log {
    if a + b < FR then a + b else a + b - FR
  }

  function NegLog(a: Log): Log {
    if a == 0 then 0 else FR - a
  }

  // --- Points and their logarithms ---

  function Point1(k: Log): G1 {
    if k == 0 then O1 else if k <= HALF then P1(k, 1) else P1(FR - k, FQ - 1)
  }

  function Log1(p: G1): Log {
    match p
    case O1 => 0
    case P1(x, y) => if x >= FR then 0 else if y == 1 then x else NegLog(x)
  }

  function Point2(k: Log): G2 {
    if k == 0 then O2 else if k <= HALF then P2(Fq2(k, 0), Fq2(1, 0)) else P2(Fq2(FR - k, 0), Fq2(FQ - 1, 0))
  }

  function Log2(q: G2): Log {
    match q
    case O2 => 0
    case P2(x, y) => if x.c0 >= FR then 0 else if y.c0 == 1 then x.c0 else NegLog(x.c0)
  }

  // --- The operations ---

  function Root1(x: Fq): Option<Fq> {
    if 0 < x <= HALF then Some(1) else None
  }

  function Root2(x: Fq2): Option<Fq2> {
    if 0 < x.c0 <= HALF && x.c1 == 0 then Some(Fq2(1, 0)) else None
  }

  function Add(p: G1, q: G1): G1 {
    Point1(AddLog(Log1(p), Log1(q)))
  }

  function Times(a: Log, b: Log): Log {
    a * b % FR
  }

  function Pair(p: G1, q: G2): Gt {
    Times(Log1(p), Log2(q))
  }

  function GtTimes(a: Gt, b: Gt): Gt {
    AddLog(a, b)
  }

  /** The groups without the syscall, which is defined from them. */
  function Groups(): Curve {
    Curve(Root1, Root2, (x, y) => true, Add, Pair, 0, GtTimes, (op, input) => None)
  }

  function Op(op: nat, input: seq<byte>): Option<seq<byte>> {
    var g := Groups();
    if op == 0 && |input| == G1_ADD_INPUT_SIZE then
      var a, b := input[..G1_SIZE], input[G1_SIZE..];
      if g.Decodes1(a) && g.Decodes1(b) then Some(G1ToBytes(Add(g.G1FromBytes(a).value, g.G1FromBytes(b).value))) else None
    else if op == 2 && |input| == G1_MUL_INPUT_SIZE then
      var p, s := input[..G1_SIZE], input[G1_SIZE..];
      if g.Decodes1(p) then Some(G1ToBytes(g.Mul1(BE(s), g.G1FromBytes(p).value))) else None
    else if op == 3 && |input| % PAIRING_ELEMENT_SIZE == 0 then
      if g.DecodesPairs(input) then Some(Zeros(31) + [if g.PairProduct(input) == 0 then 1 else 0]) else None
    else None
  }

  function Model(): Curve {
    Groups().(groupOp := Op)
  }

  // --- The syscall is no part of what points decode to ---

  lemma SamePoints(b: seq<byte>)
    ensures |b| == G1_SIZE ==> Model().G1FromBytes(b) == Groups().G1FromBytes(b)
    ensures |b| == G2_SIZE ==> Model().G2FromBytes(b) == Groups().G2FromBytes(b)
  {
    assert forall p :: Model().On1(p) == Groups().On1(p);
    assert forall q :: Model().On2(q) == Groups().On2(q);
    hide FqFromBytes, Fq2FromBytes, Curve.On1, Curve.On2;
  }

  lemma {:induction false} SameMul(s: nat, p: G1)
    ensures Model().Mul1(s, p) == Groups().Mul1(s, p)
  {
    if s > 0 {
      SameMul(s - 1, p);
    }
  }

  lemma {:induction false} SamePairs(input: seq<byte>)
    requires |input| % PAIRING_ELEMENT_SIZE == 0
    ensures Model().DecodesPairs(input) == Groups().DecodesPairs(input)
    ensures Model().DecodesPairs(input) ==> Model().PairProduct(input) == Groups().PairProduct(input)
    decreases |input|
  {
    hide Curve.G1FromBytes, Curve.G2FromBytes;
    if |input| > 0 {
      SamePoints(input[..G1_SIZE]);
      SamePoints(input[G1_SIZE..PAIRING_ELEMENT_SIZE]);
      SamePairs(input[PAIRING_ELEMENT_SIZE..]);
    }
  }

  // --- Points are their logarithms ---

  lemma Logs1(p: G1)
    requires Model().On1(p)
    ensures Point1(Log1(p)) == p && Model().On1(Neg1(p)) && Log1(Neg1(p)) == NegLog(Log1(p))
  {
  }

  lemma LogOf1(k: Log)
    ensures Model().On1(Point1(k)) && Log1(Point1(k)) == k
  {
  }

  lemma Logs2(q: G2)
    requires Model().On2(q)
    ensures Point2(Log2(q)) == q && Log2(Neg2(q)) == NegLog(Log2(q))
  {
  }

  // --- Arithmetic modulo the order ---

  /** Multiplication distributes over addition of logarithms. */
  lemma TimesAdds(a: Log, b: Log, t: Log)
    ensures Times(AddLog(a, b), t) == AddLog(Times(a, t), Times(b, t))
  {
    var m := FR;
    var x, y := a * t, b * t;
    var carry := if a + b < m then 0 else 1;
    var wrap := if x % m + y % m < m then 0 else 1;
    assert AddLog(a, b) * t == x + y - carry * t * m by {
      assert (a + b - m) * t == x + y - t * m;
      assert (a + b) * t == x + y;
    }
    ModIs(AddLog(a, b) * t, m, x / m + y / m + wrap - carry * t, x % m + y % m - wrap * m);
  }

  lemma TimesCommutes(a: Log, b: Log)
    ensures Times(a, b) == Times(b, a)
  {
    assert a * b == b * a;
  }

  lemma AddNeg(a: Log)
    ensures AddLog(a, NegLog(a)) == 0
  {
  }

  lemma TimesNeg(a: Log, t: Log)
    ensures AddLog(Times(a, t), Times(a, NegLog(t))) == 0
  {
    TimesAdds(t, NegLog(t), a);
    AddNeg(t);
    TimesCommutes(a, t);
    TimesCommutes(a, NegLog(t));
    assert Times(0, a) == 0;
  }

  lemma TimesZero(a: Log)
    ensures Times(a, 0) == 0
  {
  }

  // --- The laws ---

  lemma PointLawsHold()
    ensures Model().PointLaws()
  {
    var c := Model();
    forall x ensures c.Root1At(x) {}
    forall x ensures c.Root2At(x) {}
    forall x, y ensures c.SubgroupNegAt(x, y) {}
  }

  lemma GroupLawsHold()
    ensures Model().GroupLaws()
  {
    var c := Model();
    hide Log1, Point1, Curve.On1;
    forall p, q ensures c.ClosedAt(p, q) {
      LogOf1(AddLog(Log1(p), Log1(q)));
    }
    forall p, q, s ensures c.AssocAt(p, q, s) {
      LogOf1(AddLog(Log1(p), Log1(q)));
      LogOf1(AddLog(Log1(q), Log1(s)));
    }
    forall p ensures c.UnitAt(p) {
      LogOf1(0);
      IdentityLog();
      if c.On1(p) {
        Logs1(p);
      }
    }
  }

  lemma IdentityLog()
    ensures Log1(O1) == 0 && Point1(0) == O1 && Log2(O2) == 0
  {
  }

  lemma PairingLawsHold()
    ensures Model().PairingLaws()
  {
    var c := Model();
    hide Log1, Log2, Point1, Curve.On1, Curve.On2, Times;
    forall a ensures c.GtUnitAt(a) {}
    forall a, b ensures c.GtCommAt(a, b) {}
    forall a, b, d ensures c.GtAssocAt(a, b, d) {}
    forall p, q, t ensures c.BilinearAt(p, q, t) {
      LogOf1(AddLog(Log1(p), Log1(q)));
      TimesAdds(Log1(p), Log1(q), Log2(t));
    }
    forall p, t ensures c.PairNegAt(p, t) {
      if c.On2(t) {
        Logs2(t);
        TimesNeg(Log1(p), Log2(t));
      }
    }
    forall p ensures c.PairUnitAt(p) {
      IdentityLog();
      TimesZero(Log1(p));
    }
  }

  lemma SyscallLawsHold()
    ensures Model().SyscallLaws()
  {
    var c := Model();
    forall a, b ensures c.AddOpAt(a, b) {
      AddOpHolds(a, b);
    }
    forall p, s ensures c.MulOpAt(p, s) {
      MulOpHolds(p, s);
    }
    forall input ensures c.PairingOpAt(input) {
      PairingOpHolds(input);
    }
  }

  lemma AddOpHolds(a: seq<byte>, b: seq<byte>)
    ensures Model().AddOpAt(a, b)
  {
    hide Curve.G1FromBytes, G1ToBytes;
    if |a| == G1_SIZE && |b| == G1_SIZE {
      assert (a + b)[..G1_SIZE] == a && (a + b)[G1_SIZE..] == b;
      SamePoints(a);
      SamePoints(b);
    }
  }

  lemma MulOpHolds(p: seq<byte>, s: seq<byte>)
    ensures Model().MulOpAt(p, s)
  {
    hide Curve.G1FromBytes, G1ToBytes, Curve.Mul1, BE;
    if |p| == G1_SIZE && |s| == FR_SIZE {
      assert (p + s)[..G1_SIZE] == p && (p + s)[G1_SIZE..] == s;
      SamePoints(p);
      if Model().Decodes1(p) {
        SameMul(BE(s), Model().G1FromBytes(p).value);
      }
    }
  }

  lemma PairingOpHolds(input: seq<byte>)
    ensures Model().PairingOpAt(input)
  {
    hide Curve.DecodesPairs, Curve.PairProduct;
    if |input| % PAIRING_ELEMENT_SIZE == 0 {
      SamePairs(input);
    }
  }

  /** Every law asked of the curve holds of the model, with nothing assumed. */
  lemma LawsHold()
    ensures Model().Laws()
  {
    PointLawsHold();
    GroupLawsHold();
    PairingLawsHold();
    SyscallLawsHold();
  }

  // --- Prime order, from the primality of the group order ---

  predicate IsPrime(m: int) {
    m > 1 && forall d :: 1 < d < m ==> m % d != 0
  }

  predicate Annihilates(m: int, j: int, b: int)
    requires m > 0
  {
    0 < j && j * b % m == 0
  }

  lemma {:induction false} LeastAnnihilator(m: int, j: int, b: int) returns (least: int)
    requires m > 0 && Annihilates(m, j, b)
    ensures 0 < least <= j && Annihilates(m, least, b)
    ensures forall i :: 0 < i < least ==> !Annihilates(m, i, b)
    decreases j
  {
    if i :| 0 < i < j && Annihilates(m, i, b) {
      least := LeastAnnihilator(m, i, b);
    } else {
      least := j;
    }
  }

  /** Euclid: a prime dividing a product divides a factor. */
  lemma Euclid(m: int, a: int, b: int)
    requires IsPrime(m) && 0 <= a < m && 0 <= b < m && a * b % m == 0
    ensures a == 0 || b == 0
  {
    if a > 0 && b > 0 {
      var j := LeastAnnihilator(m, a, b);
      ModIs(b, m, 0, b);
      Divides(m, j, b);
      assert false;
    }
  }

  /** What annihilates `b`, taken from the modulus as often as it fits, leaves what annihilates `b`. */
  lemma Divides(m: int, j: int, b: int)
    requires m > 0 && Annihilates(m, j, b)
    ensures m % j > 0 ==> Annihilates(m, m % j, b)
  {
    var q, s, k := m / j, m % j, j * b / m;
    assert j * b == k * m;
    assert s * b == (b - q * k) * m by {
      assert s == m - q * j;
      Expand(m, q, j, b);
      assert q * (j * b) == q * (k * m);
      assert q * (k * m) == (q * k) * m;
    }
    ModIs(s * b, m, b - q * k, 0);
  }

  lemma Expand(m: int, q: int, j: int, b: int)
    ensures (m - q * j) * b == m * b - q * (j * b)
  {
  }

  // --- Repeated addition is multiplication of logarithms ---

  lemma {:induction false} MulLog(s: nat, p: G1)
    requires Model().On1(p)
    ensures Model().On1(Model().Mul1(s, p)) && Log1(Model().Mul1(s, p)) == s * Log1(p) % FR
  {
    hide Log1, Point1, Curve.On1;
    if s == 0 {
      IdentityLog();
      LogOf1(0);
    } else {
      MulLog(s - 1, p);
      OneMore(s, Log1(p));
      hide Times;
      LogOf1(AddLog(Log1(Model().Mul1(s - 1, p)), Log1(p)));
    }
  }

  lemma OneMore(s: nat, k: Log)
    requires s > 0
    ensures s * k % FR == AddLog((s - 1) * k % FR, k)
  {
    NonNegative(s - 1, k);
    StepMod((s - 1) * k, k);
    assert s * k == (s - 1) * k + k;
  }

  lemma StepMod(x: nat, k: Log)
    ensures (x + k) % FR == AddLog(x % FR, k)
  {
    var m := FR;
    var wrap := if x % m + k < m then 0 else 1;
    ModIs(x + k, m, x / m + wrap, x % m + k - wrap * m);
  }

  /** If the group order is prime, nothing but an identity pairs to one or has a smaller order. */
  lemma PrimeOrderHolds()
    requires IsPrime(FR)
    ensures Model().PrimeOrder()
  {
    var c := Model();
    hide Log1, Log2, Point1, Point2, Curve.On1, Curve.On2, Curve.Mul1, IsPrime;
    IdentityLog();
    forall p, t ensures c.NonDegenerateAt(p, t) {
      if c.On1(p) && c.On2(t) && c.pair(p, t) == c.gtOne {
        Logs1(p);
        Logs2(t);
        Euclid(FR, Log1(p), Log2(t));
        if Log2(t) == 0 {
          NoLog2(t);
        }
      }
    }
    forall s: nat, p ensures c.OrderAt(s, p) {
      if c.On1(p) && 0 < s < FR && c.Mul1(s, p) == O1 {
        MulLog(s, p);
        Logs1(p);
        Euclid(FR, s, Log1(p));
      }
    }
  }

  lemma NoLog2(t: G2)
    requires Model().On2(t) && Log2(t) == 0
    ensures t == O2
  {
  }
}
