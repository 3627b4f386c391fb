// Field elements, curve points and their byte encodings (tools/convert/src/wire.rs:23-114),
// over an abstract BN254: the curve arithmetic the repository leaves to arkworks and to the
// `alt_bn128` syscalls is a record of functions, and `Laws` is what is asked of it.
// The encodings are those of the "Encoding" parts of EIP-196 and EIP-197.
module Points {
  import opened Wrappers
  import opened Bytes
  import opened Constants
  import opened Errors

  type Fq = x: int | 0 <= x < FQ
  type Fr = x: int | 0 <= x < FR

  datatype Fq2 = Fq2(c0: Fq, c1: Fq)

  function NegFq(y: Fq): Fq {
    if y == 0 then 0 else FQ - y
  }

  function NegFq2(y: Fq2): Fq2 {
    Fq2(NegFq(y.c0), NegFq(y.c1))
  }

  datatype G1 = O1 | P1(x: Fq, y: Fq)
  datatype G2 = O2 | P2(x: Fq2, y: Fq2)

  /** The `FR` values a product of pairings can take. */
  type Gt = x: int | 0 <= x < FR

  function Neg1(p: G1): G1 {
    if p.O1? then O1 else P1(p.x, NegFq(p.y))
  }

  function Neg2(q: G2): G2 {
    if q.O2? then O2 else P2(q.x, NegFq2(q.y))
  }

  lemma Neg2Involutive(q: G2)
    ensures Neg2(Neg2(q)) == q
  {
  }

  // --- Encoding ---

  function FqToBytes(x: Fq): (b: seq<byte>)
    ensures |b| == FQ_SIZE
  {
    ToBE(x, FQ_SIZE)
  }

  function Fq2ToBytes(x: Fq2): (b: seq<byte>)
    ensures |b| == 2 * FQ_SIZE
  {
    FqToBytes(x.c1) + FqToBytes(x.c0)
  }

  function FrToBytes(s: Fr): (b: seq<byte>)
    ensures |b| == FR_SIZE
  {
    ToBE(s, FR_SIZE)
  }

  function G1ToBytes(p: G1): (b: seq<byte>)
    ensures |b| == G1_SIZE
  {
    if p.O1? then Zeros(G1_SIZE) else FqToBytes(p.x) + FqToBytes(p.y)
  }

  function G2ToBytes(q: G2): (b: seq<byte>)
    ensures |b| == G2_SIZE
  {
    if q.O2? then Zeros(G2_SIZE) else Fq2ToBytes(q.x) + Fq2ToBytes(q.y)
  }

  // --- Decoding ---

  function FqFromBytes(b: seq<byte>): Result<Fq, ConvertError>
    requires |b| == FQ_SIZE
  {
    var x: Fq := BE(b) % FQ;
    if FqToBytes(x) != b then Err(NonCanonicalField) else Ok(x)
  }

  function Fq2FromBytes(b: seq<byte>): Result<Fq2, ConvertError>
    requires |b| == 2 * FQ_SIZE
  {
    var c1 :- FqFromBytes(b[..FQ_SIZE]);
    var c0 :- FqFromBytes(b[FQ_SIZE..]);
    Ok(Fq2(c0, c1))
  }

  function FrFromBytes(b: seq<byte>): Result<Fr, ConvertError>
    requires |b| == FR_SIZE
  {
    var s: Fr := BE(b) % FR;
    if FrToBytes(s) != b then Err(NonCanonicalField) else Ok(s)
  }

  lemma FieldBounds()
    ensures FQ < Pow256(FQ_SIZE) && FR < FQ
  {
    Pow256Values();
  }

  /** Reducing and re-encoding gives the same bytes exactly when nothing was reduced. */
  lemma ReduceRoundTrip(b: seq<byte>, m: nat)
    requires 0 < m < Pow256(|b|)
    ensures ToBE(BE(b) % m, |b|) == b <==> BE(b) < m
    ensures BE(b) < m ==> BE(b) % m == BE(b)
  {
    var v := BE(b);
    Remainder(v, m);
    ToBEBE(b);
    BEToBE(v % m, |b|);
  }

  lemma Remainder(v: nat, m: nat)
    requires 0 < m
    ensures v % m < m && (v < m ==> v % m == v)
  {
  }

  /** Accepted exactly when the integer is below the modulus; decoding and encoding are inverse. */
  lemma FqRoundTrip(b: seq<byte>)
    requires |b| == FQ_SIZE
    ensures FqFromBytes(b).Ok? <==> BE(b) < FQ
    ensures FqFromBytes(b).Ok? ==> FqToBytes(FqFromBytes(b).value) == b && FqFromBytes(b).value == BE(b)
    ensures FqFromBytes(b).Err? ==> FqFromBytes(b).error == NonCanonicalField
  {
    FieldBounds();
    ReduceRoundTrip(b, FQ);
  }

  lemma FqEncodeDecode(x: Fq)
    ensures FqFromBytes(FqToBytes(x)) == Ok(x)
  {
    FieldBounds();
    BEToBE(x, FQ_SIZE);
    FqRoundTrip(FqToBytes(x));
  }

  lemma FrRoundTrip(b: seq<byte>)
    requires |b| == FR_SIZE
    ensures FrFromBytes(b).Ok? <==> BE(b) < FR
    ensures FrFromBytes(b).Ok? ==> FrToBytes(FrFromBytes(b).value) == b && FrFromBytes(b).value == BE(b)
    ensures FrFromBytes(b).Err? ==> FrFromBytes(b).error == NonCanonicalField
  {
    FieldBounds();
    ReduceRoundTrip(b, FR);
  }

  lemma FrEncodeDecode(s: Fr)
    ensures FrFromBytes(FrToBytes(s)) == Ok(s) && BE(FrToBytes(s)) == s
  {
    FieldBounds();
    BEToBE(s, FR_SIZE);
    FrRoundTrip(FrToBytes(s));
  }

  lemma Fq2EncodeDecode(x: Fq2)
    ensures Fq2FromBytes(Fq2ToBytes(x)) == Ok(x)
  {
    FqEncodeDecode(x.c0);
    FqEncodeDecode(x.c1);
    assert Fq2ToBytes(x)[..FQ_SIZE] == FqToBytes(x.c1);
    assert Fq2ToBytes(x)[FQ_SIZE..] == FqToBytes(x.c0);
  }

  lemma Fq2DecodeEncode(b: seq<byte>)
    requires |b| == 2 * FQ_SIZE && Fq2FromBytes(b).Ok?
    ensures Fq2ToBytes(Fq2FromBytes(b).value) == b
  {
    FqRoundTrip(b[..FQ_SIZE]);
    FqRoundTrip(b[FQ_SIZE..]);
  }

  // --- The curve ---

  /**
   * What the repository imports: `root1 x` is a square root of `x^3 + b` when there is one,
   * `root2` the same on the twist, `inSubgroup2` the prime-order subgroup test, `add1` and
   * `pair` the group and pairing operations, and `groupOp` the raw syscall.
   */
  datatype Curve = Curve(
    root1: Fq -> Option<Fq>,
    root2: Fq2 -> Option<Fq2>,
    inSubgroup2: (Fq2, Fq2) -> bool,
    add1: (G1, G1) -> G1,
    pair: (G1, G2) -> Gt,
    gtOne: Gt,
    gtMul: (Gt, Gt) -> Gt,
    groupOp: (nat, seq<byte>) -> Option<seq<byte>>
  ) {

    /** On the curve; G1 has cofactor 1, so also in the subgroup. */
    predicate On1(p: G1) {
      p.O1? || (root1(p.x).Some? && (p.y == root1(p.x).value || p.y == NegFq(root1(p.x).value)))
    }

    predicate OnTwist(q: G2) {
      q.O2? || (root2(q.x).Some? && (q.y == root2(q.x).value || q.y == NegFq2(root2(q.x).value)))
    }

    predicate On2(q: G2) {
      q.O2? || (OnTwist(q) && inSubgroup2(q.x, q.y))
    }

    /** `s * p`, as repeated addition. */
    function Mul1(s: nat, p: G1): G1 {
      if s == 0 then O1 else add1(Mul1(s - 1, p), p)
    }

    // --- Decoding points: canonical coordinates, on the curve, in the subgroup ---

    function CheckedAffine1(p: G1): Result<G1, ConvertError> {
      if On1(p) then Ok(p) else Err(InvalidCurvePoint)
    }

    function CheckedAffine2(q: G2): Result<G2, ConvertError> {
      if On2(q) then Ok(q) else Err(InvalidCurvePoint)
    }

    function G1FromBytes(b: seq<byte>): Result<G1, ConvertError>
      requires |b| == G1_SIZE
    {
      if AllZero(b) then Ok(O1)
      else
        var x :- FqFromBytes(b[..FQ_SIZE]);
        var y :- FqFromBytes(b[FQ_SIZE..]);
        CheckedAffine1(P1(x, y))
    }

    function G2FromBytes(b: seq<byte>): Result<G2, ConvertError>
      requires |b| == G2_SIZE
    {
      if AllZero(b) then Ok(O2)
      else
        var x :- Fq2FromBytes(b[..2 * FQ_SIZE]);
        var y :- Fq2FromBytes(b[2 * FQ_SIZE..]);
        CheckedAffine2(P2(x, y))
    }

    predicate Decodes1(b: seq<byte>)
      requires |b| == G1_SIZE
    {
      G1FromBytes(b).Ok?
    }

    predicate Decodes2(b: seq<byte>)
      requires |b| == G2_SIZE
    {
      G2FromBytes(b).Ok?
    }

    // --- Laws, each at given arguments so that a proof names the instances it uses ---

    ghost predicate Root1At(x: Fq) {
      root1(x).Some? ==> root1(x).value != 0
    }

    ghost predicate Root2At(x: Fq2) {
      root2(x).Some? ==> root2(x).value != Fq2(0, 0)
    }

    ghost predicate SubgroupNegAt(x: Fq2, y: Fq2) {
      inSubgroup2(x, y) ==> inSubgroup2(x, NegFq2(y))
    }

    ghost predicate ClosedAt(p: G1, q: G1) {
      On1(p) && On1(q) ==> On1(add1(p, q)) && add1(p, q) == add1(q, p)
    }

    ghost predicate AssocAt(p: G1, q: G1, s: G1) {
      On1(p) && On1(q) && On1(s) ==> add1(add1(p, q), s) == add1(p, add1(q, s))
    }

    ghost predicate UnitAt(p: G1) {
      On1(p) ==> add1(O1, p) == p && add1(p, Neg1(p)) == O1
    }

    ghost predicate GtUnitAt(a: Gt) {
      gtMul(gtOne, a) == a
    }

    ghost predicate GtCommAt(a: Gt, b: Gt) {
      gtMul(a, b) == gtMul(b, a)
    }

    ghost predicate GtAssocAt(a: Gt, b: Gt, d: Gt) {
      gtMul(gtMul(a, b), d) == gtMul(a, gtMul(b, d))
    }

    ghost predicate BilinearAt(p: G1, q: G1, t: G2) {
      On1(p) && On1(q) && On2(t) ==> pair(add1(p, q), t) == gtMul(pair(p, t), pair(q, t))
    }

    ghost predicate PairNegAt(p: G1, t: G2) {
      On1(p) && On2(t) ==> gtMul(pair(p, t), pair(p, Neg2(t))) == gtOne
    }

    ghost predicate PairUnitAt(p: G1) {
      On1(p) ==> pair(p, O2) == gtOne
    }

    /** The runtime's opcodes: 0 adds in G1, 2 multiplies, 3 pairs. */
    ghost predicate AddOpAt(a: seq<byte>, b: seq<byte>) {
      |a| == G1_SIZE && |b| == G1_SIZE ==>
        groupOp(0, a + b) ==
        if Decodes1(a) && Decodes1(b)
        then Some(G1ToBytes(add1(G1FromBytes(a).value, G1FromBytes(b).value))) else None
    }

    /** Nothing is asked of a scalar that is not canonical. */
    ghost predicate MulOpAt(p: seq<byte>, s: seq<byte>) {
      |p| == G1_SIZE && |s| == FR_SIZE && BE(s) < FR ==>
        groupOp(2, p + s) ==
        if Decodes1(p) then Some(G1ToBytes(Mul1(BE(s), G1FromBytes(p).value))) else None
    }

    ghost predicate PairingOpAt(input: seq<byte>) {
      |input| % PAIRING_ELEMENT_SIZE == 0 ==>
        groupOp(3, input) ==
        if DecodesPairs(input)
        then Some(Zeros(31) + [if PairProduct(input) == gtOne then 1 else 0]) else None
    }

    /** Every `(G1, G2)` pair of `input` decodes. */
    predicate DecodesPairs(input: seq<byte>)
      requires |input| % PAIRING_ELEMENT_SIZE == 0
    {
      |input| == 0 ||
      (Decodes1(input[..G1_SIZE]) && Decodes2(input[G1_SIZE..PAIRING_ELEMENT_SIZE])
       && DecodesPairs(input[PAIRING_ELEMENT_SIZE..]))
    }

    function PairProduct(input: seq<byte>): Gt
      requires |input| % PAIRING_ELEMENT_SIZE == 0 && DecodesPairs(input)
    {
      if |input| == 0 then gtOne
      else
        var p, q := G1FromBytes(input[..G1_SIZE]).value, G2FromBytes(input[G1_SIZE..PAIRING_ELEMENT_SIZE]).value;
        gtMul(pair(p, q), PairProduct(input[PAIRING_ELEMENT_SIZE..]))
    }

    /** Roots are never zero (neither group has a point of order two), and negation stays in G2. */
    ghost predicate PointLaws() {
      && (forall x :: Root1At(x))
      && (forall x :: Root2At(x))
      && (forall x, y :: SubgroupNegAt(x, y))
    }

    ghost predicate GroupLaws() {
      && (forall p, q :: ClosedAt(p, q))
      && (forall p, q, s :: AssocAt(p, q, s))
      && (forall p :: UnitAt(p))
    }

    ghost predicate PairingLaws() {
      && (forall a :: GtUnitAt(a))
      && (forall a, b :: GtCommAt(a, b))
      && (forall a, b, d :: GtAssocAt(a, b, d))
      && (forall p, q, t :: BilinearAt(p, q, t))
      && (forall p, t :: PairNegAt(p, t))
      && (forall p :: PairUnitAt(p))
    }

    ghost predicate SyscallLaws() {
      && (forall a, b :: AddOpAt(a, b))
      && (forall p, s :: MulOpAt(p, s))
      && (forall input :: PairingOpAt(input))
    }

    ghost predicate Laws() {
      PointLaws() && GroupLaws() && PairingLaws() && SyscallLaws()
    }

    // --- Prime order, used only where the design's degeneracy argument needs it ---

    ghost predicate NonDegenerateAt(p: G1, t: G2) {
      On1(p) && On2(t) && pair(p, t) == gtOne ==> p == O1 || t == O2
    }

    ghost predicate OrderAt(s: nat, p: G1) {
      On1(p) && 0 < s < FR && Mul1(s, p) == O1 ==> p == O1
    }

    ghost predicate PrimeOrder() {
      && (forall p, t :: NonDegenerateAt(p, t))
      && (forall s: nat, p :: OrderAt(s, p))
    }

    // --- Consequences for the codec ---

    lemma Neg2Valid(q: G2)
      requires PointLaws()
      ensures On2(q) <==> On2(Neg2(q))
    {
      if q.P2? {
        assert SubgroupNegAt(q.x, q.y) && SubgroupNegAt(q.x, NegFq2(q.y));
      }
    }

    lemma G1EncodeDecode(p: G1)
      requires PointLaws() && On1(p)
      ensures G1FromBytes(G1ToBytes(p)) == Ok(p)
      ensures AllZero(G1ToBytes(p)) <==> p == O1
    {
      if p.P1? {
        hide FqFromBytes;
        var b := G1ToBytes(p);
        FqEncodeDecode(p.x);
        FqEncodeDecode(p.y);
        assert b[..FQ_SIZE] == FqToBytes(p.x) && b[FQ_SIZE..] == FqToBytes(p.y);
        assert Root1At(p.x);
        if AllZero(b) {
          FqZero(b[FQ_SIZE..], p.y);
        }
      }
    }

    lemma G2EncodeDecode(q: G2)
      requires PointLaws() && On2(q)
      ensures G2FromBytes(G2ToBytes(q)) == Ok(q)
      ensures AllZero(G2ToBytes(q)) <==> q == O2
    {
      if q.P2? {
        hide FqFromBytes, Fq2FromBytes, Fq2ToBytes;
        var b := G2ToBytes(q);
        Fq2EncodeDecode(q.x);
        Fq2EncodeDecode(q.y);
        assert b[..2 * FQ_SIZE] == Fq2ToBytes(q.x) && b[2 * FQ_SIZE..] == Fq2ToBytes(q.y);
        assert Root2At(q.x);
        Fq2Zero(q.y);
        assert AllZero(b) ==> AllZero(b[2 * FQ_SIZE..]);
      }
    }

    lemma G1DecodeEncode(b: seq<byte>)
      requires |b| == G1_SIZE && Decodes1(b)
      ensures On1(G1FromBytes(b).value) && G1ToBytes(G1FromBytes(b).value) == b
    {
      if AllZero(b) {
        AllZeroIsZeros(b);
      } else {
        hide FqFromBytes, FqToBytes;
        FqRoundTrip(b[..FQ_SIZE]);
        FqRoundTrip(b[FQ_SIZE..]);
      }
    }

    lemma G2DecodeEncode(b: seq<byte>)
      requires |b| == G2_SIZE && Decodes2(b)
      ensures On2(G2FromBytes(b).value) && G2ToBytes(G2FromBytes(b).value) == b
    {
      if AllZero(b) {
        AllZeroIsZeros(b);
      } else {
        hide Fq2FromBytes, Fq2ToBytes;
        Fq2DecodeEncode(b[..2 * FQ_SIZE]);
        Fq2DecodeEncode(b[2 * FQ_SIZE..]);
      }
    }
  }

  lemma FqZero(b: seq<byte>, y: Fq)
    requires b == FqToBytes(y) && AllZero(b)
    ensures y == 0
  {
    FieldBounds();
    BEToBE(y, FQ_SIZE);
    BEZero(b);
  }

  lemma Fq2Zero(y: Fq2)
    ensures AllZero(Fq2ToBytes(y)) ==> y == Fq2(0, 0)
  {
    var b := Fq2ToBytes(y);
    if AllZero(b) {
      hide FqToBytes;
      assert b[..FQ_SIZE] == FqToBytes(y.c1) && b[FQ_SIZE..] == FqToBytes(y.c0);
      FqZero(b[..FQ_SIZE], y.c1);
      FqZero(b[FQ_SIZE..], y.c0);
    }
  }
}
