// gnark's native encodings (tools/convert/src/gnark.rs): what the parsers accept, as functions on
// the bytes still to be read, beside the printer they are the inverse of.
module GnarkFormat {
  import opened Wrappers
  import opened Bytes
  import opened Constants
  import opened Errors
  import opened Points
  import opened Groth16
  import opened Wire

  /** The value of a successful read and the bytes after it. */
  type Read<T> = Result<(T, seq<byte>), ConvertError>

  const FLAG_UNCOMPRESSED := 0
  const FLAG_INFINITY := 1
  const FLAG_LARGEST := 3

  /** The two most significant bits of a byte. */
  function FlagOf(b: byte): int {
    b / 64
  }

  function ClearFlag(raw: seq<byte>): (b: seq<byte>)
    requires |raw| > 0
    ensures |b| == |raw|
  {
    [raw[0] % 64] + raw[1..]
  }

  function SetFlag(b: seq<byte>, flag: int): (raw: seq<byte>)
    requires |b| > 0 && b[0] < 64 && 0 <= flag < 4
    ensures |raw| == |b|
  {
    [b[0] + 64 * flag] + b[1..]
  }

  // --- The root choice ---

  /** gnark's rule: `y` is the larger of the two roots. */
  predicate IsLargest(y: Fq) {
    y > (FQ - 1) / 2
  }

  predicate IsLargest2(y: Fq2) {
    if y.c1 == 0 then IsLargest(y.c0) else IsLargest(y.c1)
  }

  predicate Less2(a: Fq2, b: Fq2) {
    a.c1 < b.c1 || (a.c1 == b.c1 && a.c0 < b.c0)
  }

  /** arkworks' `get_point_from_x_unchecked`: the two roots in order, one of them chosen. */
  function PointFromX1(c: Curve, x: Fq, greatest: bool): Option<G1> {
    match c.root1(x)
    case None => None
    case Some(y) =>
      var (lo, hi) := if y < NegFq(y) then (y, NegFq(y)) else (NegFq(y), y);
      Some(P1(x, if greatest then hi else lo))
  }

  function PointFromX2(c: Curve, x: Fq2, greatest: bool): Option<G2> {
    match c.root2(x)
    case None => None
    case Some(y) =>
      var (lo, hi) := if Less2(y, NegFq2(y)) then (y, NegFq2(y)) else (NegFq2(y), y);
      Some(P2(x, if greatest then hi else lo))
  }

  function Decompress1(c: Curve, x: Fq, largest: bool): Result<G1, ConvertError> {
    match PointFromX1(c, x, largest)
    case None => Err(InvalidCurvePoint)
    case Some(p) => if p.O1? then Err(InvalidCurvePoint) else c.CheckedAffine1(p)
  }

  function Decompress2(c: Curve, x: Fq2, largest: bool): Result<G2, ConvertError> {
    match PointFromX2(c, x, largest)
    case None => Err(InvalidCurvePoint)
    case Some(q) => if q.O2? then Err(InvalidCurvePoint) else c.CheckedAffine2(q)
  }

  /** gnark's flag and arkworks' order agree: of a root and its negation exactly one is the larger. */
  lemma RootChoice1(c: Curve, x: Fq, largest: bool)
    requires c.PointLaws()
    ensures c.root1(x).Some? <==> Decompress1(c, x, largest).Ok?
    ensures Decompress1(c, x, largest).Ok? ==>
              var p := Decompress1(c, x, largest).value;
              c.On1(p) && p.P1? && p.x == x && IsLargest(p.y) == largest
    ensures forall y :: c.On1(P1(x, y)) && IsLargest(y) == largest ==> Decompress1(c, x, largest) == Ok(P1(x, y))
    ensures Decompress1(c, x, largest).Err? ==> Decompress1(c, x, largest).error == InvalidCurvePoint
  {
    assert c.Root1At(x);
  }

  lemma RootChoice2(c: Curve, x: Fq2, largest: bool)
    requires c.PointLaws()
    ensures Decompress2(c, x, largest).Ok? ==>
              var q := Decompress2(c, x, largest).value;
              c.On2(q) && q.P2? && q.x == x && IsLargest2(q.y) == largest
    ensures forall y :: c.On2(P2(x, y)) && IsLargest2(y) == largest ==> Decompress2(c, x, largest) == Ok(P2(x, y))
  {
    assert c.Root2At(x);
  }

  // --- Readers ---

  function Take(s: seq<byte>, n: nat): Read<seq<byte>> {
    if n <= |s| then Ok((s[..n], s[n..])) else Err(UnexpectedEof)
  }

  function ReadU32(s: seq<byte>): Read<nat> {
    var (b, rest) :- Take(s, 4);
    Ok((BE(b), rest))
  }

  function ReadFr(s: seq<byte>): Read<Fr> {
    var (b, rest) :- Take(s, FR_SIZE);
    var v :- FrFromBytes(b);
    Ok((v, rest))
  }

  function ExpectZeroAfterFlag(raw: seq<byte>): Result<(), ConvertError>
    requires |raw| > 0
  {
    if raw[0] % 64 != 0 || !AllZero(raw[1..]) then Err(InvalidCurvePoint) else Ok(())
  }

  function ReadG1(c: Curve, s: seq<byte>): Read<G1> {
    if |s| == 0 then Err(UnexpectedEof)
    else
      var flag := FlagOf(s[0]);
      if flag == FLAG_UNCOMPRESSED then
        var (raw, rest) :- Take(s, G1_SIZE);
        var p :- c.G1FromBytes(raw);
        Ok((p, rest))
      else if flag == FLAG_INFINITY then
        var (raw, rest) :- Take(s, FQ_SIZE);
        var _ :- ExpectZeroAfterFlag(raw);
        Ok((O1, rest))
      else
        var (raw, rest) :- Take(s, FQ_SIZE);
        var x :- FqFromBytes(ClearFlag(raw));
        var p :- Decompress1(c, x, flag == FLAG_LARGEST);
        Ok((p, rest))
  }

  function ReadG2(c: Curve, s: seq<byte>): Read<G2> {
    if |s| == 0 then Err(UnexpectedEof)
    else
      var flag := FlagOf(s[0]);
      if flag == FLAG_UNCOMPRESSED then
        var (raw, rest) :- Take(s, G2_SIZE);
        var q :- c.G2FromBytes(raw);
        Ok((q, rest))
      else if flag == FLAG_INFINITY then
        var (raw, rest) :- Take(s, 2 * FQ_SIZE);
        var _ :- ExpectZeroAfterFlag(raw);
        Ok((O2, rest))
      else
        var (raw, rest) :- Take(s, 2 * FQ_SIZE);
        var x :- Fq2FromBytes(ClearFlag(raw));
        var q :- Decompress2(c, x, flag == FLAG_LARGEST);
        Ok((q, rest))
  }

  // --- Printers ---

  /** `WriteRawTo` or `WriteTo`, chosen point by point; the flag is 2 for the smaller root and 3 for the larger. */
  datatype Form = Raw | Compressed

  lemma TopBitsClear(x: Fq)
    ensures FqToBytes(x)[0] < 64
  {
    var b := FqToBytes(x);
    FieldBounds();
    BEToBE(x, FQ_SIZE);
    BEHead(b);
    Pow256Values();
    Pow256Last();
  }

  lemma Pow256Last()
    ensures Pow256(32) == 256 * Pow256(31) && FQ < 64 * Pow256(31)
  {
    Pow256Values();
  }

  function PutG1(p: G1, form: Form): seq<byte> {
    if form == Raw then G1ToBytes(p)
    else if p.O1? then [64] + Zeros(FQ_SIZE - 1)
    else
      TopBitsClear(p.x);
      SetFlag(FqToBytes(p.x), if IsLargest(p.y) then 3 else 2)
  }

  function PutG2(q: G2, form: Form): seq<byte> {
    if form == Raw then G2ToBytes(q)
    else if q.O2? then [64] + Zeros(2 * FQ_SIZE - 1)
    else
      TopBitsClear(q.x.c1);
      SetFlag(Fq2ToBytes(q.x), if IsLargest2(q.y) then 3 else 2)
  }

  /** How the point at the front of `s` is written. */
  function FormOf(s: seq<byte>): Form {
    if |s| > 0 && s[0] >= 64 then Compressed else Raw
  }

  // --- One element: reading inverts printing, and only printings are read ---

  lemma FlagRoundTrip(b: seq<byte>, flag: int, t: seq<byte>)
    requires |b| > 0 && b[0] < 64 && 0 <= flag < 4
    ensures FlagOf((SetFlag(b, flag) + t)[0]) == flag && ClearFlag(SetFlag(b, flag)) == b
  {
  }

  lemma FlagSplit(raw: seq<byte>)
    requires |raw| > 0
    ensures ClearFlag(raw)[0] < 64 && SetFlag(ClearFlag(raw), FlagOf(raw[0])) == raw
  {
  }

  lemma TakeFront(a: seq<byte>, t: seq<byte>)
    ensures Take(a + t, |a|) == Ok((a, t))
  {
  }

  lemma TakeSplits(s: seq<byte>, n: nat)
    requires Take(s, n).Ok?
    ensures s == Take(s, n).value.0 + Take(s, n).value.1 && |Take(s, n).value.0| == n
    ensures n > 0 ==> s[0] == Take(s, n).value.0[0]
  {
  }

  lemma ReadPutG1(c: Curve, p: G1, form: Form, t: seq<byte>)
    requires c.PointLaws() && c.On1(p)
    ensures ReadG1(c, PutG1(p, form) + t) == Ok((p, t))
  {
    var b := PutG1(p, form);
    TakeFront(b, t);
    assert (b + t)[0] == b[0];
    match form
    case Raw =>
      RawFlag1(p);
      c.G1EncodeDecode(p);
      hide Curve.G1FromBytes, Curve.On1, G1ToBytes;
    case Compressed =>
      if p.P1? {
        hide Curve.On1, FqToBytes, FqFromBytes;
        TopBitsClear(p.x);
        FlagRoundTrip(FqToBytes(p.x), if IsLargest(p.y) then 3 else 2, t);
        FqEncodeDecode(p.x);
        RootChoice1(c, p.x, IsLargest(p.y));
      }
  }

  lemma RawFlag1(p: G1)
    ensures FlagOf(G1ToBytes(p)[0]) == FLAG_UNCOMPRESSED
  {
    if p.P1? {
      TopBitsClear(p.x);
    }
  }

  lemma RawFlag2(q: G2)
    ensures FlagOf(G2ToBytes(q)[0]) == FLAG_UNCOMPRESSED
  {
    if q.P2? {
      TopBitsClear(q.x.c1);
    }
  }

  lemma ReadPutG2(c: Curve, q: G2, form: Form, t: seq<byte>)
    requires c.PointLaws() && c.On2(q)
    ensures ReadG2(c, PutG2(q, form) + t) == Ok((q, t))
  {
    var b := PutG2(q, form);
    TakeFront(b, t);
    assert (b + t)[0] == b[0];
    match form
    case Raw =>
      RawFlag2(q);
      c.G2EncodeDecode(q);
      hide Curve.G2FromBytes, Curve.On2, G2ToBytes;
    case Compressed =>
      if q.P2? {
        hide Curve.On2, Fq2FromBytes;
        TopBitsClear(q.x.c1);
        FlagRoundTrip(Fq2ToBytes(q.x), if IsLargest2(q.y) then 3 else 2, t);
        Fq2EncodeDecode(q.x);
        RootChoice2(c, q.x, IsLargest2(q.y));
      }
  }

  lemma ReadG1Is(c: Curve, s: seq<byte>)
    requires c.PointLaws() && ReadG1(c, s).Ok?
    ensures
      var (p, rest) := ReadG1(c, s).value;
      c.On1(p) && s == PutG1(p, FormOf(s)) + rest
  {
    var (p, rest) := ReadG1(c, s).value;
    var flag := FlagOf(s[0]);
    if flag == FLAG_UNCOMPRESSED {
      TakeSplits(s, G1_SIZE);
      c.G1DecodeEncode(s[..G1_SIZE]);
    } else {
      TakeSplits(s, FQ_SIZE);
      var raw := s[..FQ_SIZE];
      if flag == FLAG_INFINITY {
        AllZeroIsZeros(raw[1..]);
        assert raw == [raw[0]] + raw[1..];
      } else {
        hide Curve.On1;
        FlagSplit(raw);
        FqRoundTrip(ClearFlag(raw));
        RootChoice1(c, FqFromBytes(ClearFlag(raw)).value, flag == FLAG_LARGEST);
      }
    }
  }

  lemma ReadG2Is(c: Curve, s: seq<byte>)
    requires c.PointLaws() && ReadG2(c, s).Ok?
    ensures
      var (q, rest) := ReadG2(c, s).value;
      c.On2(q) && s == PutG2(q, FormOf(s)) + rest
  {
    var (q, rest) := ReadG2(c, s).value;
    var flag := FlagOf(s[0]);
    if flag == FLAG_UNCOMPRESSED {
      TakeSplits(s, G2_SIZE);
      c.G2DecodeEncode(s[..G2_SIZE]);
    } else {
      TakeSplits(s, 2 * FQ_SIZE);
      var raw := s[..2 * FQ_SIZE];
      if flag == FLAG_INFINITY {
        AllZeroIsZeros(raw[1..]);
        assert raw == [raw[0]] + raw[1..];
      } else {
        hide Curve.On2;
        FlagSplit(raw);
        Fq2DecodeEncode(ClearFlag(raw));
        RootChoice2(c, Fq2FromBytes(ClearFlag(raw)).value, flag == FLAG_LARGEST);
      }
    }
  }

  lemma ReadPutU32(v: nat, t: seq<byte>)
    requires v < 0x1_0000_0000
    ensures ReadU32(ToBE(v, 4) + t) == Ok((v, t))
  {
    Pow256Values();
    TakeFront(ToBE(v, 4), t);
    BEToBE(v, 4);
  }

  lemma ReadU32Is(s: seq<byte>)
    requires ReadU32(s).Ok?
    ensures
      var (v, rest) := ReadU32(s).value;
      v < 0x1_0000_0000 && s == ToBE(v, 4) + rest
  {
    Pow256Values();
    TakeSplits(s, 4);
    ToBEBE(s[..4]);
    BEBound(s[..4]);
  }

  // --- The flag bytes themselves, named by no constant ---

  /** The root a first byte asks for: from 192 on the one above half the modulus. */
  predicate Asked1(first: byte, y: Fq) {
    first >= 192 <==> y > (FQ - 1) / 2
  }

  /** For the extension field the second coefficient decides, and the first where that is zero. */
  predicate Asked2(first: byte, y: Fq2) {
    first >= 192 <==> (if y.c1 == 0 then y.c0 else y.c1) > (FQ - 1) / 2
  }

  /** Below 64 a raw point, below 128 the identity alone. */
  lemma UnsignedFlags(c: Curve, s: seq<byte>)
    ensures |s| == 0 ==> ReadG1(c, s) == Err(UnexpectedEof) && ReadG2(c, s) == Err(UnexpectedEof)
    ensures |s| > 0 && s[0] < 64 ==>
              ReadG1(c, s) ==
              if |s| < 64 then Err(UnexpectedEof)
              else match c.G1FromBytes(s[..64])
                   case Ok(p) => Ok((p, s[64..]))
                   case Err(e) => Err(e)
    ensures |s| > 0 && s[0] < 64 ==>
              ReadG2(c, s) ==
              if |s| < 128 then Err(UnexpectedEof)
              else match c.G2FromBytes(s[..128])
                   case Ok(q) => Ok((q, s[128..]))
                   case Err(e) => Err(e)
    ensures |s| > 0 && 64 <= s[0] < 128 ==>
              ReadG1(c, s) ==
              if |s| < 32 then Err(UnexpectedEof)
              else if s[0] == 64 && AllZero(s[1..32]) then Ok((O1, s[32..])) else Err(InvalidCurvePoint)
    ensures |s| > 0 && 64 <= s[0] < 128 ==>
              ReadG2(c, s) ==
              if |s| < 64 then Err(UnexpectedEof)
              else if s[0] == 64 && AllZero(s[1..64]) then Ok((O2, s[64..])) else Err(InvalidCurvePoint)
  {
    hide Curve.G1FromBytes, Curve.G2FromBytes;
    if |s| >= 64 {
      assert s[..64][1..] == s[1..64];
    }
    if |s| >= 32 {
      assert s[..32][1..] == s[1..32];
    }
  }

  /**
   * From 128 on a compressed G1 point: `x` is the other 254 bits, and the point is the one on the
   * curve whose `y` is at most half the modulus below 192 and above half from 192 on.
   */
  lemma SignedFlags1(c: Curve, s: seq<byte>)
    requires c.PointLaws() && |s| > 0 && s[0] >= 128
    ensures |s| < 32 ==> ReadG1(c, s) == Err(UnexpectedEof)
    ensures |s| >= 32 ==>
              var x := BE([s[0] % 64] + s[1..32]);
              && (x >= FQ ==> ReadG1(c, s) == Err(NonCanonicalField))
              && (x < FQ && ReadG1(c, s).Err? ==> ReadG1(c, s) == Err(InvalidCurvePoint))
              && (ReadG1(c, s).Ok? ==>
                    var (p, rest) := ReadG1(c, s).value;
                    rest == s[32..] && p.P1? && p.x == x && c.On1(p) && Asked1(s[0], p.y))
              && (x < FQ ==> forall y :: c.On1(P1(x, y)) && Asked1(s[0], y) ==> ReadG1(c, s) == Ok((P1(x, y), s[32..])))
  {
    if |s| >= 32 {
      var b := [s[0] % 64] + s[1..32];
      assert ClearFlag(s[..32]) == b by {
        assert s[..32][1..] == s[1..32];
      }
      FqRoundTrip(b);
      if BE(b) < FQ {
        RootChoice1(c, BE(b), s[0] >= 192);
      }
      hide Decompress1, FqFromBytes, FqToBytes, BE, Curve.On1, ClearFlag;
    }
  }

  /** The same for G2. */
  lemma SignedFlags2(c: Curve, s: seq<byte>)
    requires c.PointLaws() && |s| > 0 && s[0] >= 128
    ensures |s| < 64 ==> ReadG2(c, s) == Err(UnexpectedEof)
    ensures |s| >= 64 ==>
              var x1, x0 := BE([s[0] % 64] + s[1..32]), BE(s[32..64]);
              && (x1 >= FQ || x0 >= FQ ==> ReadG2(c, s) == Err(NonCanonicalField))
              && (x1 < FQ && x0 < FQ && ReadG2(c, s).Err? ==> ReadG2(c, s) == Err(InvalidCurvePoint))
              && (ReadG2(c, s).Ok? ==>
                    var (q, rest) := ReadG2(c, s).value;
                    rest == s[64..] && q.P2? && q.x.c0 == x0 && q.x.c1 == x1 && c.On2(q) && Asked2(s[0], q.y))
              && (x1 < FQ && x0 < FQ ==>
                    forall y :: c.On2(P2(Fq2(x0, x1), y)) && Asked2(s[0], y) ==>
                      ReadG2(c, s) == Ok((P2(Fq2(x0, x1), y), s[64..])))
  {
    if |s| >= 64 {
      var b := ClearFlag(s[..64]);
      assert b[..FQ_SIZE] == [s[0] % 64] + s[1..32] && b[FQ_SIZE..] == s[32..64];
      FqRoundTrip(b[..FQ_SIZE]);
      FqRoundTrip(b[FQ_SIZE..]);
      if BE(b[..FQ_SIZE]) < FQ && BE(b[FQ_SIZE..]) < FQ {
        RootChoice2(c, Fq2(BE(b[FQ_SIZE..]), BE(b[..FQ_SIZE])), s[0] >= 192);
        RootErrors2(c, Fq2(BE(b[FQ_SIZE..]), BE(b[..FQ_SIZE])), s[0] >= 192);
      }
      hide Decompress2, FqFromBytes, FqToBytes, BE, Curve.On2, ClearFlag;
    }
  }

  lemma RootErrors2(c: Curve, x: Fq2, largest: bool)
    ensures Decompress2(c, x, largest).Err? ==> Decompress2(c, x, largest).error == InvalidCurvePoint
  {
  }

  /** What the two forms of a point look like. */
  lemma PrintedFlags1(p: G1)
    ensures PutG1(p, Raw) == G1ToBytes(p) && |PutG1(p, Raw)| == 64 && PutG1(p, Raw)[0] < 64
    ensures p.O1? ==> PutG1(p, Compressed) == [64] + Zeros(31)
    ensures p.P1? ==>
              var b := PutG1(p, Compressed);
              |b| == 32 && b[0] >= 128 && Asked1(b[0], p.y) && [b[0] % 64] + b[1..] == FqToBytes(p.x)
  {
    RawFlag1(p);
    if p.P1? {
      TopBitsClear(p.x);
    }
    hide FqToBytes, G1ToBytes;
  }

  lemma PrintedFlags2(q: G2)
    ensures PutG2(q, Raw) == G2ToBytes(q) && |PutG2(q, Raw)| == 128 && PutG2(q, Raw)[0] < 64
    ensures q.O2? ==> PutG2(q, Compressed) == [64] + Zeros(63)
    ensures q.P2? ==>
              var b := PutG2(q, Compressed);
              |b| == 64 && b[0] >= 128 && Asked2(b[0], q.y) && [b[0] % 64] + b[1..] == FqToBytes(q.x.c1) + FqToBytes(q.x.c0)
  {
    RawFlag2(q);
    if q.P2? {
      TopBitsClear(q.x.c1);
    }
    hide FqToBytes, G2ToBytes;
  }

  /** A length prefix is four bytes, most significant first. */
  lemma LengthPrefix(s: seq<byte>)
    ensures |s| < 4 ==> ReadU32(s) == Err(UnexpectedEof)
    ensures |s| >= 4 ==> ReadU32(s) == Ok((BigEndian4(s[0], s[1], s[2], s[3]), s[4..]))
  {
    if |s| >= 4 {
      var b := s[..4];
      assert b[..3][..2] == s[..2] && s[..2][..1] == s[..1] && s[..1][..0] == [];
      assert BE(s[..1]) == s[0] && BE(s[..2]) == BE(s[..1]) * 256 + s[1];
      assert BE(b[..3]) == BE(s[..2]) * 256 + s[2];
    }
  }

  function BigEndian4(b0: nat, b1: nat, b2: nat, b3: nat): nat {
    0x100_0000 * b0 + 0x1_0000 * b1 + 0x100 * b2 + b3
  }
}
