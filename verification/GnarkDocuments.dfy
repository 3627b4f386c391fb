// gnark's three documents as a whole (tools/convert/src/gnark.rs:52-136): keys, proofs, public
// witnesses. Each parser accepts exactly the printings of its document, and reads them back.
module GnarkDocuments {
  import opened Wrappers
  import opened Bytes
  import opened Constants
  import opened Errors
  import opened Points
  import opened Groth16
  import opened Wire
  import opened GnarkFormat

  // --- The parsers ---

  function ReadIc(c: Curve, count: nat, s: seq<byte>): Read<seq<G1>> {
    if count == 0 then Ok(([], s))
    else
      var (p, s1) :- ReadG1(c, s);
      var (rest, s2) :- ReadIc(c, count - 1, s1);
      Ok(([p] + rest, s2))
  }

  /** Skips `count` inner length prefixes, all of which must be zero. */
  function SkipEmpty(count: nat, s: seq<byte>): Result<seq<byte>, ConvertError> {
    if count == 0 then Ok(s)
    else
      var (inner, s1) :- ReadU32(s);
      if inner != 0 then Err(Unsupported("verifying key uses commitments (PublicAndCommitmentCommitted is non-empty)"))
      else SkipEmpty(count - 1, s1)
  }

  function Finish(s: seq<byte>): Result<(), ConvertError> {
    if |s| == 0 then Ok(()) else Err(TrailingBytes(|s|))
  }

  function ParseVerifyingKey(c: Curve, s: seq<byte>): Result<OnChainKey, ConvertError> {
    var (alpha, s1) :- ReadG1(c, s);
    var (_, s2) :- ReadG1(c, s1);
    var (beta, s3) :- ReadG2(c, s2);
    var (gamma, s4) :- ReadG2(c, s3);
    var (_, s5) :- ReadG1(c, s4);
    var (delta, s6) :- ReadG2(c, s5);
    var (ic, s7) :- ReadTable(c, s6);
    var _ :- ReadNoCommitments(s7);
    NewOutcome(Key(alpha, beta, gamma, delta, ic))
  }

  /** The length-prefixed `K`, bounded before anything is read from it. */
  function ReadTable(c: Curve, s: seq<byte>): Read<seq<G1>> {
    var (len, s1) :- ReadU32(s);
    if |s1| < len * FQ_SIZE then Err(UnexpectedEof)
    else if len > MAX_PUBLIC_INPUTS + 1 then Err(TooManyInputs(len - 1))
    else ReadIc(c, len, s1)
  }

  /** The two commitment sections, which must be empty, and the end of the input. */
  function ReadNoCommitments(s: seq<byte>): Result<(), ConvertError> {
    var (outer, s1) :- ReadU32(s);
    var s2 :- SkipEmpty(outer, s1);
    var (keys, s3) :- ReadU32(s2);
    if keys != 0 then Err(Unsupported("verifying key uses commitments (CommitmentKeys is non-empty)")) else Finish(s3)
  }

  function ParseProof(c: Curve, s: seq<byte>): Result<ProofPoints, ConvertError> {
    var (ar, s1) :- ReadG1(c, s);
    var (bs, s2) :- ReadG2(c, s1);
    var (krs, s3) :- ReadG1(c, s2);
    var (commitments, s4) :- ReadU32(s3);
    if commitments != 0 then Err(Unsupported("proof carries commitments"))
    else
      var (_, s5) :- ReadG1(c, s4);
      var _ :- Finish(s5);
      Ok(ProofPoints(ar, bs, krs))
  }

  function ReadScalars(count: nat, s: seq<byte>): Read<seq<Fr>> {
    if count == 0 then Ok(([], s))
    else
      var (v, s1) :- ReadFr(s);
      var (rest, s2) :- ReadScalars(count - 1, s1);
      Ok(([v] + rest, s2))
  }

  function ParsePublicWitness(s: seq<byte>): Result<seq<Fr>, ConvertError> {
    var (nbPublic, s1) :- ReadU32(s);
    var (nbSecret, s2) :- ReadU32(s1);
    if nbSecret != 0 then Err(Unsupported("witness contains secret inputs; pass the public witness"))
    else
      var (len, s3) :- ReadU32(s2);
      if len != nbPublic then Err(Unsupported("witness vector length disagrees with nbPublic"))
      else if |s3| < len * FR_SIZE then Err(UnexpectedEof)
      else
        var (out, s4) :- ReadScalars(len, s3);
        var _ :- Finish(s4);
        Ok(out)
  }

  // --- The printers ---

  /** A gnark verifying key: two G1 duplicates the converter drops, and a count of empty slices. */
  datatype GnarkKey = GnarkKey(key: Key, beta1: G1, delta1: G1, emptySlices: nat)

  datatype KeyForms = KeyForms(alpha: Form, beta1: Form, beta2: Form, gamma: Form, delta1: Form, delta2: Form, ic: seq<Form>)

  ghost predicate Printable(c: Curve, g: GnarkKey, f: KeyForms) {
    && KeyOnCurve(c, g.key) && c.On1(g.beta1) && c.On1(g.delta1)
    && |g.key.ic| == |f.ic| <= MAX_PUBLIC_INPUTS + 1 && g.emptySlices < 0x1_0000_0000
  }

  function PutIc(ic: seq<G1>, forms: seq<Form>): seq<byte>
    requires |ic| == |forms|
  {
    if |ic| == 0 then [] else PutG1(ic[0], forms[0]) + PutIc(ic[1..], forms[1..])
  }

  function PutNoCommitments(emptySlices: nat): seq<byte> {
    ToBE(emptySlices, 4) + (Zeros(4 * emptySlices) + ToBE(0, 4))
  }

  function PutKey(g: GnarkKey, f: KeyForms): seq<byte>
    requires |g.key.ic| == |f.ic|
  {
    PutG1(g.key.alpha, f.alpha) + (PutG1(g.beta1, f.beta1) + (PutG2(g.key.beta, f.beta2) + (PutG2(g.key.gamma, f.gamma)
    + (PutG1(g.delta1, f.delta1) + (PutG2(g.key.delta, f.delta2)
    + (ToBE(|g.key.ic|, 4) + (PutIc(g.key.ic, f.ic) + PutNoCommitments(g.emptySlices))))))))
  }

  datatype ProofForms = ProofForms(ar: Form, bs: Form, krs: Form, pok: Form)

  function PutProof(p: ProofPoints, pok: G1, f: ProofForms): seq<byte> {
    PutG1(p.a, f.ar) + (PutG2(p.b, f.bs) + (PutG1(p.c, f.krs) + (ToBE(0, 4) + PutG1(pok, f.pok))))
  }

  function PutScalars(s: seq<Fr>): (b: seq<byte>)
    ensures |b| == FR_SIZE * |s|
  {
    if |s| == 0 then [] else FrToBytes(s[0]) + PutScalars(s[1..])
  }

  function PutWitness(s: seq<Fr>): seq<byte> {
    ToBE(|s|, 4) + (ToBE(0, 4) + (ToBE(|s|, 4) + PutScalars(s)))
  }

  // --- Sections ---

  lemma {:induction false} ReadPutIc(c: Curve, ic: seq<G1>, forms: seq<Form>, t: seq<byte>)
    requires c.PointLaws() && |ic| == |forms| && OnCurves(c, ic)
    ensures ReadIc(c, |ic|, PutIc(ic, forms) + t) == Ok((ic, t))
    ensures |PutIc(ic, forms)| >= |ic| * FQ_SIZE
  {
    hide ReadG1, PutG1, Curve.On1;
    if |ic| > 0 {
      var head, tail := PutG1(ic[0], forms[0]), PutIc(ic[1..], forms[1..]);
      assert c.On1(ic[0]);
      ReadPutG1(c, ic[0], forms[0], tail + t);
      PutG1Length(ic[0], forms[0]);
      ReadPutIc(c, ic[1..], forms[1..], t);
      assert head + tail + t == head + (tail + t);
      assert [ic[0]] + ic[1..] == ic;
    } else {
      assert PutIc(ic, forms) + t == t && ic == [];
    }
  }

  lemma PutG1Length(p: G1, form: Form)
    ensures |PutG1(p, form)| >= FQ_SIZE
  {
  }

  lemma {:induction false} ReadIcIs(c: Curve, count: nat, s: seq<byte>) returns (forms: seq<Form>)
    requires c.PointLaws() && ReadIc(c, count, s).Ok?
    ensures
      var (ic, rest) := ReadIc(c, count, s).value;
      |ic| == |forms| == count && OnCurves(c, ic) && s == PutIc(ic, forms) + rest
  {
    hide ReadG1, PutG1, Curve.On1;
    if count == 0 {
      forms := [];
    } else {
      var (p, s1) := ReadG1(c, s).value;
      ReadG1Is(c, s);
      var tail := ReadIcIs(c, count - 1, s1);
      var (rest, s2) := ReadIc(c, count - 1, s1).value;
      forms := [FormOf(s)] + tail;
      assert ([p] + rest)[1..] == rest && forms[1..] == tail;
      assert PutG1(p, forms[0]) + (PutIc(rest, tail) + s2) == PutG1(p, forms[0]) + PutIc(rest, tail) + s2;
    }
  }

  lemma {:induction false} SkipZeros(count: nat, t: seq<byte>)
    ensures SkipEmpty(count, Zeros(4 * count) + t) == Ok(t)
  {
    if count == 0 {
      assert Zeros(0) + t == t;
    } else {
      var tail := Zeros(4 * (count - 1)) + t;
      SkipZeros(count - 1, t);
      ReadPutU32(0, tail);
      ZeroPrefix(count, t);
    }
  }

  lemma {:induction false} SkipEmptyIs(count: nat, s: seq<byte>)
    requires SkipEmpty(count, s).Ok?
    ensures s == Zeros(4 * count) + SkipEmpty(count, s).value
  {
    if count > 0 {
      hide ReadU32, ToBE;
      var (_, s1) := ReadU32(s).value;
      ReadU32Is(s);
      SkipEmptyIs(count - 1, s1);
      ZeroPrefix(count, SkipEmpty(count - 1, s1).value);
    } else {
      assert Zeros(0) + s == s;
    }
  }

  lemma ZeroPrefix(count: nat, t: seq<byte>)
    requires count > 0
    ensures ToBE(0, 4) + (Zeros(4 * (count - 1)) + t) == Zeros(4 * count) + t
  {
    assert ToBE(0, 4) == Zeros(4);
  }

  lemma ReadPutNoCommitments(emptySlices: nat)
    requires emptySlices < 0x1_0000_0000
    ensures ReadNoCommitments(PutNoCommitments(emptySlices)) == Ok(())
  {
    hide ReadU32, SkipEmpty, ToBE;
    ReadPutU32(emptySlices, Zeros(4 * emptySlices) + ToBE(0, 4));
    SkipZeros(emptySlices, ToBE(0, 4));
    ReadPutU32(0, []);
    assert ToBE(0, 4) + [] == ToBE(0, 4);
  }

  lemma ReadNoCommitmentsIs(s: seq<byte>) returns (emptySlices: nat)
    requires ReadNoCommitments(s).Ok?
    ensures emptySlices < 0x1_0000_0000 && s == PutNoCommitments(emptySlices)
  {
    hide ReadU32, SkipEmpty, ToBE;
    var (outer, s1) := ReadU32(s).value;
    ReadU32Is(s);
    SkipEmptyIs(outer, s1);
    var s2 := SkipEmpty(outer, s1).value;
    ReadU32Is(s2);
    assert ToBE(0, 4) + [] == ToBE(0, 4);
    emptySlices := outer;
  }

  lemma ReadPutTable(c: Curve, ic: seq<G1>, forms: seq<Form>, t: seq<byte>)
    requires c.PointLaws() && |ic| == |forms| <= MAX_PUBLIC_INPUTS + 1 && OnCurves(c, ic)
    ensures ReadTable(c, ToBE(|ic|, 4) + (PutIc(ic, forms) + t)) == Ok((ic, t))
  {
    hide ReadU32, ReadIc, PutIc, ToBE, Curve.On1;
    ReadPutU32(|ic|, PutIc(ic, forms) + t);
    ReadPutIc(c, ic, forms, t);
  }

  lemma ReadTableIs(c: Curve, s: seq<byte>) returns (forms: seq<Form>)
    requires c.PointLaws() && ReadTable(c, s).Ok?
    ensures
      var (ic, rest) := ReadTable(c, s).value;
      && |ic| == |forms| <= MAX_PUBLIC_INPUTS + 1 && OnCurves(c, ic)
      && s == ToBE(|ic|, 4) + (PutIc(ic, forms) + rest)
  {
    hide ReadU32, ReadIc, PutIc, ToBE, Curve.On1;
    var (len, s1) := ReadU32(s).value;
    ReadU32Is(s);
    forms := ReadIcIs(c, len, s1);
  }

  // --- Verifying keys ---

  /** Every printing of a key, with any choice of form at every point, parses to the same on-chain key. */
  lemma KeyRoundTrip(c: Curve, g: GnarkKey, f: KeyForms)
    requires c.PointLaws() && Printable(c, g, f)
    ensures ParseVerifyingKey(c, PutKey(g, f)) == Ok(OnChainKey(KeyBody(g.key), |g.key.ic| - 1))
  {
    hide ReadG1, ReadG2, ReadTable, ReadNoCommitments, PutG1, PutG2, PutIc, PutNoCommitments, ToBE, KeyBody, Curve.On1, Curve.On2;
    var k := g.key;
    var t7 := PutNoCommitments(g.emptySlices);
    var t6 := ToBE(|k.ic|, 4) + (PutIc(k.ic, f.ic) + t7);
    var t5 := PutG2(k.delta, f.delta2) + t6;
    var t4 := PutG1(g.delta1, f.delta1) + t5;
    var t3 := PutG2(k.gamma, f.gamma) + t4;
    var t2 := PutG2(k.beta, f.beta2) + t3;
    var t1 := PutG1(g.beta1, f.beta1) + t2;
    ReadPutG1(c, k.alpha, f.alpha, t1);
    ReadPutG1(c, g.beta1, f.beta1, t2);
    ReadPutG2(c, k.beta, f.beta2, t3);
    ReadPutG2(c, k.gamma, f.gamma, t4);
    ReadPutG1(c, g.delta1, f.delta1, t5);
    ReadPutG2(c, k.delta, f.delta2, t6);
    ReadPutTable(c, k.ic, f.ic, t7);
    ReadPutNoCommitments(g.emptySlices);
  }

  /** Every accepted input is the printing of a key whose points are on their curves. */
  lemma KeyConverse(c: Curve, s: seq<byte>) returns (g: GnarkKey, f: KeyForms)
    requires c.PointLaws() && ParseVerifyingKey(c, s).Ok?
    ensures Printable(c, g, f) && s == PutKey(g, f)
    ensures ParseVerifyingKey(c, s).value == OnChainKey(KeyBody(g.key), |g.key.ic| - 1)
  {
    hide ReadG1, ReadG2, ReadTable, ReadNoCommitments, PutG1, PutG2, PutIc, PutNoCommitments, ToBE, KeyBody, Curve.On1, Curve.On2;
    var (alpha, s1) := ReadG1(c, s).value;
    var (beta1, s2) := ReadG1(c, s1).value;
    var (beta, s3) := ReadG2(c, s2).value;
    var (gamma, s4) := ReadG2(c, s3).value;
    var (delta1, s5) := ReadG1(c, s4).value;
    var (delta, s6) := ReadG2(c, s5).value;
    var (ic, s7) := ReadTable(c, s6).value;
    ReadG1Is(c, s);
    ReadG1Is(c, s1);
    ReadG2Is(c, s2);
    ReadG2Is(c, s3);
    ReadG1Is(c, s4);
    ReadG2Is(c, s5);
    var icForms := ReadTableIs(c, s6);
    var empty := ReadNoCommitmentsIs(s7);
    g := GnarkKey(Key(alpha, beta, gamma, delta, ic), beta1, delta1, empty);
    f := KeyForms(FormOf(s), FormOf(s1), FormOf(s2), FormOf(s3), FormOf(s4), FormOf(s5), icForms);
  }

  // --- Proofs ---

  lemma ProofRoundTrip(c: Curve, p: ProofPoints, pok: G1, f: ProofForms)
    requires c.PointLaws() && ProofOnCurve(c, p) && c.On1(pok)
    ensures ParseProof(c, PutProof(p, pok, f)) == Ok(p)
  {
    hide ReadG1, ReadG2, ReadU32, PutG1, PutG2, ToBE, Curve.On1, Curve.On2;
    var t4 := PutG1(pok, f.pok);
    var t3 := ToBE(0, 4) + t4;
    var t2 := PutG1(p.c, f.krs) + t3;
    ReadPutG1(c, p.a, f.ar, PutG2(p.b, f.bs) + t2);
    ReadPutG2(c, p.b, f.bs, t2);
    ReadPutG1(c, p.c, f.krs, t3);
    ReadPutU32(0, t4);
    ReadPutG1(c, pok, f.pok, []);
    assert t4 + [] == t4;
  }

  lemma ProofConverse(c: Curve, s: seq<byte>) returns (pok: G1, f: ProofForms)
    requires c.PointLaws() && ParseProof(c, s).Ok?
    ensures ProofOnCurve(c, ParseProof(c, s).value) && c.On1(pok) && s == PutProof(ParseProof(c, s).value, pok, f)
  {
    hide ReadG1, ReadG2, ReadU32, PutG1, PutG2, ToBE, Curve.On1, Curve.On2;
    var (ar, s1) := ReadG1(c, s).value;
    var (bs, s2) := ReadG2(c, s1).value;
    var (krs, s3) := ReadG1(c, s2).value;
    var (_, s4) := ReadU32(s3).value;
    var (last, s5) := ReadG1(c, s4).value;
    ReadG1Is(c, s);
    ReadG2Is(c, s1);
    ReadG1Is(c, s2);
    ReadU32Is(s3);
    ReadG1Is(c, s4);
    pok, f := last, ProofForms(FormOf(s), FormOf(s1), FormOf(s2), FormOf(s4));
    assert PutG1(pok, f.pok) + [] == PutG1(pok, f.pok);
  }

  // --- Public witnesses ---

  lemma {:induction false} ReadPutScalars(s: seq<Fr>, t: seq<byte>)
    ensures ReadScalars(|s|, PutScalars(s) + t) == Ok((s, t))
  {
    hide FrToBytes, FrFromBytes;
    if |s| > 0 {
      var head, tail := FrToBytes(s[0]), PutScalars(s[1..]);
      TakeFront(head, tail + t);
      FrEncodeDecode(s[0]);
      ReadPutScalars(s[1..], t);
      assert head + tail + t == head + (tail + t);
      assert [s[0]] + s[1..] == s;
    } else {
      assert PutScalars(s) + t == t && s == [];
    }
  }

  lemma {:induction false} ReadScalarsIs(count: nat, s: seq<byte>)
    requires ReadScalars(count, s).Ok?
    ensures
      var (v, rest) := ReadScalars(count, s).value;
      |v| == count && s == PutScalars(v) + rest
  {
    hide FrToBytes, FrFromBytes;
    if count > 0 {
      var (v, s1) := ReadFr(s).value;
      TakeSplits(s, FR_SIZE);
      FrRoundTrip(s[..FR_SIZE]);
      ReadScalarsIs(count - 1, s1);
      var (rest, s2) := ReadScalars(count - 1, s1).value;
      assert ([v] + rest)[1..] == rest;
      assert FrToBytes(v) + (PutScalars(rest) + s2) == FrToBytes(v) + PutScalars(rest) + s2;
    }
  }

  /** A witness is accepted exactly when it is `len`, `0`, `len` and `len` canonical scalars. */
  lemma WitnessRoundTrip(s: seq<Fr>)
    requires |s| < 0x1_0000_0000
    ensures ParsePublicWitness(PutWitness(s)) == Ok(s)
  {
    hide ReadU32, ReadScalars, PutScalars, ToBE;
    var t3 := PutScalars(s);
    var t2 := ToBE(|s|, 4) + t3;
    ReadPutU32(|s|, ToBE(0, 4) + t2);
    ReadPutU32(0, t2);
    ReadPutU32(|s|, t3);
    ReadPutScalars(s, []);
    assert t3 + [] == t3;
  }

  lemma WitnessConverse(bytes: seq<byte>)
    requires ParsePublicWitness(bytes).Ok?
    ensures
      var s := ParsePublicWitness(bytes).value;
      |s| < 0x1_0000_0000 && bytes == PutWitness(s)
  {
    hide ReadU32, ReadScalars, PutScalars, ToBE;
    var (nbPublic, s1) := ReadU32(bytes).value;
    var (nbSecret, s2) := ReadU32(s1).value;
    var (len, s3) := ReadU32(s2).value;
    ReadU32Is(bytes);
    ReadU32Is(s1);
    ReadU32Is(s2);
    ReadScalarsIs(len, s3);
    var s := ParsePublicWitness(bytes).value;
    assert PutScalars(s) + [] == PutScalars(s);
  }

  /** Front-to-back and back-to-front writers of scalars agree. */
  lemma {:induction false} ScalarWritersAgree(s: seq<Fr>)
    ensures PutScalars(s) == InputsFlat(s)
  {
    hide FrToBytes;
    if |s| > 0 {
      ScalarWritersAgree(s[1..]);
      FlatCons(s);
    }
  }

  lemma {:induction false} FlatCons(s: seq<Fr>)
    requires |s| > 0
    ensures InputsFlat(s) == FrToBytes(s[0]) + InputsFlat(s[1..])
  {
    hide FrToBytes;
    var k := |s| - 1;
    if k > 0 {
      FlatCons(s[..k]);
      assert s[..k][1..] == s[1..][..k - 1];
      assert FrToBytes(s[0]) + InputsFlat(s[1..][..k - 1]) + FrToBytes(s[k])
             == FrToBytes(s[0]) + (InputsFlat(s[1..][..k - 1]) + FrToBytes(s[k]));
    } else {
      assert InputsFlat(s[..0]) == [] && InputsFlat(s[1..]) == [];
    }
  }

  /** Re-encoding an accepted witness for `Verify` gives its payload back unchanged. */
  lemma WitnessPayload(bytes: seq<byte>)
    requires ParsePublicWitness(bytes).Ok?
    ensures |bytes| >= 12 && InputsFlat(ParsePublicWitness(bytes).value) == bytes[12..]
  {
    WitnessConverse(bytes);
    var s := ParsePublicWitness(bytes).value;
    ScalarWritersAgree(s);
    hide PutScalars, InputsFlat;
    assert (ToBE(|s|, 4) + (ToBE(0, 4) + (ToBE(|s|, 4) + PutScalars(s))))[12..] == PutScalars(s);
  }

  // --- Nothing may follow ---

  lemma NoCommitmentsThen(emptySlices: nat, t: seq<byte>)
    requires emptySlices < 0x1_0000_0000 && |t| > 0
    ensures ReadNoCommitments(PutNoCommitments(emptySlices) + t) == Err(TrailingBytes(|t|))
  {
    hide ReadU32, SkipEmpty, ToBE;
    var tail := ToBE(0, 4) + t;
    ReadPutU32(emptySlices, Zeros(4 * emptySlices) + tail);
    SkipZeros(emptySlices, tail);
    ReadPutU32(0, t);
    assert PutNoCommitments(emptySlices) + t == ToBE(emptySlices, 4) + (Zeros(4 * emptySlices) + tail);
  }

  /** Bytes after a key, a proof or a witness are counted and refused. */
  lemma KeyTrailing(c: Curve, g: GnarkKey, f: KeyForms, t: seq<byte>)
    requires c.PointLaws() && Printable(c, g, f) && |t| > 0
    ensures ParseVerifyingKey(c, PutKey(g, f) + t) == Err(TrailingBytes(|t|))
  {
    hide ReadG1, ReadG2, ReadTable, ReadNoCommitments, PutG1, PutG2, PutIc, PutNoCommitments, ToBE, KeyBody, Curve.On1, Curve.On2;
    var k := g.key;
    var t7 := PutNoCommitments(g.emptySlices) + t;
    var t6 := ToBE(|k.ic|, 4) + (PutIc(k.ic, f.ic) + t7);
    var t5 := PutG2(k.delta, f.delta2) + t6;
    var t4 := PutG1(g.delta1, f.delta1) + t5;
    var t3 := PutG2(k.gamma, f.gamma) + t4;
    var t2 := PutG2(k.beta, f.beta2) + t3;
    var t1 := PutG1(g.beta1, f.beta1) + t2;
    ReadPutG1(c, k.alpha, f.alpha, t1);
    ReadPutG1(c, g.beta1, f.beta1, t2);
    ReadPutG2(c, k.beta, f.beta2, t3);
    ReadPutG2(c, k.gamma, f.gamma, t4);
    ReadPutG1(c, g.delta1, f.delta1, t5);
    ReadPutG2(c, k.delta, f.delta2, t6);
    ReadPutTable(c, k.ic, f.ic, t7);
    NoCommitmentsThen(g.emptySlices, t);
    assert PutKey(g, f) + t == PutG1(k.alpha, f.alpha) + t1;
  }

  lemma ProofTrailing(c: Curve, p: ProofPoints, pok: G1, f: ProofForms, t: seq<byte>)
    requires c.PointLaws() && ProofOnCurve(c, p) && c.On1(pok) && |t| > 0
    ensures ParseProof(c, PutProof(p, pok, f) + t) == Err(TrailingBytes(|t|))
  {
    hide ReadG1, ReadG2, ReadU32, PutG1, PutG2, ToBE, Curve.On1, Curve.On2;
    var t4 := PutG1(pok, f.pok) + t;
    var t3 := ToBE(0, 4) + t4;
    var t2 := PutG1(p.c, f.krs) + t3;
    ReadPutG1(c, p.a, f.ar, PutG2(p.b, f.bs) + t2);
    ReadPutG2(c, p.b, f.bs, t2);
    ReadPutG1(c, p.c, f.krs, t3);
    ReadPutU32(0, t4);
    ReadPutG1(c, pok, f.pok, t);
    assert PutProof(p, pok, f) + t == PutG1(p.a, f.ar) + (PutG2(p.b, f.bs) + t2);
  }

  lemma WitnessTrailing(s: seq<Fr>, t: seq<byte>)
    requires |s| < 0x1_0000_0000 && |t| > 0
    ensures ParsePublicWitness(PutWitness(s) + t) == Err(TrailingBytes(|t|))
  {
    hide ReadU32, ReadScalars, PutScalars, ToBE;
    var t3 := PutScalars(s) + t;
    var t2 := ToBE(|s|, 4) + t3;
    ReadPutU32(|s|, ToBE(0, 4) + t2);
    ReadPutU32(0, t2);
    ReadPutU32(|s|, t3);
    ReadPutScalars(s, t);
    assert PutWitness(s) + t == ToBE(|s|, 4) + (ToBE(0, 4) + t2);
  }

  // --- Refusals, byte by byte ---

  /** The length of the point table is bounded before a point is read. */
  lemma TableRefusals(c: Curve, s: seq<byte>)
    requires |s| >= 4
    ensures
      var len := BigEndian4(s[0], s[1], s[2], s[3]);
      && (|s| - 4 < 32 * len ==> ReadTable(c, s) == Err(UnexpectedEof))
      && (|s| - 4 >= 32 * len && len > 152 ==> ReadTable(c, s) == Err(TooManyInputs(len - 1)))
  {
    LengthPrefix(s);
    hide ReadU32;
  }

  function Scalar(s: seq<byte>, i: nat): nat
    requires 32 * i + 32 <= |s|
  {
    BE(s[32 * i..32 * i + 32])
  }

  lemma ScalarShift(s: seq<byte>, i: nat)
    requires 32 * i + 64 <= |s|
    ensures Scalar(s[32..], i) == Scalar(s, i + 1)
  {
    assert s[32..][32 * i..32 * i + 32] == s[32 * (i + 1)..32 * (i + 1) + 32];
  }

  /** The first `count` scalars are canonical. */
  predicate AllBelow(s: seq<byte>, count: nat)
    requires 32 * count <= |s|
  {
    forall i :: 0 <= i < count ==> Scalar(s, i) < FR
  }

  lemma AllBelowStep(s: seq<byte>, count: nat)
    requires 0 < count && 32 * count <= |s|
    ensures AllBelow(s, count) <==> Scalar(s, 0) < FR && AllBelow(s[32..], count - 1)
  {
    hide Scalar;
    forall i | 0 < i < count
      ensures Scalar(s[32..], i - 1) == Scalar(s, i)
    {
      ScalarShift(s, i - 1);
    }
    if AllBelow(s, count) {
      forall i | 0 <= i < count - 1
        ensures Scalar(s[32..], i) < FR
      {
        ScalarShift(s, i);
      }
    }
  }

  /** Scalars are read one after the other; one that is not canonical refuses the whole. */
  lemma {:induction false} ScalarAnswers(count: nat, s: seq<byte>)
    requires |s| >= 32 * count
    ensures AllBelow(s, count) <==> ReadScalars(count, s).Ok?
    ensures ReadScalars(count, s).Err? ==> ReadScalars(count, s).error == NonCanonicalField
    ensures ReadScalars(count, s).Ok? ==>
              var (v, rest) := ReadScalars(count, s).value;
              |v| == count && rest == s[32 * count..] && forall i :: 0 <= i < count ==> v[i] == Scalar(s, i)
  {
    hide FrFromBytes, FrToBytes, BE, AllBelow;
    if count > 0 {
      FrRoundTrip(s[..32]);
      ScalarAnswers(count - 1, s[32..]);
      AllBelowStep(s, count);
      assert Scalar(s, 0) == BE(s[..32]);
      hide Scalar;
      forall i | 0 < i < count
        ensures Scalar(s[32..], i - 1) == Scalar(s, i)
      {
        ScalarShift(s, i - 1);
      }
    } else {
      NoneBelow(s);
    }
  }

  lemma NoneBelow(s: seq<byte>)
    ensures AllBelow(s, 0)
  {
  }

  /** A public witness, byte by byte: every input, its answer. */
  lemma WitnessAnswers(s: seq<byte>)
    ensures |s| < 8 ==> ParsePublicWitness(s) == Err(UnexpectedEof)
    ensures |s| >= 8 && BigEndian4(s[4], s[5], s[6], s[7]) != 0 ==>
              ParsePublicWitness(s).Err? && ParsePublicWitness(s).error.Unsupported?
    ensures 8 <= |s| < 12 && BigEndian4(s[4], s[5], s[6], s[7]) == 0 ==> ParsePublicWitness(s) == Err(UnexpectedEof)
    ensures |s| >= 12 && BigEndian4(s[4], s[5], s[6], s[7]) == 0 ==>
              var public, len := BigEndian4(s[0], s[1], s[2], s[3]), BigEndian4(s[8], s[9], s[10], s[11]);
              && (len != public ==> ParsePublicWitness(s).Err? && ParsePublicWitness(s).error.Unsupported?)
              && (len == public && |s| - 12 < 32 * len ==> ParsePublicWitness(s) == Err(UnexpectedEof))
              && (len == public && |s| - 12 >= 32 * len ==>
                    && (!AllBelow(s[12..], len) ==> ParsePublicWitness(s) == Err(NonCanonicalField))
                    && (AllBelow(s[12..], len) && |s| - 12 > 32 * len ==>
                          ParsePublicWitness(s) == Err(TrailingBytes(|s| - 12 - 32 * len)))
                    && (AllBelow(s[12..], len) && |s| - 12 == 32 * len ==>
                          ParsePublicWitness(s).Ok? && |ParsePublicWitness(s).value| == len
                          && forall i :: 0 <= i < len ==> ParsePublicWitness(s).value[i] == Scalar(s[12..], i)))
  {
    hide ReadU32, ReadScalars, Scalar, AllBelow;
    LengthPrefix(s);
    if |s| >= 4 {
      LengthPrefix(s[4..]);
      if |s| >= 8 {
        LengthPrefix(s[4..][4..]);
        if |s| >= 12 {
          assert s[4..][4..][4..] == s[12..];
          var len := BigEndian4(s[8], s[9], s[10], s[11]);
          if |s| - 12 >= 32 * len {
            ScalarAnswers(len, s[12..]);
          }
        }
      }
    }
  }
}
