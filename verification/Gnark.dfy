// The cursor parser itself (tools/convert/src/gnark.rs:52-232): a `Reader` whose position advances,
// and the three document parsers driving it, each equal to its specification on the input bytes.
module Gnark {
  import opened Wrappers
  import opened Bytes
  import opened Constants
  import opened Errors
  import opened Points
  import opened Groth16
  import opened Wire
  import opened KeyLayout
  import Spec = GnarkFormat
  import Doc = GnarkDocuments

  /** A read that answered `r` and left `rest` did what `spec` says. */
  ghost predicate Matches<T>(spec: Spec.Read<T>, r: Result<T, ConvertError>, rest: seq<byte>) {
    match spec
    case Ok(v) => r == Ok(v.0) && rest == v.1
    case Err(e) => r == Err(e)
  }

  class Reader {
    const bytes: seq<byte>
    var pos: nat

    ghost predicate Valid()
      reads this
    {
      pos <= |bytes|
    }

    ghost function Rest(): seq<byte>
      requires Valid()
      reads this
    {
      bytes[pos..]
    }

    constructor (bytes: seq<byte>)
      ensures Valid() && this.bytes == bytes && Rest() == bytes
    {
      this.bytes := bytes;
      pos := 0;
    }

    method Take(n: nat) returns (r: Result<seq<byte>, ConvertError>)
      requires Valid()
      modifies this
      ensures Valid() && Matches(Spec.Take(old(Rest()), n), r, Rest())
    {
      var end := pos + n;
      if end > |bytes| {
        return Err(UnexpectedEof);
      }
      assert bytes[pos..][..n] == bytes[pos..end];
      r := Ok(bytes[pos..end]);
      pos := end;
    }

    method EnsureRemaining(count: nat, minSize: nat) returns (ok: bool)
      requires Valid()
      ensures ok <==> count * minSize <= |Rest()|
    {
      ok := |bytes| - pos >= count * minSize;
    }

    method Peek() returns (r: Result<byte, ConvertError>)
      requires Valid()
      ensures r == if |Rest()| == 0 then Err(UnexpectedEof) else Ok(Rest()[0])
    {
      r := if pos < |bytes| then Ok(bytes[pos]) else Err(UnexpectedEof);
    }

    method Finish() returns (r: Result<(), ConvertError>)
      requires Valid()
      ensures r == Doc.Finish(Rest())
    {
      r := if |bytes| - pos == 0 then Ok(()) else Err(TrailingBytes(|bytes| - pos));
    }

    method U32() returns (r: Result<nat, ConvertError>)
      requires Valid()
      modifies this
      ensures Valid() && Matches(Spec.ReadU32(old(Rest())), r, Rest())
    {
      var raw := Take(4);
      r := if raw.Ok? then Ok(BE(raw.value)) else Err(raw.error);
    }

    method Scalar() returns (r: Result<Fr, ConvertError>)
      requires Valid()
      modifies this
      ensures Valid() && Matches(Spec.ReadFr(old(Rest())), r, Rest())
    {
      var raw := Take(FR_SIZE);
      r := if raw.Ok? then FrFromBytes(raw.value) else Err(raw.error);
    }

    method PointG1(c: Curve) returns (r: Result<G1, ConvertError>)
      requires Valid()
      modifies this
      ensures Valid() && Matches(Spec.ReadG1(c, old(Rest())), r, Rest())
    {
      hide Curve.G1FromBytes, FqFromBytes, Spec.Decompress1;
      var first := Peek();
      if first.Err? {
        return Err(first.error);
      }
      var flag := Spec.FlagOf(first.value);
      if flag == Spec.FLAG_UNCOMPRESSED {
        var raw := Take(G1_SIZE);
        r := if raw.Ok? then c.G1FromBytes(raw.value) else Err(raw.error);
      } else if flag == Spec.FLAG_INFINITY {
        var raw := Take(FQ_SIZE);
        if raw.Err? {
          return Err(raw.error);
        }
        var zero := Spec.ExpectZeroAfterFlag(raw.value);
        r := if zero.Ok? then Ok(O1) else Err(zero.error);
      } else {
        var raw := Take(FQ_SIZE);
        if raw.Err? {
          return Err(raw.error);
        }
        var x := FqFromBytes(Spec.ClearFlag(raw.value));
        r := if x.Ok? then Spec.Decompress1(c, x.value, flag == Spec.FLAG_LARGEST) else Err(x.error);
      }
    }

    method PointG2(c: Curve) returns (r: Result<G2, ConvertError>)
      requires Valid()
      modifies this
      ensures Valid() && Matches(Spec.ReadG2(c, old(Rest())), r, Rest())
    {
      hide Curve.G2FromBytes, Fq2FromBytes, Spec.Decompress2;
      var first := Peek();
      if first.Err? {
        return Err(first.error);
      }
      var flag := Spec.FlagOf(first.value);
      if flag == Spec.FLAG_UNCOMPRESSED {
        var raw := Take(G2_SIZE);
        r := if raw.Ok? then c.G2FromBytes(raw.value) else Err(raw.error);
      } else if flag == Spec.FLAG_INFINITY {
        var raw := Take(2 * FQ_SIZE);
        if raw.Err? {
          return Err(raw.error);
        }
        var zero := Spec.ExpectZeroAfterFlag(raw.value);
        r := if zero.Ok? then Ok(O2) else Err(zero.error);
      } else {
        var raw := Take(2 * FQ_SIZE);
        if raw.Err? {
          return Err(raw.error);
        }
        var x := Fq2FromBytes(Spec.ClearFlag(raw.value));
        r := if x.Ok? then Spec.Decompress2(c, x.value, flag == Spec.FLAG_LARGEST) else Err(x.error);
      }
    }

    /** `count` points pushed one by one. */
    method Points(c: Curve, count: nat) returns (r: Result<seq<G1>, ConvertError>)
      requires Valid()
      modifies this
      ensures Valid() && Matches(Doc.ReadIc(c, count, old(Rest())), r, Rest())
    {
      hide Spec.ReadG1;
      var ic: seq<G1> := [];
      ghost var start := Rest();
      assert forall tail: seq<G1> :: ic + tail == tail;
      for i := 0 to count
        invariant Valid() && |ic| == i
        invariant ContinueIc(c, count - i, ic, Rest()) == Doc.ReadIc(c, count, start)
      {
        var p := PointG1(c);
        if p.Err? {
          return Err(p.error);
        }
        assert forall tail: seq<G1> :: ic + ([p.value] + tail) == ic + [p.value] + tail;
        ic := ic + [p.value];
      }
      assert ic + [] == ic;
      r := Ok(ic);
    }

    /** The commitment index lists: `count` lengths, all zero. */
    method EmptySlices(count: nat) returns (r: Result<(), ConvertError>)
      requires Valid()
      modifies this
      ensures Valid()
      ensures match Doc.SkipEmpty(count, old(Rest()))
              case Ok(rest) => r == Ok(()) && Rest() == rest
              case Err(e) => r == Err(e)
    {
      ghost var start := Rest();
      for i := 0 to count
        invariant Valid() && Doc.SkipEmpty(count - i, Rest()) == Doc.SkipEmpty(count, start)
      {
        var inner := U32();
        if inner.Err? {
          return Err(inner.error);
        }
        if inner.value != 0 {
          return Err(Unsupported("verifying key uses commitments (PublicAndCommitmentCommitted is non-empty)"));
        }
      }
      r := Ok(());
    }

    method ScalarsOf(count: nat) returns (r: Result<seq<Fr>, ConvertError>)
      requires Valid()
      modifies this
      ensures Valid() && Matches(Doc.ReadScalars(count, old(Rest())), r, Rest())
    {
      hide Spec.ReadFr;
      var out: seq<Fr> := [];
      ghost var start := Rest();
      assert forall tail: seq<Fr> :: out + tail == tail;
      for i := 0 to count
        invariant Valid() && |out| == i
        invariant ContinueScalars(count - i, out, Rest()) == Doc.ReadScalars(count, start)
      {
        var v := Scalar();
        if v.Err? {
          return Err(v.error);
        }
        assert forall tail: seq<Fr> :: out + ([v.value] + tail) == out + [v.value] + tail;
        out := out + [v.value];
      }
      assert out + [] == out;
      r := Ok(out);
    }
  }

  /** Reading `count` more points after `sofar`. */
  ghost function ContinueIc(c: Curve, count: nat, sofar: seq<G1>, s: seq<byte>): Spec.Read<seq<G1>> {
    var (rest, t) :- Doc.ReadIc(c, count, s);
    Ok((sofar + rest, t))
  }

  ghost function ContinueScalars(count: nat, sofar: seq<Fr>, s: seq<byte>): Spec.Read<seq<Fr>> {
    var (rest, t) :- Doc.ReadScalars(count, s);
    Ok((sofar + rest, t))
  }

  method ParseVerifyingKey(c: Curve, bytes: seq<byte>) returns (r: Result<OnChainKey, ConvertError>)
    ensures r == Doc.ParseVerifyingKey(c, bytes)
  {
    hide Spec.ReadG1, Spec.ReadG2, Doc.ReadTable, Doc.ReadNoCommitments, NewOutcome, Reader.Rest, Reader.Valid;
    var reader := new Reader(bytes);
    var alpha := reader.PointG1(c);
    if alpha.Err? { return Err(alpha.error); }
    var beta1 := reader.PointG1(c);
    if beta1.Err? { return Err(beta1.error); }
    var beta := reader.PointG2(c);
    if beta.Err? { return Err(beta.error); }
    var gamma := reader.PointG2(c);
    if gamma.Err? { return Err(gamma.error); }
    var delta1 := reader.PointG1(c);
    if delta1.Err? { return Err(delta1.error); }
    var delta := reader.PointG2(c);
    if delta.Err? { return Err(delta.error); }
    var ic := ParseTable(c, reader);
    if ic.Err? { return Err(ic.error); }
    var end := ParseNoCommitments(reader);
    if end.Err? { return Err(end.error); }
    r := New(Key(alpha.value, beta.value, gamma.value, delta.value, ic.value));
  }

  method ParseTable(c: Curve, reader: Reader) returns (r: Result<seq<G1>, ConvertError>)
    requires reader.Valid()
    modifies reader
    ensures reader.Valid() && Matches(Doc.ReadTable(c, old(reader.Rest())), r, reader.Rest())
  {
    hide Spec.ReadU32, Doc.ReadIc;
    var len := reader.U32();
    if len.Err? {
      return Err(len.error);
    }
    var enough := reader.EnsureRemaining(len.value, FQ_SIZE);
    if !enough {
      return Err(UnexpectedEof);
    }
    if len.value > MAX_PUBLIC_INPUTS + 1 {
      return Err(TooManyInputs(len.value - 1));
    }
    r := reader.Points(c, len.value);
  }

  method ParseNoCommitments(reader: Reader) returns (r: Result<(), ConvertError>)
    requires reader.Valid()
    modifies reader
    ensures r == Doc.ReadNoCommitments(old(reader.Rest()))
  {
    hide Spec.ReadU32, Doc.SkipEmpty;
    var outer := reader.U32();
    if outer.Err? {
      return Err(outer.error);
    }
    var slices := reader.EmptySlices(outer.value);
    if slices.Err? {
      return slices;
    }
    var keys := reader.U32();
    if keys.Err? {
      return Err(keys.error);
    }
    if keys.value != 0 {
      return Err(Unsupported("verifying key uses commitments (CommitmentKeys is non-empty)"));
    }
    r := reader.Finish();
  }

  method ParseProof(c: Curve, bytes: seq<byte>) returns (r: Result<Proof, ConvertError>)
    ensures match Doc.ParseProof(c, bytes)
            case Ok(p) => r == Ok(EncodeProof(p))
            case Err(e) => r == Err(e)
  {
    hide Spec.ReadG1, Spec.ReadG2, Spec.ReadU32, EncodeProof, Reader.Rest, Reader.Valid, Doc.Finish;
    var reader := new Reader(bytes);
    var ar := reader.PointG1(c);
    if ar.Err? { return Err(ar.error); }
    var bs := reader.PointG2(c);
    if bs.Err? { return Err(bs.error); }
    var krs := reader.PointG1(c);
    if krs.Err? { return Err(krs.error); }
    var commitments := reader.U32();
    if commitments.Err? { return Err(commitments.error); }
    if commitments.value != 0 {
      return Err(Unsupported("proof carries commitments"));
    }
    var pok := reader.PointG1(c);
    if pok.Err? { return Err(pok.error); }
    var end := reader.Finish();
    if end.Err? { return Err(end.error); }
    var proof := NewProof(ProofPoints(ar.value, bs.value, krs.value));
    r := Ok(proof);
  }

  method ParsePublicWitness(bytes: seq<byte>) returns (r: Result<seq<Fr>, ConvertError>)
    ensures r == Doc.ParsePublicWitness(bytes)
  {
    hide Spec.ReadU32, Doc.ReadScalars, Reader.Rest, Reader.Valid, Doc.Finish;
    var reader := new Reader(bytes);
    var nbPublic := reader.U32();
    if nbPublic.Err? { return Err(nbPublic.error); }
    var nbSecret := reader.U32();
    if nbSecret.Err? { return Err(nbSecret.error); }
    if nbSecret.value != 0 {
      return Err(Unsupported("witness contains secret inputs; pass the public witness"));
    }
    var len := reader.U32();
    if len.Err? { return Err(len.error); }
    if len.value != nbPublic.value {
      return Err(Unsupported("witness vector length disagrees with nbPublic"));
    }
    var enough := reader.EnsureRemaining(len.value, FR_SIZE);
    if !enough {
      return Err(UnexpectedEof);
    }
    var out := reader.ScalarsOf(len.value);
    if out.Err? { return out; }
    var end := reader.Finish();
    if end.Err? { return Err(end.error); }
    r := out;
  }
}
