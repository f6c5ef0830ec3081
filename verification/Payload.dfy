/** The SDK's attestation payload: its encoder, and a decoder driven by the schema layout. */
module Payload {
  import opened Bytes
  import opened Results
  import opened AttestationAccount

  // ---------------------------------------------------------------- schema fields

  const TYPE_U8: byte := 0
  const TYPE_U64: byte := 3
  const TYPE_STRING: byte := 12
  const TYPE_VEC_U8: byte := 13

  const SCHEMA_LAYOUT: seq<byte> := [13, 0, 12, 12, 13, 3]

  datatype Field =
    | U8(small: byte)
    | U64(large: nat)
    | Text(utf8: seq<byte>)
    | VecU8(bytes: seq<byte>)

  function Tag(f: Field): byte
  {
    match f
    case U8(_) => TYPE_U8
    case U64(_) => TYPE_U64
    case Text(_) => TYPE_STRING
    case VecU8(_) => TYPE_VEC_U8
  }

  predicate Fits(f: Field)
  {
    match f
    case U8(_) => true
    case U64(v) => v < TWO64
    case Text(bytes) => |bytes| < TWO32
    case VecU8(bytes) => |bytes| < TWO32
  }

  /** The service's storage rule for one field. */
  function EncodeField(f: Field): seq<byte>
    requires Fits(f)
  {
    match f
    case U8(v) => [v]
    case U64(v) => ToLE(v, 8)
    case Text(bytes) => U32LE(|bytes|) + bytes
    case VecU8(bytes) => U32LE(|bytes|) + bytes
  }

  predicate AllFit(fs: seq<Field>)
  {
    forall i :: 0 <= i < |fs| ==> Fits(fs[i])
  }

  function EncodeFields(fs: seq<Field>): seq<byte>
    requires AllFit(fs)
  {
    if fs == [] then [] else EncodeField(fs[0]) + EncodeFields(fs[1..])
  }

  function Layout(fs: seq<Field>): (tags: seq<byte>)
    ensures |tags| == |fs|
  {
    if fs == [] then [] else [Tag(fs[0])] + Layout(fs[1..])
  }

  function DecodeSized(bs: seq<byte>): Option<(seq<byte>, seq<byte>)>
  {
    if |bs| < 4 || |bs| < 4 + ReadU32(bs[..4]) then None
    else var end := 4 + ReadU32(bs[..4]); Some((bs[4..end], bs[end..]))
  }

  /** One field of the given type from the front of the bytes, and what follows it. */
  function DecodeField(tag: byte, bs: seq<byte>): Option<(Field, seq<byte>)>
  {
    if tag == TYPE_U8 then
      if |bs| < 1 then None else Some((U8(bs[0]), bs[1..]))
    else if tag == TYPE_U64 then
      if |bs| < 8 then None else Some((U64(ReadU64(bs[..8])), bs[8..]))
    else if tag == TYPE_STRING || tag == TYPE_VEC_U8 then
      match DecodeSized(bs)
      case None => None
      case Some((bytes, rest)) => Some((if tag == TYPE_STRING then Text(bytes) else VecU8(bytes), rest))
    else None
  }

  function DecodeFields(layout: seq<byte>, bs: seq<byte>): Option<(seq<Field>, seq<byte>)>
    decreases |layout|, |bs|
  {
    if layout == [] then Some(([], bs))
    else match DecodeField(layout[0], bs)
      case None => None
      case Some((f, rest)) =>
        match DecodeFields(layout[1..], rest)
        case None => None
        case Some((fs, tail)) => Some(([f] + fs, tail))
  }

  lemma SizedRoundTrip(bytes: seq<byte>, tail: seq<byte>)
    requires |bytes| < TWO32
    ensures DecodeSized(U32LE(|bytes|) + bytes + tail) == Some((bytes, tail))
  {
    var bs := U32LE(|bytes|) + bytes + tail;
    U32RoundTrip(|bytes|, Zeros(4));
    assert bs[..4] == U32LE(|bytes|);
    assert bs[4..4 + |bytes|] == bytes && bs[4 + |bytes|..] == tail;
  }

  lemma FieldRoundTrip(f: Field, tail: seq<byte>)
    requires Fits(f)
    ensures DecodeField(Tag(f), EncodeField(f) + tail) == Some((f, tail))
  {
    var bs := EncodeField(f) + tail;
    match f {
      case U8(v) => assert bs[1..] == tail;
      case U64(v) =>
        Pow256Values();
        FromLEInvertsToLE(v, 8);
        assert bs[..8] == ToLE(v, 8) && bs[8..] == tail;
      case Text(bytes) => SizedRoundTrip(bytes, tail);
      case VecU8(bytes) => SizedRoundTrip(bytes, tail);
    }
  }

  lemma DecodeStep(layout: seq<byte>, bs: seq<byte>, f: Field, rest: seq<byte>, fs: seq<Field>, tail: seq<byte>)
    requires layout != [] && DecodeField(layout[0], bs) == Some((f, rest))
    requires DecodeFields(layout[1..], rest) == Some((fs, tail))
    ensures DecodeFields(layout, bs) == Some(([f] + fs, tail))
  {
  }

  lemma LayoutStep(fs: seq<Field>)
    requires fs != []
    ensures Layout(fs)[0] == Tag(fs[0]) && Layout(fs)[1..] == Layout(fs[1..])
  {
  }

  /** One more field in front. */
  lemma ConsField(f: Field, fs: seq<Field>, tail: seq<byte>)
    requires Fits(f) && AllFit(fs)
    ensures AllFit([f] + fs) && Layout([f] + fs) == [Tag(f)] + Layout(fs)
    ensures EncodeFields([f] + fs) + tail == EncodeField(f) + (EncodeFields(fs) + tail)
  {
    assert ([f] + fs)[1..] == fs;
    Associate(EncodeField(f), EncodeFields(fs), tail);
  }

  /** Decoding by a record's own layout undoes encoding, whatever follows. */
  lemma {:induction false} FieldsRoundTrip(fs: seq<Field>, tail: seq<byte>)
    requires AllFit(fs)
    ensures DecodeFields(Layout(fs), EncodeFields(fs) + tail) == Some((fs, tail))
    decreases |fs|
  {
    if fs == [] {
      assert EncodeFields(fs) + tail == tail;
    } else {
      var first, rest := EncodeField(fs[0]), EncodeFields(fs[1..]);
      FieldRoundTrip(fs[0], rest + tail);
      FieldsRoundTrip(fs[1..], tail);
      LayoutStep(fs);
      Associate(first, rest, tail);
      DecodeStep(Layout(fs), first + rest + tail, fs[0], rest + tail, fs[1..], tail);
      HeadAndRest(fs);
    }
  }

  lemma DecodedSized(bs: seq<byte>)
    requires DecodeSized(bs).Some?
    ensures var (bytes, rest) := DecodeSized(bs).value;
      |bytes| < TWO32 && bs == U32LE(|bytes|) + bytes + rest
  {
    U32RoundTrip(0, bs[..4]);
    var end := 4 + ReadU32(bs[..4]);
    assert bs == bs[..4] + bs[4..end] + bs[end..];
  }

  lemma DecodedField(tag: byte, bs: seq<byte>)
    requires DecodeField(tag, bs).Some?
    ensures var (f, rest) := DecodeField(tag, bs).value;
      Fits(f) && Tag(f) == tag && bs == EncodeField(f) + rest
  {
    if tag == TYPE_U64 {
      ToLEInvertsFromLE(bs[..8]);
      assert bs == bs[..8] + bs[8..];
    } else if tag == TYPE_U8 {
      assert bs == [bs[0]] + bs[1..];
    } else {
      DecodedSized(bs);
    }
  }

  /** The decoder accepts nothing but encodings of records with the given layout. */
  lemma {:induction false} DecodedFields(layout: seq<byte>, bs: seq<byte>)
    requires DecodeFields(layout, bs).Some?
    ensures var (fs, tail) := DecodeFields(layout, bs).value;
      AllFit(fs) && Layout(fs) == layout && bs == EncodeFields(fs) + tail
    decreases |layout|
  {
    if layout != [] {
      var (f, rest) := DecodeField(layout[0], bs).value;
      DecodedField(layout[0], bs);
      DecodedFields(layout[1..], rest);
      var (fs, tail) := DecodeFields(layout[1..], rest).value;
      ConsField(f, fs, tail);
      HeadAndRest(layout);
    }
  }

  // ---------------------------------------------------------------- the payload

  /** The SDK's parameters; strings are their UTF-8 bytes. */
  datatype AttestationData = AttestationData(
    alienAccountAddress: seq<byte>,
    alienIDVersion: int,
    alienChainId: seq<byte>,
    solanaAddress: seq<byte>,
    linkageProof: seq<byte>,
    timestamp: int)

  /** The lengths and the timestamp are in range for the buffers they are written to. */
  predicate Writable(p: AttestationData)
  {
    && |p.alienAccountAddress| < TWO32
    && |p.alienChainId| < TWO32
    && |p.solanaAddress| < TWO32
    && |p.linkageProof| < TWO32
    && -TWO63 <= p.timestamp < TWO63
  }

  function FieldsOf(p: AttestationData): (fs: seq<Field>)
    requires Writable(p)
    ensures AllFit(fs)
  {
    [ VecU8(p.alienAccountAddress),
      U8(p.alienIDVersion % 256),
      Text(p.alienChainId),
      Text(p.solanaAddress),
      VecU8(p.linkageProof),
      U64(Pattern64(p.timestamp)) ]
  }

  /** The record that the schema's fields stand for. */
  function RecordOf(fs: seq<Field>): Option<AttestationData>
  {
    if |fs| == 6 && fs[0].VecU8? && fs[1].U8? && fs[2].Text? && fs[3].Text? && fs[4].VecU8? && fs[5].U64? then
      Some(AttestationData(fs[0].bytes, fs[1].small, fs[2].utf8, fs[3].utf8, fs[4].bytes, fs[5].large))
    else None
  }

  function DecodePayload(bs: seq<byte>): Option<(AttestationData, seq<byte>)>
  {
    match DecodeFields(SCHEMA_LAYOUT, bs)
    case None => None
    case Some((fs, tail)) =>
      match RecordOf(fs)
      case None => None
      case Some(p) => Some((p, tail))
  }

  /** What the encoder writes for parameters it accepts. */
  function Encoded(p: AttestationData): seq<byte>
    requires Writable(p)
  {
    EncodeFields(FieldsOf(p))
  }

  /** `u32LE`: a buffer of four bytes, written in place. */
  method WriteU32LE(value: int) returns (r: Result<seq<byte>>)
    ensures r == if 0 <= value < 0x1_0000_0000 then Ok(U32LE(value)) else Err(RangeError)
    ensures r.Ok? ==>
      r.value == [value % 0x100, value / 0x100 % 0x100, value / 0x1_0000 % 0x100, value / 0x100_0000 % 0x100]
  {
    if !(0 <= value < TWO32) {
      return Err(RangeError);
    }
    var buf := new byte[4];
    WriteLE(buf, value);
    U32Spelled(value);
    r := Ok(buf[..]);
  }

  /** `i64LE`: a buffer of eight bytes, written in place. */
  method WriteI64LE(value: int) returns (r: Result<seq<byte>>)
    ensures r == if -0x8000_0000_0000_0000 <= value < 0x8000_0000_0000_0000 then Ok(I64LE(value)) else Err(RangeError)
    ensures r.Ok? ==> |r.value| == 8 && Little64(r.value) == value
    ensures r.Ok? ==> forall k :: 0 <= k < 8 ==>
      r.value[k] == (if value < 0 then value + 0x1_0000_0000_0000_0000 else value) / Pow256(k) % 0x100
  {
    if !(-TWO63 <= value < TWO63) {
      return Err(RangeError);
    }
    var buf := new byte[8];
    WriteLE(buf, Pattern64(value));
    I64Spelled(value);
    forall k | 0 <= k < 8 ensures buf[k] == Pattern64(value) / Pow256(k) % 0x100 {
      ToLEDigit(Pattern64(value), 8, k);
    }
    r := Ok(buf[..]);
  }

  /** Fills a buffer with a number, least significant byte first. */
  method WriteLE(buf: array<byte>, value: nat)
    modifies buf
    ensures buf[..] == ToLE(value, buf.Length)
  {
    var rest := value;
    for i := 0 to buf.Length
      invariant rest >= 0
      invariant ToLE(value, buf.Length) == buf[..i] + ToLE(rest, buf.Length - i)
    {
      buf[i] := rest % 256;
      assert ToLE(rest, buf.Length - i) == [rest % 256] + ToLE(rest / 256, buf.Length - i - 1);
      rest := rest / 256;
    }
    assert buf[..buf.Length] == buf[..];
  }

  lemma ThreeFields(fs: seq<Field>, i: nat)
    requires AllFit(fs) && i + 3 <= |fs|
    ensures AllFit(fs[i..]) && AllFit(fs[i + 3..])
    ensures EncodeFields(fs[i..]) ==
      EncodeField(fs[i]) + EncodeField(fs[i + 1]) + EncodeField(fs[i + 2]) + EncodeFields(fs[i + 3..])
  {
    NextField(fs, i);
    NextField(fs, i + 1);
    NextField(fs, i + 2);
    Regroup(EncodeField(fs[i]), EncodeField(fs[i + 1]), EncodeField(fs[i + 2]), EncodeFields(fs[i + 3..]));
  }

  lemma NextField(fs: seq<Field>, i: nat)
    requires AllFit(fs) && i < |fs|
    ensures AllFit(fs[i..]) && AllFit(fs[i + 1..])
    ensures EncodeFields(fs[i..]) == EncodeField(fs[i]) + EncodeFields(fs[i + 1..])
  {
    assert fs[i..][1..] == fs[i + 1..];
  }

  lemma Regroup(a: seq<byte>, b: seq<byte>, c: seq<byte>, d: seq<byte>)
    ensures a + (b + (c + d)) == a + b + c + d
  {
  }

  /** A record of six fields, written one after the other. */
  lemma SixFields(fs: seq<Field>)
    requires AllFit(fs) && |fs| == 6
    ensures EncodeFields(fs) == EncodeField(fs[0]) + EncodeField(fs[1]) + EncodeField(fs[2])
      + EncodeField(fs[3]) + EncodeField(fs[4]) + EncodeField(fs[5])
  {
    ThreeFields(fs, 0);
    ThreeFields(fs, 3);
    assert fs[0..] == fs && fs[6..] == [];
    var front := EncodeField(fs[0]) + EncodeField(fs[1]) + EncodeField(fs[2]);
    var d, e, f := EncodeField(fs[3]), EncodeField(fs[4]), EncodeField(fs[5]);
    Reassociate(front, d, e, f);
  }

  lemma Reassociate(a: seq<byte>, b: seq<byte>, c: seq<byte>, d: seq<byte>)
    ensures a + (b + c + d + []) == a + b + c + d
  {
  }

  lemma EncodedParts(p: AttestationData)
    requires Writable(p)
    ensures Encoded(p) ==
      (U32LE(|p.alienAccountAddress|) + p.alienAccountAddress)
      + [p.alienIDVersion % 256]
      + (U32LE(|p.alienChainId|) + p.alienChainId)
      + (U32LE(|p.solanaAddress|) + p.solanaAddress)
      + (U32LE(|p.linkageProof|) + p.linkageProof)
      + I64LE(p.timestamp)
  {
    SixFields(FieldsOf(p));
  }

  /** `encodeAlienIdAttestationData` */
  method EncodeAlienIdAttestationData(p: AttestationData) returns (r: Result<seq<byte>>)
    ensures r == if Writable(p) then Ok(Encoded(p)) else Err(RangeError)
    ensures r.Ok? <==>
      && |p.alienAccountAddress| < 0x1_0000_0000 && |p.alienChainId| < 0x1_0000_0000
      && |p.solanaAddress| < 0x1_0000_0000 && |p.linkageProof| < 0x1_0000_0000
      && -0x8000_0000_0000_0000 <= p.timestamp < 0x8000_0000_0000_0000
    ensures r.Ok? ==>
      r.value == (U32LE(|p.alienAccountAddress|) + p.alienAccountAddress)
        + [p.alienIDVersion % 0x100]
        + (U32LE(|p.alienChainId|) + p.alienChainId)
        + (U32LE(|p.solanaAddress|) + p.solanaAddress)
        + (U32LE(|p.linkageProof|) + p.linkageProof)
        + I64LE(p.timestamp)
  {
    var accountLength :- WriteU32LE(|p.alienAccountAddress|);
    var chainLength :- WriteU32LE(|p.alienChainId|);
    var addressLength :- WriteU32LE(|p.solanaAddress|);
    var proofLength :- WriteU32LE(|p.linkageProof|);
    var timestamp :- WriteI64LE(p.timestamp);
    EncodedParts(p);
    r := Ok((accountLength + p.alienAccountAddress)
            + [p.alienIDVersion % 256]
            + (chainLength + p.alienChainId)
            + (addressLength + p.solanaAddress)
            + (proofLength + p.linkageProof)
            + timestamp);
  }

  // ---------------------------------------------------------------- round trips

  /** The record as the schema reads it back: the version's low byte, and the timestamp's
      bit pattern as an unsigned number. */
  function AsRead(p: AttestationData): AttestationData
    requires Writable(p)
  {
    p.(alienIDVersion := p.alienIDVersion % 256, timestamp := Pattern64(p.timestamp))
  }

  lemma SchemaLayoutMatches(p: AttestationData)
    requires Writable(p)
    ensures Layout(FieldsOf(p)) == SCHEMA_LAYOUT == [13, 0, 12, 12, 13, 3]
  {
    var fs := FieldsOf(p);
    assert fs[1..][1..] == fs[2..] && fs[2..][1..] == fs[3..] && fs[3..][1..] == fs[4..];
    assert fs[4..][1..] == fs[5..] && fs[5..][1..] == [];
    assert Layout(fs[5..]) == [3] && Layout(fs[4..]) == [13, 3] && Layout(fs[3..]) == [12, 13, 3];
    assert Layout(fs[2..]) == [12, 12, 13, 3] && Layout(fs[1..]) == [0, 12, 12, 13, 3];
  }

  /** Decoding by the schema layout, whatever follows the payload. */
  lemma PayloadDecodes(p: AttestationData, tail: seq<byte>)
    requires Writable(p)
    ensures DecodePayload(Encoded(p) + tail) == Some((AsRead(p), tail))
  {
    SchemaLayoutMatches(p);
    FieldsRoundTrip(FieldsOf(p), tail);
  }

  /** The record comes back unchanged exactly when its version is a byte and its timestamp
      is not negative: the encoder writes a signed integer where the schema reads an
      unsigned one. */
  lemma PayloadRoundTrip(p: AttestationData, tail: seq<byte>)
    requires Writable(p)
    ensures DecodePayload(Encoded(p) + tail) == Some((p, tail))
      <==> 0 <= p.alienIDVersion < 256 && p.timestamp >= 0
  {
    PayloadDecodes(p, tail);
  }

  /** A timestamp one second before 1970 comes back as the largest unsigned one. */
  lemma NegativeTimestampMisread(p: AttestationData, tail: seq<byte>)
    requires Writable(p) && p.alienIDVersion == 1 && p.timestamp == -1
    ensures DecodePayload(Encoded(p) + tail) == Some((p.(timestamp := 0xFFFF_FFFF_FFFF_FFFF), tail))
  {
    PayloadDecodes(p, tail);
  }

  /** No payload is a proper prefix of another, and different records have different ones. */
  lemma PayloadPrefixFree(p: AttestationData, q: AttestationData, s: seq<byte>, t: seq<byte>)
    requires Writable(p) && Writable(q) && Encoded(p) + s == Encoded(q) + t
    ensures s == t && p.(alienIDVersion := p.alienIDVersion % 256) == q.(alienIDVersion := q.alienIDVersion % 256)
  {
    PayloadDecodes(p, s);
    PayloadDecodes(q, t);
  }

  /** A payload carried as the data of a stored attestation: the hook's reader finds the
      intended expiry whatever the payload, and the payload's record can be read back. */
  lemma PayloadInAttestation(p: AttestationData, a: Attestation, tail: seq<byte>)
    requires Writable(p) && |Encoded(p)| < TWO32 && a.data == Encoded(p)
    ensures ReadExpiry(Serialize(a) + tail) == Ok(a.expiry)
    ensures var stored := Serialize(a) + tail;
      var n := ReadU32(stored[97..101]);
      DecodePayload(stored[101..101 + n]) == Some((AsRead(p), []))
  {
    StoredParts(a, tail);
    PayloadDecodes(p, []);
    assert Encoded(p) + [] == Encoded(p);
  }
}
