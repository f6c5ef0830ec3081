/** The attestation account of the Solana Attestation Service: its record, the bytes the
    record is stored as, and the reader that the hook runs over those bytes. */
module AttestationAccount {
  import opened Bytes
  import opened Results
  import opened Keys

  const ATTESTATION_DISCRIMINATOR: byte := 2

  datatype Attestation = Attestation(
    nonce: Key,
    credential: Key,
    schema: Key,
    data: seq<byte>,
    signer: Key,
    expiry: i64,
    tokenAccount: Key)

  predicate Encodable(a: Attestation)
  {
    |a.data| < TWO32
  }

  function Front(a: Attestation): (bs: seq<byte>)
    ensures |bs| == 97
  {
    [ATTESTATION_DISCRIMINATOR] + a.nonce + a.credential + a.schema
  }

  /** The stored bytes up to and including the expiry. */
  function Head(a: Attestation): (bs: seq<byte>)
    requires Encodable(a)
    ensures |bs| == 141 + |a.data|
  {
    Front(a) + U32LE(|a.data|) + a.data + a.signer + I64LE(a.expiry)
  }

  /** The whole stored record. */
  function Serialize(a: Attestation): seq<byte>
    requires Encodable(a)
  {
    Head(a) + a.tokenAccount
  }

  // ---------------------------------------------------------------- the reader

  /** The target's index type; arithmetic on it must not leave 64 bits. */
  newtype usize = x: int | 0 <= x < TWO64

  /** The expiry in an attestation account's bytes. That this function is well formed means
      that no slice is out of range and no index sum overflows, for any bytes. */
  function ReadExpiry(data: seq<byte>): Result<i64>
  {
    if !(|data| > 1) then Err(InvalidAttestation)
    else if data[0] != ATTESTATION_DISCRIMINATOR then Err(InvalidAttestation)
    else
      var base: usize := 1 + 32 + 32 + 32;
      if !(|data| >= (base + 4) as int) then Err(InvalidAttestation)
      else
        var fieldLength: usize := ReadU32(data[base as int..(base + 4) as int]) as usize;
        var expiryOffset: usize := base + 4 + fieldLength + 32;
        if !(|data| >= (expiryOffset + 8) as int) then Err(InvalidAttestation)
        else Ok(ReadI64(data[expiryOffset as int..(expiryOffset + 8) as int]))
  }

  /** The verdict on an attestation account's bytes at time `now`. */
  function Judge(data: seq<byte>, now: int): Result<()>
  {
    var expiry :- ReadExpiry(data);
    if expiry != 0 then Require(expiry > now, AttestationExpired).ToResult() else Ok(())
  }

  // ---------------------------------------------------------------- what it means

  /** The bytes begin with the stored form of this record. */
  predicate Holds(data: seq<byte>, a: Attestation)
  {
    Encodable(a) && Head(a) <= data
  }

  ghost predicate WellFormed(data: seq<byte>)
  {
    exists a :: Holds(data, a)
  }

  lemma Parts(f: seq<byte>, l: seq<byte>, d: seq<byte>, s: seq<byte>, e: seq<byte>, t: seq<byte>)
    requires |f| == 97 && |l| == 4 && |s| == 32 && |e| == 8
    ensures var data, n := f + l + d + s + e + t, |d|;
      && |data| >= 141 + n
      && data[..97] == f
      && data[97..101] == l
      && data[101..101 + n] == d
      && data[101 + n..133 + n] == s
      && data[133 + n..141 + n] == e
  {
  }

  lemma HeadFields(a: Attestation, data: seq<byte>)
    requires Holds(data, a)
    ensures |data| >= 141 + |a.data|
    ensures data[..97] == Front(a)
    ensures data[97..101] == U32LE(|a.data|)
    ensures data[101..101 + |a.data|] == a.data
    ensures data[101 + |a.data|..133 + |a.data|] == a.signer
    ensures data[133 + |a.data|..141 + |a.data|] == I64LE(a.expiry)
  {
    var tail := data[|Head(a)|..];
    var f, l, e := Front(a), U32LE(|a.data|), I64LE(a.expiry);
    Parts(f, l, a.data, a.signer, e, tail);
    assert data == f + l + a.data + a.signer + e + tail;
  }

  lemma ReadsFields(data: seq<byte>, n: nat, expiry: i64)
    requires n < TWO32 && |data| >= 141 + n
    requires data[0] == ATTESTATION_DISCRIMINATOR && ReadU32(data[97..101]) == n
    requires ReadI64(data[133 + n..141 + n]) == expiry
    ensures ReadExpiry(data) == Ok(expiry)
  {
  }

  /** On the stored form of a record, whatever its data and whatever follows, the reader
      finds the record's expiry. */
  lemma ReadsStoredRecord(a: Attestation, data: seq<byte>)
    requires Holds(data, a)
    ensures ReadExpiry(data) == Ok(a.expiry)
  {
    HeadFields(a, data);
    assert data[0] == data[..97][0];
    U32RoundTrip(|a.data|, Zeros(4));
    I64RoundTrip(a.expiry, Zeros(8));
    ReadsFields(data, |a.data|, a.expiry);
  }

  /** Expiry and data of a record stored with anything after it. */
  lemma StoredParts(a: Attestation, tail: seq<byte>)
    requires Encodable(a)
    ensures var stored := Serialize(a) + tail;
      && ReadExpiry(stored) == Ok(a.expiry)
      && ReadU32(stored[97..101]) == |a.data|
      && stored[101..101 + |a.data|] == a.data
  {
    var stored := Serialize(a) + tail;
    Associate(Head(a), a.tokenAccount, tail);
    assert Holds(stored, a);
    ReadsStoredRecord(a, stored);
    HeadFields(a, stored);
    U32RoundTrip(|a.data|, Zeros(4));
  }

  lemma Slices(data: seq<byte>, n: nat)
    requires |data| >= 141 + n
    ensures data[..141 + n] == data[..1] + data[1..33] + data[33..65] + data[65..97] + data[97..101]
      + data[101..101 + n] + data[101 + n..133 + n] + data[133 + n..141 + n]
  {
    var end := 101 + n;
    assert data[..141 + n] == data[..end] + data[end..133 + n] + data[133 + n..141 + n];
    assert data[..end] == data[..97] + data[97..101] + data[101..end];
    assert data[..97] == data[..1] + data[1..33] + data[33..65] + data[65..97];
  }

  /** Bytes that the reader accepts are the stored form of a record. */
  lemma AcceptedIsRecord(data: seq<byte>) returns (a: Attestation)
    requires ReadExpiry(data).Ok?
    ensures Holds(data, a)
  {
    var n := ReadU32(data[97..101]);
    a := Attestation(data[1..33], data[33..65], data[65..97], data[101..101 + n],
                     data[101 + n..133 + n], ReadI64(data[133 + n..141 + n]), DEFAULT);
    U32RoundTrip(0, data[97..101]);
    I64RoundTrip(0, data[133 + n..141 + n]);
    Slices(data, n);
    assert data[..1] == [ATTESTATION_DISCRIMINATOR];
    assert |a.data| == n && U32LE(n) == data[97..101];
    assert Head(a) == data[..141 + n];
  }

  /** The reader accepts exactly the bytes that begin with a stored record, and then
      returns that record's expiry. */
  lemma LayoutCharacterized(data: seq<byte>)
    ensures ReadExpiry(data).Ok? <==> WellFormed(data)
    ensures forall a :: Holds(data, a) ==> ReadExpiry(data) == Ok(a.expiry)
    ensures ReadExpiry(data).Err? ==> ReadExpiry(data).error == InvalidAttestation
  {
    forall a | Holds(data, a) ensures ReadExpiry(data) == Ok(a.expiry) {
      ReadsStoredRecord(a, data);
    }
    if ReadExpiry(data).Ok? {
      var a := AcceptedIsRecord(data);
    }
  }

  /** The bytes that the reader accepts, and what it reads, told from the bytes alone: a 2, 96
      bytes, a length, that many bytes, 32 more, and an expiry; anything may follow. */
  lemma AcceptedBytes(data: seq<byte>)
    ensures ReadExpiry(data).Ok? <==>
      && |data| >= 101 && data[0] == 2
      && |data| >= 141 + Little32(data[97], data[98], data[99], data[100])
    ensures ReadExpiry(data).Ok? ==>
      var n := Little32(data[97], data[98], data[99], data[100]);
      ReadExpiry(data).value == Little64(data[133 + n..141 + n])
  {
    if |data| >= 101 {
      LengthSpelled(data);
      ReadsAsSpelled(data, Little32(data[97], data[98], data[99], data[100]));
    }
  }

  lemma LengthSpelled(data: seq<byte>)
    requires |data| >= 101
    ensures ReadU32(data[97..101]) == Little32(data[97], data[98], data[99], data[100])
  {
    ReadSpelled(data[97..101], Zeros(8));
  }

  lemma ReadsAsSpelled(data: seq<byte>, n: nat)
    requires |data| >= 101 && ReadU32(data[97..101]) == n
    ensures ReadExpiry(data).Ok? <==> data[0] == 2 && |data| >= 141 + n
    ensures ReadExpiry(data).Ok? ==> ReadExpiry(data).value == Little64(data[133 + n..141 + n])
  {
    if |data| >= 141 + n {
      ReadSpelled(Zeros(4), data[133 + n..141 + n]);
    }
  }

  /** The stored form of a record, position by position. */
  lemma StoredLayout(a: Attestation)
    requires Encodable(a)
    ensures var bs, n := Serialize(a), |a.data|;
      && |bs| == 173 + n
      && bs[0] == 2
      && bs[1..33] == a.nonce && bs[33..65] == a.credential && bs[65..97] == a.schema
      && Little32(bs[97], bs[98], bs[99], bs[100]) == n
      && bs[101..101 + n] == a.data
      && bs[101 + n..133 + n] == a.signer
      && Little64(bs[133 + n..141 + n]) == a.expiry
      && bs[141 + n..] == a.tokenAccount
  {
    var bs, n := Serialize(a), |a.data|;
    assert Holds(bs, a);
    HeadFields(a, bs);
    StoredParts(a, []);
    assert bs + [] == bs;
    FrontSlices(bs);
    FrontKeys(a);
    ReadSpelled(bs[97..101], bs[133 + n..141 + n]);
    I64Spelled(a.expiry);
    assert bs[141 + n..] == a.tokenAccount;
  }

  lemma FrontSlices(bs: seq<byte>)
    requires |bs| >= 97
    ensures bs[0] == bs[..97][0]
    ensures bs[1..33] == bs[..97][1..33] && bs[33..65] == bs[..97][33..65] && bs[65..97] == bs[..97][65..97]
  {
  }

  /** Unexpired at a time: never expiring, or expiring strictly later. */
  predicate Unexpired(a: Attestation, now: int)
  {
    a.expiry == 0 || now < a.expiry
  }

  /** The bytes hold a record unexpired at this time. */
  ghost predicate Current(data: seq<byte>, now: int)
  {
    exists a :: Holds(data, a) && Unexpired(a, now)
  }

  /** The verdict, told by the record the bytes hold. */
  lemma JudgeMeaning(data: seq<byte>, now: int)
    ensures Judge(data, now) ==
      if !WellFormed(data) then Err(InvalidAttestation)
      else if Current(data, now) then Ok(())
      else Err(AttestationExpired)
  {
    LayoutCharacterized(data);
  }

  lemma FrontKeys(a: Attestation)
    ensures var f := Front(a);
      f[0] == 2 && f[1..33] == a.nonce && f[33..65] == a.credential && f[65..97] == a.schema
  {
  }

  /** Two records stored at the head of the same bytes are the same up to the token account. */
  lemma StoredRecordUnique(data: seq<byte>, a: Attestation, b: Attestation)
    requires Holds(data, a) && Holds(data, b)
    ensures a.(tokenAccount := b.tokenAccount) == b
  {
    HeadFields(a, data);
    HeadFields(b, data);
    U32RoundTrip(|a.data|, Zeros(4));
    U32RoundTrip(|b.data|, Zeros(4));
    ReadsStoredRecord(a, data);
    ReadsStoredRecord(b, data);
    FrontKeys(a);
    FrontKeys(b);
  }
}
