/** The byte layout of a stored extra-account-meta list (SPL TLV Account Resolution): one
    type-length-value entry under the Execute discriminator, holding a counted slice of
    35-byte entries. Integers are little-endian. */
module ListLayout {
  import opened Bytes
  import opened Results
  import opened Keys
  import opened Metas

  const EXECUTE: seq<byte> := [105, 37, 101, 197, 75, 251, 102, 26]
  const META_SIZE: nat := 35
  const HEADER_SIZE: nat := 16

  function PackSeed(s: Seed): seq<byte>
    requires s.Literal? ==> |s.bytes| < 256
  {
    match s
    case Literal(bytes) => [1, |bytes|] + bytes
    case AccountKey(index) => [3, index]
  }

  predicate ShortLiterals(seeds: seq<Seed>)
  {
    forall i :: 0 <= i < |seeds| && seeds[i].Literal? ==> |seeds[i].bytes| < 256
  }

  function PackSeeds(seeds: seq<Seed>): seq<byte>
    requires ShortLiterals(seeds)
  {
    if seeds == [] then [] else PackSeed(seeds[0]) + PackSeeds(seeds[1..])
  }

  /** The seeds fit the 32 bytes of an entry's address field. */
  predicate SeedsFit(seeds: seq<Seed>)
  {
    ShortLiterals(seeds) && |PackSeeds(seeds)| <= 32
  }

  predicate Packable(m: Meta)
  {
    match m.address
    case FixedKey(_) => true
    case HookPda(seeds) => SeedsFit(seeds)
    case ExternalPda(p, seeds) => p < 128 && SeedsFit(seeds)
  }

  function Padded(bs: seq<byte>): (k: Key)
    requires |bs| <= 32
  {
    bs + Zeros(32 - |bs|)
  }

  function Flag(b: bool): byte
  {
    if b then 1 else 0
  }

  /** The kind of address an entry holds. */
  function Kind(a: AddressConfig): byte
    requires a.ExternalPda? ==> a.programIndex < 128
  {
    match a
    case FixedKey(_) => 0
    case HookPda(_) => 1
    case ExternalPda(p, _) => 128 + p
  }

  function AddressField(m: Meta): Key
    requires Packable(m)
  {
    match m.address
    case FixedKey(key) => key
    case HookPda(seeds) => Padded(PackSeeds(seeds))
    case ExternalPda(_, seeds) => Padded(PackSeeds(seeds))
  }

  function Fields(kind: byte, field: Key, isSigner: byte, isWritable: byte): (bs: seq<byte>)
    ensures |bs| == META_SIZE
    ensures bs[0] == kind && bs[1..33] == field && bs[33] == isSigner && bs[34] == isWritable
  {
    [kind] + field + [isSigner, isWritable]
  }

  function Pack(m: Meta): (bs: seq<byte>)
    requires Packable(m)
    ensures |bs| == META_SIZE
  {
    Fields(Kind(m.address), AddressField(m), Flag(m.isSigner), Flag(m.isWritable))
  }

  predicate AllPackable(metas: seq<Meta>)
  {
    forall i :: 0 <= i < |metas| ==> Packable(metas[i])
  }

  function PackAll(metas: seq<Meta>): (bs: seq<byte>)
    requires AllPackable(metas)
    ensures |bs| == META_SIZE * |metas|
  {
    if metas == [] then [] else Pack(metas[0]) + PackAll(metas[1..])
  }

  /** `ExtraAccountMetaList::size_of` */
  function ListSize(n: nat): nat
  {
    HEADER_SIZE + META_SIZE * n
  }

  function Header(capacity: nat, count: nat): (bs: seq<byte>)
    ensures |bs| == HEADER_SIZE
  {
    EXECUTE + U32LE(4 + META_SIZE * capacity) + U32LE(count)
  }

  function EncodeList(metas: seq<Meta>): (bs: seq<byte>)
    requires AllPackable(metas)
    ensures |bs| == ListSize(|metas|)
  {
    Header(|metas|, |metas|) + PackAll(metas)
  }

  // ---------------------------------------------------------------- reading back

  function UnpackSeeds(bs: seq<byte>): Option<seq<Seed>>
  {
    if |bs| == 0 || bs[0] == 0 then Some([])
    else if |bs| < 2 then None
    else if bs[0] == 1 then
      var end: nat := 2 + bs[1] as nat;
      if |bs| < end then None
      else match UnpackSeeds(bs[end..])
        case None => None
        case Some(rest) => Some([Literal(bs[2..end])] + rest)
    else if bs[0] == 3 then
      match UnpackSeeds(bs[2..])
      case None => None
      case Some(rest) => Some([AccountKey(bs[1])] + rest)
    else None
  }

  function UnpackAddress(d: byte, field: Key): Option<AddressConfig>
  {
    if d == 0 then Some(FixedKey(field))
    else if d != 1 && d < 128 then None
    else match UnpackSeeds(field)
      case None => None
      case Some(seeds) => Some(if d == 1 then HookPda(seeds) else ExternalPda(d - 128, seeds))
  }

  function Unpack(bs: seq<byte>): Option<Meta>
    requires |bs| == META_SIZE
  {
    match UnpackAddress(bs[0], bs[1..33])
    case None => None
    case Some(address) => Some(Meta(address, bs[33] != 0, bs[34] != 0))
  }

  function UnpackAll(bs: seq<byte>, n: nat): Option<seq<Meta>>
    requires |bs| >= META_SIZE * n
    decreases n
  {
    if n == 0 then Some([])
    else match Unpack(bs[..META_SIZE])
      case None => None
      case Some(m) =>
        match UnpackAll(bs[META_SIZE..], n - 1)
        case None => None
        case Some(rest) => Some([m] + rest)
  }

  /** The entries of the list stored in a buffer, if it holds one. */
  function DecodeList(data: seq<byte>): Option<seq<Meta>>
  {
    if |data| < HEADER_SIZE || data[..8] != EXECUTE then None
    else
      var length, count := ReadU32(data[8..12]), ReadU32(data[12..16]);
      if |data| < 12 + length || length < 4 + META_SIZE * count then None
      else UnpackAll(data[16..], count)
  }

  lemma UnpackLiteral(bytes: seq<byte>, rest: seq<byte>)
    requires |bytes| < 256 && UnpackSeeds(rest).Some?
    ensures UnpackSeeds(PackSeed(Literal(bytes)) + rest) == Some([Literal(bytes)] + UnpackSeeds(rest).value)
  {
    var bs := PackSeed(Literal(bytes)) + rest;
    var end: nat := 2 + bs[1] as nat;
    assert bs[end..] == rest && bs[2..end] == bytes;
  }

  lemma UnpackKey(index: byte, rest: seq<byte>)
    requires UnpackSeeds(rest).Some?
    ensures UnpackSeeds(PackSeed(AccountKey(index)) + rest) == Some([AccountKey(index)] + UnpackSeeds(rest).value)
  {
    assert (PackSeed(AccountKey(index)) + rest)[2..] == rest;
  }

  lemma {:induction false} SeedsRoundTrip(seeds: seq<Seed>, n: nat)
    requires ShortLiterals(seeds)
    ensures UnpackSeeds(PackSeeds(seeds) + Zeros(n)) == Some(seeds)
  {
    if seeds == [] {
      assert PackSeeds(seeds) + Zeros(n) == Zeros(n);
    } else {
      var rest := PackSeeds(seeds[1..]) + Zeros(n);
      SeedsRoundTrip(seeds[1..], n);
      match seeds[0] {
        case Literal(bytes) => UnpackLiteral(bytes, rest);
        case AccountKey(index) => UnpackKey(index, rest);
      }
      Associate(PackSeed(seeds[0]), PackSeeds(seeds[1..]), Zeros(n));
      HeadAndRest(seeds);
    }
  }

  lemma AddressRoundTrip(m: Meta)
    requires Packable(m)
    ensures UnpackAddress(Kind(m.address), AddressField(m)) == Some(m.address)
  {
    if !m.address.FixedKey? {
      SeedsRoundTrip(m.address.seeds, 32 - |PackSeeds(m.address.seeds)|);
    }
  }

  lemma MetaRoundTrip(m: Meta)
    requires Packable(m)
    ensures Unpack(Pack(m)) == Some(m)
  {
    AddressRoundTrip(m);
  }

  lemma UnpackStep(head: seq<byte>, bs: seq<byte>, m: Meta, rest: seq<Meta>, n: nat)
    requires |head| == META_SIZE && |bs| >= META_SIZE * n
    requires Unpack(head) == Some(m) && UnpackAll(bs, n) == Some(rest)
    ensures UnpackAll(head + bs, n + 1) == Some([m] + rest)
  {
    assert (head + bs)[..META_SIZE] == head && (head + bs)[META_SIZE..] == bs;
  }

  lemma {:induction false} MetasRoundTrip(metas: seq<Meta>, tail: seq<byte>)
    requires AllPackable(metas)
    ensures UnpackAll(PackAll(metas) + tail, |metas|) == Some(metas)
    decreases |metas|
  {
    if metas != [] {
      var head, rest := Pack(metas[0]), PackAll(metas[1..]);
      MetasRoundTrip(metas[1..], tail);
      MetaRoundTrip(metas[0]);
      UnpackStep(head, rest + tail, metas[0], metas[1..], |metas| - 1);
      Associate(head, rest, tail);
      HeadAndRest(metas);
    }
  }

  lemma HeaderRoundTrip(n: nat, body: seq<byte>)
    requires ListSize(n) < TWO32
    ensures var data := Header(n, n) + body;
      && data[..8] == EXECUTE
      && ReadU32(data[8..12]) == 4 + META_SIZE * n
      && ReadU32(data[12..16]) == n
      && data[16..] == body
  {
    var data := Header(n, n) + body;
    U32RoundTrip(4 + META_SIZE * n, Zeros(4));
    U32RoundTrip(n, Zeros(4));
    assert data[..8] == EXECUTE;
    assert data[8..12] == U32LE(4 + META_SIZE * n);
    assert data[12..16] == U32LE(n);
  }

  /** Reading a stored list back gives the entries that were stored, whatever follows it. */
  lemma ListRoundTrip(metas: seq<Meta>, tail: seq<byte>)
    requires AllPackable(metas) && ListSize(|metas|) < TWO32
    ensures DecodeList(EncodeList(metas) + tail) == Some(metas)
  {
    var n, body := |metas|, PackAll(metas) + tail;
    HeaderRoundTrip(n, body);
    MetasRoundTrip(metas, tail);
    assert EncodeList(metas) + tail == Header(n, n) + body;
  }

  // ---------------------------------------------------------------- the bytes, position by position

  lemma {:induction false} PackedAt(metas: seq<Meta>, k: nat, at: nat)
    requires AllPackable(metas) && k < |metas| && at == 35 * k
    ensures at + 35 <= |PackAll(metas)|
    ensures PackAll(metas)[at..at + 35] == Pack(metas[k])
    decreases k
  {
    if k == 0 {
      HeadSlice(Pack(metas[0]), PackAll(metas[1..]));
    } else {
      PackedAt(metas[1..], k - 1, at - 35);
      ShiftedSlice(Pack(metas[0]), PackAll(metas[1..]), at - 35, at);
    }
  }

  lemma HeadSlice(head: seq<byte>, rest: seq<byte>)
    ensures (head + rest)[0..|head|] == head
  {
  }

  lemma ShiftedSlice(head: seq<byte>, rest: seq<byte>, i: nat, j: nat)
    requires i <= j <= |rest|
    ensures (head + rest)[|head| + i..|head| + j] == rest[i..j]
  {
  }

  lemma SliceAfter(head: seq<byte>, rest: seq<byte>, i: nat, entry: seq<byte>)
    requires |head| == 16 && |entry| == 35 && i + 35 <= |rest| && rest[i..i + 35] == entry
    ensures (head + rest)[16 + i..51 + i] == entry
    ensures (head + rest)[49 + i] == entry[33] && (head + rest)[50 + i] == entry[34]
  {
    ShiftedSlice(head, rest, i, i + 35);
    assert rest[i + 33] == rest[i..i + 35][33] && rest[i + 34] == rest[i..i + 35][34];
  }

  /** Entry `k` of a stored list is 35 bytes from byte 16 + 35k on; its last two are the signer
      and the writable flag. */
  lemma EntryAt(metas: seq<Meta>, k: nat)
    requires AllPackable(metas) && k < |metas|
    ensures var bs, at := EncodeList(metas), 16 + 35 * k;
      && at + 35 <= |bs|
      && bs[at..at + 35] == Pack(metas[k])
      && bs[at + 33] == (if metas[k].isSigner then 1 else 0)
      && bs[at + 34] == (if metas[k].isWritable then 1 else 0)
  {
    PackedAt(metas, k, 35 * k);
    SliceAfter(Header(|metas|, |metas|), PackAll(metas), 35 * k, Pack(metas[k]));
  }

  lemma {:induction false} KeysLength(keys: seq<Seed>)
    requires forall i :: 0 <= i < |keys| ==> keys[i].AccountKey?
    ensures ShortLiterals(keys) && |PackSeeds(keys)| == 2 * |keys|
  {
    if keys != [] {
      KeysLength(keys[1..]);
    }
  }

  lemma LiteralThenKeysFit(literal: seq<byte>, keys: seq<Seed>)
    requires 2 + |literal| + 2 * |keys| <= 32
    requires forall i :: 0 <= i < |keys| ==> keys[i].AccountKey?
    ensures SeedsFit([Literal(literal)] + keys)
  {
    KeysLength(keys);
    assert ([Literal(literal)] + keys)[1..] == keys;
  }

  /** The program's list always fits its entries. */
  lemma ProgramListPackable(credential: Key, schema: Key, sasProgram: Key)
    ensures AllPackable(MetasFor(credential, schema, sasProgram))
  {
    LiteralThenKeysFit(CONFIG_SEED, [AccountKey(1)]);
    LiteralThenKeysFit(ATTESTATION_SEED, [AccountKey(6), AccountKey(7), AccountKey(3)]);
    LiteralThenKeysFit(WHITELIST_SEED, [AccountKey(1), AccountKey(3)]);
    assert [Literal(CONFIG_SEED)] + [AccountKey(1)] == [Literal(CONFIG_SEED), AccountKey(1)];
    assert [Literal(ATTESTATION_SEED)] + [AccountKey(6), AccountKey(7), AccountKey(3)]
        == [Literal(ATTESTATION_SEED), AccountKey(6), AccountKey(7), AccountKey(3)];
    assert [Literal(WHITELIST_SEED)] + [AccountKey(1), AccountKey(3)]
        == [Literal(WHITELIST_SEED), AccountKey(1), AccountKey(3)];
  }

  lemma HeaderWrittenOut()
    ensures Header(6, 6) == [105, 37, 101, 197, 75, 251, 102, 26] + [214, 0, 0, 0] + [6, 0, 0, 0]
  {
    U32Spelled(214);
    U32Spelled(6);
  }

  lemma {:induction false} PackedKeys(keys: seq<Seed>)
    requires |keys| > 0 && keys[0].AccountKey? && ShortLiterals(keys)
    ensures PackSeeds(keys) == [3, keys[0].index] + PackSeeds(keys[1..])
  {
  }

  lemma PackedLiteral(literal: seq<byte>, keys: seq<Seed>)
    requires |literal| < 256 && ShortLiterals(keys)
    ensures ShortLiterals([Literal(literal)] + keys)
    ensures PackSeeds([Literal(literal)] + keys) == [1, |literal|] + literal + PackSeeds(keys)
  {
    assert ([Literal(literal)] + keys)[1..] == keys;
  }

  lemma ConfigSeedField()
    ensures SeedsFit([Literal(CONFIG_SEED), AccountKey(1)])
    ensures PackSeeds([Literal(CONFIG_SEED), AccountKey(1)]) == [1, 6] + Ascii("config") + [3, 1]
  {
    var keys := [AccountKey(1)];
    PackedKeys(keys);
    PackedLiteral(CONFIG_SEED, keys);
    assert [Literal(CONFIG_SEED)] + keys == [Literal(CONFIG_SEED), AccountKey(1)];
    assert CONFIG_SEED == Ascii("config") && keys[1..] == [];
  }

  lemma AttestationSeedField()
    ensures SeedsFit([Literal(ATTESTATION_SEED), AccountKey(6), AccountKey(7), AccountKey(3)])
    ensures PackSeeds([Literal(ATTESTATION_SEED), AccountKey(6), AccountKey(7), AccountKey(3)])
         == [1, 11] + Ascii("attestation") + [3, 6, 3, 7, 3, 3]
  {
    var keys := [AccountKey(6), AccountKey(7), AccountKey(3)];
    PackedKeys(keys);
    assert keys[1..] == [AccountKey(7), AccountKey(3)];
    PackedKeys(keys[1..]);
    assert keys[1..][1..] == [AccountKey(3)];
    PackedKeys([AccountKey(3)]);
    PackedLiteral(ATTESTATION_SEED, keys);
    assert [Literal(ATTESTATION_SEED)] + keys
        == [Literal(ATTESTATION_SEED), AccountKey(6), AccountKey(7), AccountKey(3)];
    assert ATTESTATION_SEED == Ascii("attestation") && [AccountKey(3)][1..] == [];
  }

  lemma WhitelistSeedField()
    ensures SeedsFit([Literal(WHITELIST_SEED), AccountKey(1), AccountKey(3)])
    ensures PackSeeds([Literal(WHITELIST_SEED), AccountKey(1), AccountKey(3)])
         == [1, 9] + Ascii("whitelist") + [3, 1, 3, 3]
  {
    var keys := [AccountKey(1), AccountKey(3)];
    PackedKeys(keys);
    assert keys[1..] == [AccountKey(3)];
    PackedKeys([AccountKey(3)]);
    PackedLiteral(WHITELIST_SEED, keys);
    assert [Literal(WHITELIST_SEED)] + keys == [Literal(WHITELIST_SEED), AccountKey(1), AccountKey(3)];
    assert WHITELIST_SEED == Ascii("whitelist") && [AccountKey(3)][1..] == [];
  }

  /** The bytes of the list that the program stores for these keys. */
  function ProgramList(credential: Key, schema: Key, sasProgram: Key): (bs: seq<byte>)
    ensures |bs| == 226
  {
    ProgramListPackable(credential, schema, sasProgram);
    EncodeList(MetasFor(credential, schema, sasProgram))
  }

  /** Entry `k` holds an address of this kind and these 32 bytes, and two zero flags. */
  predicate PlainEntry(bs: seq<byte>, k: nat, kind: byte, field: seq<byte>)
  {
    var at := 16 + 35 * k;
    at + 35 <= |bs| && bs[at..at + 35] == [kind] + field + [0, 0]
  }

  /** The list that the program stores, byte by byte: its header, then for each entry the kind
      of address, its 32 bytes, and two zero flags. */
  lemma StoredListWrittenOut(credential: Key, schema: Key, sasProgram: Key)
    ensures var bs := ProgramList(credential, schema, sasProgram);
      && |bs| == 226
      && bs[..16] == [105, 37, 101, 197, 75, 251, 102, 26] + [214, 0, 0, 0] + [6, 0, 0, 0]
      && PlainEntry(bs, 0, 1, [1, 6] + Ascii("config") + [3, 1] + Zeros(22))
      && PlainEntry(bs, 1, 0, credential)
      && PlainEntry(bs, 2, 0, schema)
      && PlainEntry(bs, 3, 0, sasProgram)
      && PlainEntry(bs, 4, 136, [1, 11] + Ascii("attestation") + [3, 6, 3, 7, 3, 3] + Zeros(13))
      && PlainEntry(bs, 5, 1, [1, 9] + Ascii("whitelist") + [3, 1, 3, 3] + Zeros(17))
  {
    var metas := MetasFor(credential, schema, sasProgram);
    ProgramListPackable(credential, schema, sasProgram);
    HeaderWrittenOut();
    HeadSlice(Header(6, 6), PackAll(metas));
    ConfigEntry(metas);
    PlainAt(metas, 1);
    PlainAt(metas, 2);
    PlainAt(metas, 3);
    AttestationEntry(metas);
    WhitelistEntryBytes(metas);
  }

  lemma ConfigEntry(metas: seq<Meta>)
    requires AllPackable(metas) && |metas| == 6
    requires metas[0] == ReadOnly(HookPda([Literal(CONFIG_SEED), AccountKey(1)]))
    ensures PlainEntry(EncodeList(metas), 0, 1, [1, 6] + Ascii("config") + [3, 1] + Zeros(22))
  {
    PlainAt(metas, 0);
    ConfigSeedField();
  }

  lemma AttestationEntry(metas: seq<Meta>)
    requires AllPackable(metas) && |metas| == 6
    requires metas[4]
      == ReadOnly(ExternalPda(8, [Literal(ATTESTATION_SEED), AccountKey(6), AccountKey(7), AccountKey(3)]))
    ensures PlainEntry(EncodeList(metas), 4, 136, [1, 11] + Ascii("attestation") + [3, 6, 3, 7, 3, 3] + Zeros(13))
  {
    PlainAt(metas, 4);
    AttestationSeedField();
  }

  lemma WhitelistEntryBytes(metas: seq<Meta>)
    requires AllPackable(metas) && |metas| == 6
    requires metas[5] == ReadOnly(HookPda([Literal(WHITELIST_SEED), AccountKey(1), AccountKey(3)]))
    ensures PlainEntry(EncodeList(metas), 5, 1, [1, 9] + Ascii("whitelist") + [3, 1, 3, 3] + Zeros(17))
  {
    PlainAt(metas, 5);
    WhitelistSeedField();
  }

  lemma PlainAt(metas: seq<Meta>, k: nat)
    requires AllPackable(metas) && k < |metas| && !metas[k].isSigner && !metas[k].isWritable
    ensures PlainEntry(EncodeList(metas), k, Kind(metas[k].address), AddressField(metas[k]))
  {
    EntryAt(metas, k);
  }

  // ---------------------------------------------------------------- writing in place

  /** What initialising a list in a buffer leaves there. A buffer already holding a list is
      accepted only under the reading `reinit`. */
  function Initialized(data: seq<byte>, metas: seq<Meta>, reinit: bool): (r: Result<seq<byte>>)
    requires AllPackable(metas)
    ensures r.Ok? ==> |r.value| == |data|
  {
    if |data| < 8 then Err(InvalidAccountData)
    else if data[..8] == EXECUTE && !reinit then Err(ListAlreadyInitialized)
    else if data[..8] != EXECUTE && data[..8] != Zeros(8) then Err(InvalidAccountData)
    else if |data| < ListSize(|metas|) then Err(InvalidAccountData)
    else Ok(EncodeList(metas) + data[ListSize(|metas|)..])
  }

  /** `data.fill(0)` */
  method FillZero(buf: array<byte>)
    modifies buf
    ensures buf[..] == Zeros(buf.Length)
  {
    for i := 0 to buf.Length
      invariant forall k :: 0 <= k < i ==> buf[k] == 0
    {
      buf[i] := 0;
    }
  }

  /** The bytes with a stretch of them overwritten. */
  function Overwritten(s: seq<byte>, offset: nat, bs: seq<byte>): seq<byte>
    requires offset + |bs| <= |s|
  {
    s[..offset] + bs + s[offset + |bs|..]
  }

  method WriteAt(buf: array<byte>, offset: nat, bs: seq<byte>)
    requires offset + |bs| <= buf.Length
    modifies buf
    ensures buf[..] == Overwritten(old(buf[..]), offset, bs)
  {
    ghost var was := buf[..];
    for i := 0 to |bs|
      invariant forall k :: 0 <= k < buf.Length ==>
        buf[k] == if offset <= k < offset + i then bs[k - offset] else was[k]
    {
      buf[offset + i] := bs[i];
    }
  }

  lemma {:induction false} PackAllAppend(front: seq<Meta>, m: Meta)
    requires AllPackable(front) && Packable(m)
    ensures AllPackable(front + [m]) && PackAll(front + [m]) == PackAll(front) + Pack(m)
    decreases |front|
  {
    if front == [] {
      assert front + [m] == [m] && [m][1..] == [];
    } else {
      PackAllAppend(front[1..], m);
      assert (front + [m])[0] == front[0] && (front + [m])[1..] == front[1..] + [m];
      Associate(Pack(front[0]), PackAll(front[1..]), Pack(m));
    }
  }

  /** A buffer for `capacity` entries that counts `i` of them and has their bytes stored; what
      comes after those is as it was. */
  ghost function Partial(capacity: nat, i: nat, stored: seq<byte>, was: seq<byte>): (bs: seq<byte>)
    requires |stored| == META_SIZE * i && i <= capacity && |was| >= ListSize(capacity)
    ensures |bs| == |was|
  {
    Header(capacity, i) + (stored + was[ListSize(i)..])
  }

  lemma NothingPushed(metas: seq<Meta>, was: seq<byte>)
    requires AllPackable(metas) && |was| >= ListSize(|metas|)
    ensures PackAll(metas[..0]) == []
    ensures Overwritten(was, 0, Header(|metas|, 0)) == Partial(|metas|, 0, [], was)
  {
  }

  lemma NextPacked(metas: seq<Meta>, i: nat)
    requires AllPackable(metas) && i < |metas|
    ensures PackAll(metas[..i + 1]) == PackAll(metas[..i]) + Pack(metas[i])
  {
    assert metas[..i + 1] == metas[..i] + [metas[i]];
    PackAllAppend(metas[..i], metas[i]);
  }

  /** Overwriting the front of a suffix moves the end of what has been written. */
  lemma PushedBytes(h: seq<byte>, f: seq<byte>, p: seq<byte>, was: seq<byte>)
    requires |h| + |f| + |p| <= |was|
    ensures Overwritten(h + (f + was[|h| + |f|..]), |h| + |f|, p) == h + (f + p + was[|h| + |f| + |p|..])
  {
    var front, rest := h + f, was[|h| + |f|..];
    assert h + (f + rest) == front + rest;
    assert (front + rest)[..|front|] == front && (front + rest)[|front| + |p|..] == rest[|p|..];
    assert rest[|p|..] == was[|front| + |p|..];
  }

  lemma CountedBytes(n: nat, i: nat, rest: seq<byte>)
    ensures Overwritten(Header(n, i) + rest, 12, U32LE(i + 1)) == Header(n, i + 1) + rest
  {
  }

  /** Appends one entry and bumps the stored count. */
  method Push(buf: array<byte>, capacity: nat, i: nat, entry: seq<byte>, ghost stored: seq<byte>, ghost was: seq<byte>)
    requires |stored| == META_SIZE * i && i < capacity && |was| >= ListSize(capacity) && |entry| == META_SIZE
    requires buf[..] == Partial(capacity, i, stored, was)
    modifies buf
    ensures buf[..] == Partial(capacity, i + 1, stored + entry, was)
  {
    PushedBytes(Header(capacity, i), stored, entry, was);
    WriteAt(buf, ListSize(i), entry);
    CountedBytes(capacity, i, stored + entry + was[ListSize(i + 1)..]);
    WriteAt(buf, 12, U32LE(i + 1));
  }

  method PushAll(buf: array<byte>, metas: seq<Meta>)
    requires AllPackable(metas) && buf.Length >= ListSize(|metas|)
    modifies buf
    ensures buf[..] == EncodeList(metas) + old(buf[ListSize(|metas|)..])
  {
    ghost var was := buf[..];
    WriteAt(buf, 0, Header(|metas|, 0));
    NothingPushed(metas, was);
    for i := 0 to |metas|
      invariant buf[..] == Partial(|metas|, i, PackAll(metas[..i]), was)
    {
      NextPacked(metas, i);
      Push(buf, |metas|, i, Pack(metas[i]), PackAll(metas[..i]), was);
    }
    assert metas[..|metas|] == metas;
    Associate(Header(|metas|, |metas|), PackAll(metas), was[ListSize(|metas|)..]);
  }

  /** `ExtraAccountMetaList::init`: allocates the entry, then pushes the metas one by one,
      bumping the stored count after each. */
  method InitList(buf: array<byte>, metas: seq<Meta>, reinit: bool) returns (r: Result<()>)
    requires AllPackable(metas)
    modifies buf
    ensures r.Ok? <==> Initialized(old(buf[..]), metas, reinit).Ok?
    ensures r.Ok? ==> buf[..] == Initialized(old(buf[..]), metas, reinit).value
    ensures r.Err? ==> r.error == Initialized(old(buf[..]), metas, reinit).error && buf[..] == old(buf[..])
    ensures r.Ok? <==>
      && buf.Length >= 16 + 35 * |metas|
      && (old(buf[..8]) == Zeros(8) || (reinit && old(buf[..8]) == [105, 37, 101, 197, 75, 251, 102, 26]))
    ensures r.Err? ==>
      r.error == if !reinit && buf.Length >= 8 && old(buf[..8]) == [105, 37, 101, 197, 75, 251, 102, 26] then
        ListAlreadyInitialized else InvalidAccountData
  {
    assert EXECUTE[0] != Zeros(8)[0];
    if buf.Length < 8 {
      return Err(InvalidAccountData);
    }
    if buf[..8] == EXECUTE && !reinit {
      return Err(ListAlreadyInitialized);
    }
    if buf[..8] != EXECUTE && buf[..8] != Zeros(8) {
      return Err(InvalidAccountData);
    }
    if buf.Length < ListSize(|metas|) {
      return Err(InvalidAccountData);
    }
    PushAll(buf, metas);
    r := Ok(());
  }
}
