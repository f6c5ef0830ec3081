/** The extra-account-meta list: what its entries mean, the list this program stores, and the
    resolver that turns it into accounts. */
module Metas {
  import opened Bytes
  import opened Results
  import opened Keys

  datatype Seed =
    | Literal(bytes: seq<byte>)
    | AccountKey(index: byte)

  datatype AddressConfig =
    | FixedKey(key: Key)
    | HookPda(seeds: seq<Seed>)
    | ExternalPda(programIndex: byte, seeds: seq<Seed>)

  datatype Meta = Meta(address: AddressConfig, isSigner: bool, isWritable: bool)

  function ReadOnly(address: AddressConfig): Meta
  {
    Meta(address, false, false)
  }

  /** The list for a credential, schema and SAS program, in the order of indices 5 to 10. */
  function MetasFor(credential: Key, schema: Key, sasProgram: Key): seq<Meta>
  {
    [ ReadOnly(HookPda([Literal(CONFIG_SEED), AccountKey(1)])),
      ReadOnly(FixedKey(credential)),
      ReadOnly(FixedKey(schema)),
      ReadOnly(FixedKey(sasProgram)),
      ReadOnly(ExternalPda(8, [Literal(ATTESTATION_SEED), AccountKey(6), AccountKey(7), AccountKey(3)])),
      ReadOnly(HookPda([Literal(WHITELIST_SEED), AccountKey(1), AccountKey(3)])) ]
  }

  // ---------------------------------------------------------------- resolution

  function SeedBytes(seeds: seq<Seed>, accounts: seq<Key>): Option<seq<byte>>
  {
    if seeds == [] then Some([])
    else match seeds[0]
      case Literal(bytes) =>
        (match SeedBytes(seeds[1..], accounts)
         case None => None
         case Some(rest) => Some(bytes + rest))
      case AccountKey(i) =>
        if i >= |accounts| then None
        else match SeedBytes(seeds[1..], accounts)
          case None => None
          case Some(rest) => Some(accounts[i] + rest)
  }

  /** The account an entry stands for, given the accounts resolved before it. */
  function ResolveOne(w: World, a: AddressConfig, accounts: seq<Key>): Option<Key>
  {
    match a
    case FixedKey(key) => Some(key)
    case HookPda(seeds) =>
      (match SeedBytes(seeds, accounts)
       case None => None
       case Some(bytes) => Some(w.Find(bytes, w.program)))
    case ExternalPda(p, seeds) =>
      if p >= |accounts| then None
      else match SeedBytes(seeds, accounts)
        case None => None
        case Some(bytes) => Some(w.Find(bytes, accounts[p]))
  }

  /** One left-to-right pass over the list, appending to the accounts already there. */
  function Resolve(w: World, metas: seq<Meta>, accounts: seq<Key>): Option<seq<Key>>
    decreases |metas|
  {
    if metas == [] then Some(accounts)
    else match ResolveOne(w, metas[0].address, accounts)
      case None => None
      case Some(key) => Resolve(w, metas[1..], accounts + [key])
  }

  predicate SeedsBackward(seeds: seq<Seed>, position: nat)
  {
    forall i :: 0 <= i < |seeds| && seeds[i].AccountKey? ==> seeds[i].index < position
  }

  predicate Backward(a: AddressConfig, position: nat)
  {
    match a
    case FixedKey(_) => true
    case HookPda(seeds) => SeedsBackward(seeds, position)
    case ExternalPda(p, seeds) => p < position && SeedsBackward(seeds, position)
  }

  /** Every index in the list refers to an account before the entry that mentions it. */
  predicate AllBackward(metas: seq<Meta>, position: nat)
  {
    forall i :: 0 <= i < |metas| ==> Backward(metas[i].address, position + i)
  }

  lemma {:induction false} SeedBytesDefined(seeds: seq<Seed>, accounts: seq<Key>)
    ensures SeedBytes(seeds, accounts).Some? <==> SeedsBackward(seeds, |accounts|)
  {
    if seeds != [] {
      SeedBytesDefined(seeds[1..], accounts);
      assert forall i :: 1 <= i < |seeds| ==> seeds[i] == seeds[1..][i - 1];
    }
  }

  /** A single pass is total on a list exactly when its indices all point backward. */
  lemma {:induction false} SinglePassTotal(w: World, metas: seq<Meta>, accounts: seq<Key>)
    ensures Resolve(w, metas, accounts).Some? <==> AllBackward(metas, |accounts|)
    decreases |metas|
  {
    if metas != [] {
      var a := metas[0].address;
      if !a.FixedKey? { SeedBytesDefined(a.seeds, accounts); }
      assert ResolveOne(w, a, accounts).Some? <==> Backward(a, |accounts| + 0);
      assert forall i :: 1 <= i < |metas| ==> metas[i] == metas[1..][i - 1];
      if ResolveOne(w, a, accounts).Some? {
        SinglePassTotal(w, metas[1..], accounts + [ResolveOne(w, a, accounts).value]);
      }
    }
  }

  /** The eleven accounts of the hook when its list is the one for these keys. */
  function HookAccounts(w: World, credential: Key, schema: Key, sasProgram: Key, first: seq<Key>): seq<Key>
    requires |first| == 5
  {
    first + [
      w.Pda(ConfigSeed(first[1])),
      credential,
      schema,
      sasProgram,
      w.Find(Seeds(AttestationSeed(credential, schema, first[3])), sasProgram),
      w.Pda(WhitelistSeed(first[1], first[3])) ]
  }

  /** The keys at the given positions, concatenated. */
  function KeyBytes(indices: seq<byte>, accounts: seq<Key>): seq<byte>
    requires forall i :: 0 <= i < |indices| ==> indices[i] < |accounts|
  {
    if indices == [] then [] else accounts[indices[0]] + KeyBytes(indices[1..], accounts)
  }

  function KeySeeds(indices: seq<byte>): (seeds: seq<Seed>)
    ensures |seeds| == |indices|
    ensures forall i :: 0 <= i < |indices| ==> seeds[i] == AccountKey(indices[i])
  {
    if indices == [] then [] else [AccountKey(indices[0])] + KeySeeds(indices[1..])
  }

  lemma {:induction false} KeySeedBytes(indices: seq<byte>, accounts: seq<Key>)
    requires forall i :: 0 <= i < |indices| ==> indices[i] < |accounts|
    ensures SeedBytes(KeySeeds(indices), accounts) == Some(KeyBytes(indices, accounts))
  {
    if indices != [] {
      KeySeedBytes(indices[1..], accounts);
      assert KeySeeds(indices)[1..] == KeySeeds(indices[1..]);
    }
  }

  lemma LiteralThenKeys(literal: seq<byte>, indices: seq<byte>, accounts: seq<Key>)
    requires forall i :: 0 <= i < |indices| ==> indices[i] < |accounts|
    ensures SeedBytes([Literal(literal)] + KeySeeds(indices), accounts)
         == Some(literal + KeyBytes(indices, accounts))
  {
    KeySeedBytes(indices, accounts);
    var seeds := [Literal(literal)] + KeySeeds(indices);
    assert seeds[1..] == KeySeeds(indices);
  }

  /** If every entry stands for the next account of `out`, the list resolves to `out`. */
  lemma {:induction false} ResolveChain(w: World, metas: seq<Meta>, out: seq<Key>, start: nat)
    requires |out| == start + |metas|
    requires forall i :: 0 <= i < |metas| ==>
      ResolveOne(w, metas[i].address, out[..start + i]) == Some(out[start + i])
    ensures Resolve(w, metas, out[..start]) == Some(out)
    decreases |metas|
  {
    if metas == [] {
      assert out[..start] == out;
    } else {
      assert ResolveOne(w, metas[0].address, out[..start + 0]) == Some(out[start + 0]);
      assert out[..start + 1] == out[..start] + [out[start]];
      forall i | 0 <= i < |metas| - 1
        ensures ResolveOne(w, metas[1..][i].address, out[..start + 1 + i]) == Some(out[start + 1 + i])
      {
        assert metas[1..][i] == metas[i + 1] && start + 1 + i == start + (i + 1);
      }
      ResolveChain(w, metas[1..], out, start + 1);
    }
  }

  /** The derived entries of the list flatten to the seeds of their families. */
  lemma ConfigEntrySeeds(accounts: seq<Key>)
    requires |accounts| == 5
    ensures SeedBytes([Literal(CONFIG_SEED), AccountKey(1)], accounts) == Some(Seeds(ConfigSeed(accounts[1])))
  {
    var one: seq<byte> := [1];
    LiteralThenKeys(CONFIG_SEED, one, accounts);
    assert [Literal(CONFIG_SEED), AccountKey(1)] == [Literal(CONFIG_SEED)] + KeySeeds(one);
    KeyPair([], 1, accounts);
    assert CONFIG_SEED + (accounts[1] + []) == CONFIG_SEED + accounts[1];
  }

  lemma WhitelistEntrySeeds(accounts: seq<Key>)
    requires |accounts| == 10
    ensures SeedBytes([Literal(WHITELIST_SEED), AccountKey(1), AccountKey(3)], accounts)
         == Some(Seeds(WhitelistSeed(accounts[1], accounts[3])))
  {
    var two: seq<byte> := [1, 3];
    LiteralThenKeys(WHITELIST_SEED, two, accounts);
    assert [Literal(WHITELIST_SEED), AccountKey(1), AccountKey(3)] == [Literal(WHITELIST_SEED)] + KeySeeds(two);
    KeyPair([3], 1, accounts);
    KeyPair([], 3, accounts);
    var mint: seq<byte>, wallet: seq<byte> := accounts[1], accounts[3];
    assert WHITELIST_SEED + (mint + (wallet + [])) == WHITELIST_SEED + mint + wallet;
  }

  lemma AttestationEntrySeeds(accounts: seq<Key>)
    requires |accounts| == 9
    ensures SeedBytes([Literal(ATTESTATION_SEED), AccountKey(6), AccountKey(7), AccountKey(3)], accounts)
         == Some(Seeds(AttestationSeed(accounts[6], accounts[7], accounts[3])))
  {
    var three: seq<byte> := [6, 7, 3];
    LiteralThenKeys(ATTESTATION_SEED, three, accounts);
    assert [Literal(ATTESTATION_SEED), AccountKey(6), AccountKey(7), AccountKey(3)]
        == [Literal(ATTESTATION_SEED)] + KeySeeds(three);
    KeyPair([7, 3], 6, accounts);
    KeyPair([3], 7, accounts);
    KeyPair([], 3, accounts);
    var credential: seq<byte>, schema: seq<byte>, nonce: seq<byte> := accounts[6], accounts[7], accounts[3];
    assert ATTESTATION_SEED + (credential + (schema + (nonce + [])))
        == ATTESTATION_SEED + credential + schema + nonce;
  }

  lemma KeyPair(rest: seq<byte>, first: byte, accounts: seq<Key>)
    requires first < |accounts| && forall i :: 0 <= i < |rest| ==> rest[i] < |accounts|
    ensures KeyBytes([first] + rest, accounts) == accounts[first] + KeyBytes(rest, accounts)
    ensures KeyBytes([], accounts) == []
  {
    assert ([first] + rest)[1..] == rest;
  }

  /** Each entry resolves, from the accounts before it, to the account at its position. */
  lemma EntryResolves(w: World, credential: Key, schema: Key, sasProgram: Key, first: seq<Key>, i: nat)
    requires |first| == 5 && i < 6
    ensures var out := HookAccounts(w, credential, schema, sasProgram, first);
      ResolveOne(w, MetasFor(credential, schema, sasProgram)[i].address, out[..5 + i]) == Some(out[5 + i])
  {
    var out := HookAccounts(w, credential, schema, sasProgram, first);
    if i == 0 {
      ConfigEntrySeeds(out[..5]);
    } else if i == 4 {
      AttestationEntrySeeds(out[..9]);
    } else if i == 5 {
      WhitelistEntrySeeds(out[..10]);
    }
  }

  /** For any first five accounts the program's list resolves to the accounts that the
      hook's account struct names at positions 5 to 10. */
  lemma ProgramListResolves(w: World, credential: Key, schema: Key, sasProgram: Key, first: seq<Key>)
    requires |first| == 5
    ensures Resolve(w, MetasFor(credential, schema, sasProgram), first)
         == Some(HookAccounts(w, credential, schema, sasProgram, first))
    ensures AllBackward(MetasFor(credential, schema, sasProgram), 5)
  {
    var metas := MetasFor(credential, schema, sasProgram);
    var out := HookAccounts(w, credential, schema, sasProgram, first);
    assert out[..5] == first;
    forall i | 0 <= i < |metas|
      ensures ResolveOne(w, metas[i].address, out[..5 + i]) == Some(out[5 + i])
    {
      EntryResolves(w, credential, schema, sasProgram, first, i);
    }
    ResolveChain(w, metas, out, 5);
  }
}
