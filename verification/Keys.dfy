/** Public keys, the seed strings of the four address families, and derived addresses. */
module Keys {
  import opened Bytes

  type Key = k: seq<byte> | |k| == 32 witness Zeros(32)

  /** `Pubkey::default()`, which is also the id of the system program. */
  const DEFAULT: Key := Zeros(32)

  const CONFIG_SEED: seq<byte> := [99, 111, 110, 102, 105, 103] // config
  const LIST_SEED: seq<byte> :=  // extra-account-metas
    [101, 120, 116, 114, 97, 45, 97, 99, 99, 111, 117, 110, 116, 45, 109, 101, 116, 97, 115]
  const WHITELIST_SEED: seq<byte> := [119, 104, 105, 116, 101, 108, 105, 115, 116] // whitelist
  const ATTESTATION_SEED: seq<byte> := [97, 116, 116, 101, 115, 116, 97, 116, 105, 111, 110] // attestation

  /** What a derived address is derived from, before it is flattened into bytes. */
  datatype SeedUse =
    | ConfigSeed(mint: Key)
    | ListSeed(mint: Key)
    | WhitelistSeed(mint: Key, wallet: Key)
    | AttestationSeed(credential: Key, schema: Key, nonce: Key)

  /** The seeds as the runtime hashes them: concatenated, with no separators. */
  function Seeds(u: SeedUse): seq<byte>
  {
    match u
    case ConfigSeed(mint) => CONFIG_SEED + mint
    case ListSeed(mint) => LIST_SEED + mint
    case WhitelistSeed(mint, wallet) => WHITELIST_SEED + mint + wallet
    case AttestationSeed(credential, schema, nonce) => ATTESTATION_SEED + credential + schema + nonce
  }

  /** The bytes of a text of plain letters. */
  function Ascii(s: string): (bs: seq<byte>)
    ensures |bs| == |s|
  {
    seq(|s|, i requires 0 <= i < |s| => s[i] as int % 256)
  }

  /** The seed strings, written out. */
  lemma SeedsWrittenOut(mint: Key, wallet: Key, credential: Key, schema: Key, nonce: Key)
    ensures Seeds(ConfigSeed(mint)) == Ascii("config") + mint
    ensures Seeds(ListSeed(mint)) == Ascii("extra-account-metas") + mint
    ensures Seeds(WhitelistSeed(mint, wallet)) == Ascii("whitelist") + mint + wallet
    ensures Seeds(AttestationSeed(credential, schema, nonce)) == Ascii("attestation") + credential + schema + nonce
    ensures forall i :: 0 <= i < 32 ==> DEFAULT[i] == 0
  {
    assert CONFIG_SEED == Ascii("config");
    assert LIST_SEED == Ascii("extra-account-metas");
    assert WHITELIST_SEED == Ascii("whitelist");
    assert ATTESTATION_SEED == Ascii("attestation");
  }

  /** The families are told apart, and their keys recovered, from the flattened bytes
      followed by a bump byte. */
  lemma SeedFamiliesSeparate(u: SeedUse, b: byte, v: SeedUse, c: byte)
    requires Seeds(u) + [b] == Seeds(v) + [c]
    ensures u == v && b == c
  {
    var s, t := Seeds(u) + [b], Seeds(v) + [c];
    assert s[|s| - 1] == b && t[|t| - 1] == c;
    assert s[..|s| - 1] == Seeds(u) && t[..|t| - 1] == Seeds(v);
    match u
    case ConfigSeed(m) =>
      assert Seeds(u)[6..] == m;
      assert v.ConfigSeed? && Seeds(v)[6..] == v.mint;
    case ListSeed(m) =>
      assert Seeds(u)[19..] == m;
      assert v.ListSeed? && Seeds(v)[19..] == v.mint;
    case WhitelistSeed(m, x) =>
      assert Seeds(u)[9..41] == m && Seeds(u)[41..] == x;
      assert v.WhitelistSeed? && Seeds(v)[9..41] == v.mint && Seeds(v)[41..] == v.wallet;
    case AttestationSeed(r, h, n) =>
      assert Seeds(u)[11..43] == r && Seeds(u)[43..75] == h && Seeds(u)[75..] == n;
      assert v.AttestationSeed? && Seeds(v)[11..43] == v.credential;
      assert Seeds(v)[43..75] == v.schema && Seeds(v)[75..] == v.nonce;
  }

  /** What the runtime and the libraries supply.
      - `create`: the address hashed from a seed string (bump included) and a program id;
      - `bump`: the canonical bump found for a seed string and a program id;
      - `program`: the hook program's own id;
      - `keys`: the finitely many keys in play in the run under study;
      - `reinit`: whether initialising a list over an initialised one is accepted. */
  datatype World = World(
    create: (seq<byte>, Key) -> Key,
    bump: (seq<byte>, Key) -> byte,
    program: Key,
    keys: set<Key>,
    reinit: bool)
  {
    /** `Pubkey::find_program_address` */
    function Find(seeds: seq<byte>, p: Key): Key
    {
      create(seeds + [bump(seeds, p)], p)
    }

    /** An address of the hook program under a given, possibly stored, bump. */
    function Addr(u: SeedUse, b: byte): Key
    {
      create(Seeds(u) + [b], program)
    }

    function Bump(u: SeedUse): byte
    {
      bump(Seeds(u), program)
    }

    /** The canonical address of the hook program for these seeds. */
    function Pda(u: SeedUse): Key
    {
      Addr(u, Bump(u))
    }

    predicate InPlay(u: SeedUse)
    {
      match u
      case ConfigSeed(mint) => mint in keys
      case ListSeed(mint) => mint in keys
      case WhitelistSeed(mint, wallet) => mint in keys && wallet in keys
      case AttestationSeed(credential, schema, nonce) => credential in keys && schema in keys && nonce in keys
    }

    /** Two different seed strings, or the same under two programs, hash to one address. */
    predicate Collide(u: SeedUse, b: byte, p: Key, v: SeedUse, c: byte, q: Key)
    {
      create(Seeds(u) + [b], p) == create(Seeds(v) + [c], q) && !(Seeds(u) + [b] == Seeds(v) + [c] && p == q)
    }

    /** No two of the finitely many seed strings built from the keys in play collide. */
    ghost predicate CollisionFree()
    {
      forall u, v, b: byte, c: byte, p, q ::
        InPlay(u) && InPlay(v) && p in keys && q in keys ==> !Collide(u, b, p, v, c, q)
    }

    ghost predicate Valid()
    {
      program in keys && program != DEFAULT && CollisionFree()
    }

    /** Addresses of the hook program determine what they were derived from. */
    ghost predicate Separated()
    {
      forall u, v, b: byte, c: byte ::
        InPlay(u) && InPlay(v) && Addr(u, b) == Addr(v, c) ==> u == v && b == c
    }

    lemma Separation()
      requires Valid()
      ensures Separated()
    {
      forall u, v, b: byte, c: byte | InPlay(u) && InPlay(v) && Addr(u, b) == Addr(v, c)
        ensures u == v && b == c
      {
        assert !Collide(u, b, program, v, c, program);
        SeedFamiliesSeparate(u, b, v, c);
      }
    }

    /** An address found for seeds in play under some program is an address of the hook
        program only if that program is the hook program and the seeds are the same. */
    lemma FoundApart(u: SeedUse, b: byte, v: SeedUse, p: Key)
      requires Valid() && InPlay(u) && InPlay(v) && p in keys
      requires Addr(u, b) == Find(Seeds(v), p)
      ensures u == v && p == program
    {
      assert !Collide(u, b, program, v, bump(Seeds(v), p), p);
      SeedFamiliesSeparate(u, b, v, bump(Seeds(v), p));
    }

    /** Some seeds in play, under some bump, give this address of the hook program. */
    ghost predicate HookAddress(a: Key)
    {
      exists u, b: byte :: InPlay(u) && Addr(u, b) == a
    }
  }

  /** A hash good enough for keys that their first bytes tell apart. */
  function SampleCreate(s: seq<byte>, p: Key): Key
  {
    var n := |s|;
    var head: seq<byte> :=
      if n == 39 then [39, s[38], p[0], s[6], 0, 0]
      else if n == 52 then [52, s[51], p[0], s[19], 0, 0]
      else if n == 74 then [74, s[73], p[0], s[9], s[41], 0]
      else if n == 108 then [108, s[107], p[0], s[11], s[43], s[75]]
      else [0, 0, 0, 0, 0, 0];
    head + Zeros(26)
  }

  /** The hypotheses on a world can be met, with as many keys in play as first bytes. */
  lemma WorldsExist(program: Key, keys: set<Key>, reinit: bool) returns (w: World)
    requires program in keys && program != DEFAULT
    requires forall k, l :: k in keys && l in keys && k[0] == l[0] ==> k == l
    ensures w.Valid() && w.program == program && w.keys == keys && w.reinit == reinit
  {
    w := World(SampleCreate, (s, p) => 255, program, keys, reinit);
    forall u, v, b: byte, c: byte, p, q | w.InPlay(u) && w.InPlay(v) && p in keys && q in keys
      ensures !w.Collide(u, b, p, v, c, q)
    {
      if SampleCreate(Seeds(u) + [b], p) == SampleCreate(Seeds(v) + [c], q) {
        SampleSeparates(w, u, b, p, v, c, q);
      }
    }
  }

  lemma SampleKeys(w: World, u: SeedUse, v: SeedUse)
    requires forall k, l :: k in w.keys && l in w.keys && k[0] == l[0] ==> k == l
    requires w.InPlay(u) && w.InPlay(v) && |Seeds(u)| == |Seeds(v)|
    requires |Seeds(u)| == 38 ==> Seeds(u)[6] == Seeds(v)[6]
    requires |Seeds(u)| == 51 ==> Seeds(u)[19] == Seeds(v)[19]
    requires |Seeds(u)| == 73 ==> Seeds(u)[9] == Seeds(v)[9] && Seeds(u)[41] == Seeds(v)[41]
    requires |Seeds(u)| == 107 ==>
      Seeds(u)[11] == Seeds(v)[11] && Seeds(u)[43] == Seeds(v)[43] && Seeds(u)[75] == Seeds(v)[75]
    ensures u == v
  {
  }

  lemma SampleSeparates(w: World, u: SeedUse, b: byte, p: Key, v: SeedUse, c: byte, q: Key)
    requires forall k, l :: k in w.keys && l in w.keys && k[0] == l[0] ==> k == l
    requires w.InPlay(u) && w.InPlay(v) && p in w.keys && q in w.keys
    requires SampleCreate(Seeds(u) + [b], p) == SampleCreate(Seeds(v) + [c], q)
    ensures Seeds(u) + [b] == Seeds(v) + [c] && p == q
  {
    var x, y := SampleCreate(Seeds(u) + [b], p), SampleCreate(Seeds(v) + [c], q);
    assert x[0] == y[0] && x[1] == y[1] && x[2] == y[2] && x[3] == y[3] && x[4] == y[4] && x[5] == y[5];
    assert |Seeds(u)| == |Seeds(v)|;
    assert u == v by { SampleKeys(w, u, v); }
  }
}
