/** The accounts as mutable state, and the instructions as they change it step by step, each
    rolled back if it fails. */
module Bank {
  import opened Bytes
  import opened Results
  import opened Keys
  import opened Metas
  import opened ListLayout
  import opened Program
  import opened Registry

  /** Accounts as `init` leaves them, all zeros after the discriminator. */
  const BLANK_CONFIG: HookConfig := HookConfig(DEFAULT, DEFAULT, DEFAULT, DEFAULT, 0, DEFAULT)
  const BLANK_ENTRY: WhitelistEntry := WhitelistEntry(DEFAULT, 0)

  lemma PutTwice(s: State, w: World, a: Key, first: Data, second: Data)
    ensures Put(Put(s, w, a, first), w, a, second) == Put(s, w, a, second)
  {
    assert s.accounts[a := Account(w.program, first)][a := Account(w.program, second)]
        == s.accounts[a := Account(w.program, second)];
  }

  class Ledger {
    const world: World
    var accounts: map<Key, Account>
    var mints: map<Key, Mint>
    var tokens: map<Key, TokenAccount>
    var funded: set<Key>
    var clock: int

    constructor (world: World, start: State)
      ensures this.world == world && Snapshot() == start
    {
      this.world := world;
      accounts, mints, tokens := start.accounts, start.mints, start.tokens;
      funded, clock := start.funded, start.clock;
    }

    function Snapshot(): State
      reads this
    {
      State(accounts, mints, tokens, funded, clock)
    }

    /** The outcome is the expected one, and a failure changes nothing. */
    ghost predicate Performed(before: State, after: State, expected: Result<State>, r: Result<()>)
    {
      match expected
      case Ok(t) => r.Ok? && after == t
      case Err(error) => r.Err? && r.error == error && after == before
    }

    /** On proper accounts the outcome is what the table says: who may do it, what becomes of
        the mint's row, and that every other row and account stays; the accounts stay proper; and
        a refused call reports the first thing wrong with it. */
    ghost predicate Enacted(before: State, after: State, signers: set<Key>, i: Instruction, r: Result<()>)
    {
      world.Separated() && Inv(world, before) && InstructionInPlay(world, i) ==>
        && Enacts(world, before, after, signers, i, r.Ok?)
        && (r.Err? ==> r.error == Refusal(world, before, signers, i))
    }

    lemma Enacting(before: State, signers: set<Key>, i: Instruction)
      ensures world.Separated() && Inv(world, before) && InstructionInPlay(world, i) ==>
        && Refines(world, before, signers, i)
        && (InstructionResult(world, before, signers, i).Err? ==>
             InstructionResult(world, before, signers, i).error == Refusal(world, before, signers, i))
    {
      if world.Separated() && Inv(world, before) && InstructionInPlay(world, i) {
        InstructionRefines(world, before, signers, i);
        RefusalReported(world, before, signers, i);
      }
    }

    lemma PerformedEnacts(before: State, after: State, signers: set<Key>, i: Instruction, r: Result<()>)
      requires Performed(before, after, InstructionResult(world, before, signers, i), r)
      ensures Enacted(before, after, signers, i, r)
    {
      Enacting(before, signers, i);
    }

    method Store(a: Key, data: Data)
      modifies this`accounts
      ensures Snapshot() == Put(old(Snapshot()), world, a, data)
    {
      accounts := accounts[a := Account(world.program, data)];
    }

    /** The account constraints of config initialisation. `init` creates a blank config before
        the mint's authority is checked; if that fails, the creation is undone. */
    method CreateConfig(signers: set<Key>, i: Instruction) returns (r: Result<()>)
      requires i.InitializeConfig?
      modifies this`accounts
      ensures var expected := InitializeConfigResult(world, old(Snapshot()), signers, i);
        && (r.Ok? <==> expected.Ok?)
        && (r.Ok? ==> Snapshot() == Put(old(Snapshot()), world, i.config, ConfigData(BLANK_CONFIG)))
        && (r.Err? ==> r.error == expected.error && Snapshot() == old(Snapshot()))
    {
      var signed := i.authority in signers;
      :- Require(signed, NotSigner);
      :- Require(i.mint in mints, AccountNotInitialized);
      :- Require(i.config == world.Find(Seeds(ConfigSeed(i.mint)), world.program), ConstraintSeeds);
      :- Require(i.config !in accounts, AccountAlreadyInUse);
      var saved := accounts;
      Store(i.config, ConfigData(BLANK_CONFIG));
      if mints[i.mint].mintAuthority != Some(i.authority) {
        accounts := saved;
        return Err(UnauthorizedMintAuthority);
      }
      r := Ok(());
    }

    method InitializeConfig(signers: set<Key>, authority: Key, config: Key, mint: Key,
                            credential: Key, schema: Key, sasProgram: Key)
      returns (r: Result<()>)
      modifies this`accounts
      ensures var i := Instruction.InitializeConfig(authority, config, mint, credential, schema, sasProgram);
        && Performed(old(Snapshot()), Snapshot(), InitializeConfigResult(world, old(Snapshot()), signers, i), r)
        && Enacted(old(Snapshot()), Snapshot(), signers, i, r)
    {
      var i := Instruction.InitializeConfig(authority, config, mint, credential, schema, sasProgram);
      r := CreateConfig(signers, i);
      if r.Ok? {
        var account := BLANK_CONFIG;
        account := account.(authority := authority);
        account := account.(credential := credential);
        account := account.(schema := schema);
        account := account.(sasProgram := sasProgram);
        account := account.(bump := world.Bump(ConfigSeed(mint)));
        Store(config, ConfigData(account));
        PutTwice(old(Snapshot()), world, config, ConfigData(BLANK_CONFIG), ConfigData(account));
      }
      PerformedEnacts(old(Snapshot()), Snapshot(), signers, i, r);
    }

    method Buffer(bytes: seq<byte>) returns (buf: array<byte>)
      ensures fresh(buf) && buf[..] == bytes
    {
      buf := new byte[|bytes|](i requires 0 <= i < |bytes| => bytes[i]);
    }

    method InitializeList(signers: set<Key>, payer: Key, list: Key, mint: Key, config: Key)
      returns (r: Result<()>)
      modifies this`accounts
      ensures var i := Instruction.InitializeList(payer, list, mint, config);
        && Performed(old(Snapshot()), Snapshot(), InitializeListResult(world, old(Snapshot()), signers, i), r)
        && Enacted(old(Snapshot()), Snapshot(), signers, i, r)
    {
      ghost var i := Instruction.InitializeList(payer, list, mint, config);
      Enacting(Snapshot(), signers, i);
      var signed := payer in signers;
      :- Require(signed, NotSigner);
      :- Require(mint in mints, AccountNotInitialized);
      var c :- LoadConfig(world, Snapshot(), config);
      :- Require(payer == c.authority, Unauthorized);
      :- Require(list == world.Pda(ListSeed(mint)), ConstraintSeeds);
      :- Require(config == world.Addr(ConfigSeed(mint), c.bump), ConstraintSeeds);
      r := CreateAndWrite(list, c);
    }

    /** The list data after initialisation, which writes its copy of the list over the data
        it finds. */
    method InitialListData(data: seq<byte>, c: HookConfig) returns (r: Result<seq<byte>>)
      ensures r == WrittenList(data, c.credential, c.schema, c.sasProgram, world.reinit)
    {
      var metas := [
        Meta(HookPda([Literal(CONFIG_SEED), AccountKey(1)]), false, false),
        Meta(FixedKey(c.credential), false, false),
        Meta(FixedKey(c.schema), false, false),
        Meta(FixedKey(c.sasProgram), false, false),
        Meta(ExternalPda(8, [Literal(ATTESTATION_SEED), AccountKey(6), AccountKey(7), AccountKey(3)]), false, false),
        Meta(HookPda([Literal(WHITELIST_SEED), AccountKey(1), AccountKey(3)]), false, false)
      ];
      ProgramListPackable(c.credential, c.schema, c.sasProgram);
      assert metas == MetasFor(c.credential, c.schema, c.sasProgram);
      var buf := Buffer(data);
      var done := InitList(buf, metas, world.reinit);
      if done.Err? {
        return Err(done.error);
      }
      r := Ok(buf[..]);
    }

    /** The list data after an update, which zeroes the data it finds and writes its own copy
        of the list. */
    method UpdatedListData(data: seq<byte>, c: HookConfig) returns (r: Result<seq<byte>>)
      ensures r == WrittenList(Zeros(|data|), c.credential, c.schema, c.sasProgram, world.reinit)
    {
      var metas := [
        Meta(HookPda([Literal(CONFIG_SEED), AccountKey(1)]), false, false),
        Meta(FixedKey(c.credential), false, false),
        Meta(FixedKey(c.schema), false, false),
        Meta(FixedKey(c.sasProgram), false, false),
        Meta(ExternalPda(8, [Literal(ATTESTATION_SEED), AccountKey(6), AccountKey(7), AccountKey(3)]), false, false),
        Meta(HookPda([Literal(WHITELIST_SEED), AccountKey(1), AccountKey(3)]), false, false)
      ];
      ProgramListPackable(c.credential, c.schema, c.sasProgram);
      assert metas == MetasFor(c.credential, c.schema, c.sasProgram);
      var buf := Buffer(data);
      FillZero(buf);
      var done := InitList(buf, metas, world.reinit);
      if done.Err? {
        return Err(done.error);
      }
      r := Ok(buf[..]);
    }

    /** The handler of list initialisation. */
    method CreateAndWrite(list: Key, c: HookConfig) returns (r: Result<()>)
      modifies this`accounts
      ensures Performed(old(Snapshot()), Snapshot(), CreateList(world, old(Snapshot()), list, c), r)
    {
      var saved := accounts;
      var data :- CreateIfEmpty(list);
      r := WriteList(list, data, c);
      if r.Err? {
        accounts := saved;
      }
    }

    /** The data of a list account, after creating the account if there is none. */
    method CreateIfEmpty(list: Key) returns (r: Result<seq<byte>>)
      modifies this`accounts
      ensures var found := old(BytesAt(Snapshot(), list));
        if found != [] then r == Ok(found) && Snapshot() == old(Snapshot())
        else if old(list in accounts || list in funded) then
          r == Err(AccountAlreadyInUse) && Snapshot() == old(Snapshot())
        else
          r == Ok(Zeros(ListSize(6))) && Snapshot() == Put(old(Snapshot()), world, list, RawData(Zeros(ListSize(6))))
    {
      var data := BytesAt(Snapshot(), list);
      if data == [] {
        :- Require(list !in accounts && list !in funded, AccountAlreadyInUse);
        data := Zeros(ListSize(6));
        Store(list, RawData(data));
      }
      r := Ok(data);
    }

    /** Writes the list over an account's data, which only the account's owner may do. */
    method WriteList(list: Key, data: seq<byte>, c: HookConfig) returns (r: Result<()>)
      requires list in accounts
      modifies this`accounts
      ensures var after := WrittenList(data, c.credential, c.schema, c.sasProgram, world.reinit);
        if after.Err? then r == Err(after.error) && Snapshot() == old(Snapshot())
        else if old(OwnerAt(Snapshot(), list)) != world.program then
          r == Err(ExternalAccountDataModified) && Snapshot() == old(Snapshot())
        else r == Ok(()) && Snapshot() == Put(old(Snapshot()), world, list, RawData(after.value))
    {
      var written :- InitialListData(data, c);
      :- Require(accounts[list].owner == world.program, ExternalAccountDataModified);
      Store(list, RawData(written));
      r := Ok(());
    }

    method UpdateConfig(signers: set<Key>, authority: Key, config: Key, mint: Key, list: Key,
                        credential: Key, schema: Key, sasProgram: Key)
      returns (r: Result<()>)
      modifies this`accounts
      ensures var i := Instruction.UpdateConfig(authority, config, mint, list, credential, schema, sasProgram);
        && Performed(old(Snapshot()), Snapshot(), UpdateConfigResult(world, old(Snapshot()), signers, i), r)
        && Enacted(old(Snapshot()), Snapshot(), signers, i, r)
    {
      ghost var i := Instruction.UpdateConfig(authority, config, mint, list, credential, schema, sasProgram);
      Enacting(Snapshot(), signers, i);
      var signed := authority in signers;
      :- Require(signed, NotSigner);
      var c :- LoadConfig(world, Snapshot(), config);
      :- Require(mint in mints, AccountNotInitialized);
      :- Require(authority == c.authority, ConstraintRaw);
      :- Require(config == world.Addr(ConfigSeed(mint), c.bump), ConstraintSeeds);
      :- Require(list == world.Pda(ListSeed(mint)), ConstraintSeeds);
      var saved := accounts;
      c := c.(credential := credential);
      c := c.(schema := schema);
      c := c.(sasProgram := sasProgram);
      Store(config, ConfigData(c));
      r := ZeroAndWrite(list, c);
      if r.Err? {
        accounts := saved;
      }
    }

    /** The second half of the update handler. */
    method ZeroAndWrite(list: Key, c: HookConfig) returns (r: Result<()>)
      modifies this`accounts
      ensures Performed(old(Snapshot()), Snapshot(), RewriteList(world, old(Snapshot()), list, c), r)
    {
      var written :- UpdatedListData(BytesAt(Snapshot(), list), c);
      :- Require(OwnerAt(Snapshot(), list) == world.program, ExternalAccountDataModified);
      Store(list, RawData(written));
      r := Ok(());
    }

    /** The account constraints of a whitelist addition. `init` creates a blank entry before the
        config's seeds and authority are checked; if that fails, the creation is undone. */
    method CreateEntry(signers: set<Key>, i: Instruction) returns (r: Result<()>)
      requires i.AddToWhitelist?
      modifies this`accounts
      ensures var expected := AddToWhitelistResult(world, old(Snapshot()), signers, i);
        && (r.Ok? <==> expected.Ok?)
        && (r.Ok? ==> Snapshot() == Put(old(Snapshot()), world, i.entry, EntryData(BLANK_ENTRY)))
        && (r.Err? ==> r.error == expected.error && Snapshot() == old(Snapshot()))
    {
      var signed := i.authority in signers;
      :- Require(signed, NotSigner);
      var c :- LoadConfig(world, Snapshot(), i.config);
      :- Require(i.mint in mints, AccountNotInitialized);
      :- Require(i.entry == world.Find(Seeds(WhitelistSeed(i.mint, i.wallet)), world.program), ConstraintSeeds);
      :- Require(i.entry !in accounts, AccountAlreadyInUse);
      var saved := accounts;
      Store(i.entry, EntryData(BLANK_ENTRY));
      if i.config != world.Addr(ConfigSeed(i.mint), c.bump) {
        accounts := saved;
        return Err(ConstraintSeeds);
      }
      if i.authority != c.authority {
        accounts := saved;
        return Err(ConstraintRaw);
      }
      r := Ok(());
    }

    method AddToWhitelist(signers: set<Key>, authority: Key, config: Key, entry: Key, mint: Key, wallet: Key)
      returns (r: Result<()>)
      modifies this`accounts
      ensures var i := Instruction.AddToWhitelist(authority, config, entry, mint, wallet);
        && Performed(old(Snapshot()), Snapshot(), AddToWhitelistResult(world, old(Snapshot()), signers, i), r)
        && Enacted(old(Snapshot()), Snapshot(), signers, i, r)
    {
      var i := Instruction.AddToWhitelist(authority, config, entry, mint, wallet);
      r := CreateEntry(signers, i);
      if r.Ok? {
        var account := BLANK_ENTRY;
        account := account.(wallet := wallet);
        account := account.(bump := world.Bump(WhitelistSeed(mint, wallet)));
        Store(entry, EntryData(account));
        PutTwice(old(Snapshot()), world, entry, EntryData(BLANK_ENTRY), EntryData(account));
      }
      PerformedEnacts(old(Snapshot()), Snapshot(), signers, i, r);
    }

    method RemoveFromWhitelist(signers: set<Key>, authority: Key, config: Key, entry: Key, mint: Key, wallet: Key)
      returns (r: Result<()>)
      modifies this`accounts
      ensures var i := Instruction.RemoveFromWhitelist(authority, config, entry, mint, wallet);
        && Performed(old(Snapshot()), Snapshot(), RemoveFromWhitelistResult(world, old(Snapshot()), signers, i), r)
        && Enacted(old(Snapshot()), Snapshot(), signers, i, r)
    {
      ghost var i := Instruction.RemoveFromWhitelist(authority, config, entry, mint, wallet);
      Enacting(Snapshot(), signers, i);
      var signed := authority in signers;
      :- Require(signed, NotSigner);
      var c :- LoadConfig(world, Snapshot(), config);
      var e :- LoadEntry(world, Snapshot(), entry);
      :- Require(mint in mints, AccountNotInitialized);
      :- Require(config == world.Addr(ConfigSeed(mint), c.bump), ConstraintSeeds);
      :- Require(authority == c.authority, ConstraintRaw);
      :- Require(entry == world.Addr(WhitelistSeed(mint, wallet), e.bump), ConstraintSeeds);
      accounts := accounts - {entry};
      r := Ok(());
    }

    method TransferAuthority(signers: set<Key>, authority: Key, newAuthority: Key, config: Key, mint: Key)
      returns (r: Result<()>)
      modifies this`accounts
      ensures var i := Instruction.TransferAuthority(authority, newAuthority, config, mint);
        && Performed(old(Snapshot()), Snapshot(), TransferAuthorityResult(world, old(Snapshot()), signers, i), r)
        && Enacted(old(Snapshot()), Snapshot(), signers, i, r)
    {
      ghost var i := Instruction.TransferAuthority(authority, newAuthority, config, mint);
      Enacting(Snapshot(), signers, i);
      var signed := authority in signers;
      :- Require(signed, NotSigner);
      var c :- LoadConfig(world, Snapshot(), config);
      :- Require(mint in mints, AccountNotInitialized);
      :- Require(authority == c.authority, ConstraintRaw);
      :- Require(config == world.Addr(ConfigSeed(mint), c.bump), ConstraintSeeds);
      c := c.(pendingAuthority := newAuthority);
      Store(config, ConfigData(c));
      r := Ok(());
    }

    method AcceptAuthority(signers: set<Key>, pendingAuthority: Key, config: Key, mint: Key)
      returns (r: Result<()>)
      modifies this`accounts
      ensures var i := Instruction.AcceptAuthority(pendingAuthority, config, mint);
        && Performed(old(Snapshot()), Snapshot(), AcceptAuthorityResult(world, old(Snapshot()), signers, i), r)
        && Enacted(old(Snapshot()), Snapshot(), signers, i, r)
    {
      ghost var i := Instruction.AcceptAuthority(pendingAuthority, config, mint);
      Enacting(Snapshot(), signers, i);
      var signed := pendingAuthority in signers;
      :- Require(signed, NotSigner);
      var c :- LoadConfig(world, Snapshot(), config);
      :- Require(mint in mints, AccountNotInitialized);
      :- Require(pendingAuthority == c.pendingAuthority, NoPendingAuthority);
      :- Require(config == world.Addr(ConfigSeed(mint), c.bump), ConstraintSeeds);
      :- Require(c.pendingAuthority != DEFAULT, NoPendingAuthority);
      c := c.(authority := c.pendingAuthority);
      c := c.(pendingAuthority := DEFAULT);
      Store(config, ConfigData(c));
      r := Ok(());
    }

    method Dispatch(signers: set<Key>, i: Instruction) returns (r: Result<()>)
      modifies this`accounts
      ensures Performed(old(Snapshot()), Snapshot(), InstructionResult(world, old(Snapshot()), signers, i), r)
      ensures Enacted(old(Snapshot()), Snapshot(), signers, i, r)
    {
      match i
      case InitializeConfig(authority, config, mint, credential, schema, sasProgram) =>
        r := InitializeConfig(signers, authority, config, mint, credential, schema, sasProgram);
      case InitializeList(payer, list, mint, config) =>
        r := InitializeList(signers, payer, list, mint, config);
      case UpdateConfig(authority, config, mint, list, credential, schema, sasProgram) =>
        r := UpdateConfig(signers, authority, config, mint, list, credential, schema, sasProgram);
      case AddToWhitelist(authority, config, entry, mint, wallet) =>
        r := AddToWhitelist(signers, authority, config, entry, mint, wallet);
      case RemoveFromWhitelist(authority, config, entry, mint, wallet) =>
        r := RemoveFromWhitelist(signers, authority, config, entry, mint, wallet);
      case TransferAuthority(authority, newAuthority, config, mint) =>
        r := TransferAuthority(signers, authority, newAuthority, config, mint);
      case AcceptAuthority(pendingAuthority, config, mint) =>
        r := AcceptAuthority(signers, pendingAuthority, config, mint);
    }

    method Perform(step: Step)
      modifies this
      ensures Snapshot() == After(world, old(Snapshot()), step)
    {
      match step
      case Call(signers, i) => var _ := Dispatch(signers, i);
      case Deposit(a, account) => accounts := accounts[a := account];
      case Withdraw(a) => accounts := accounts - {a};
      case Fund(a) => funded := funded + {a};
      case SetMint(a, mint) => mints := mints[a := mint];
      case CloseMint(a) => mints := mints - {a};
      case SetToken(a, token) => tokens := tokens[a := token];
      case CloseToken(a) => tokens := tokens - {a};
      case Tick(seconds) => clock := clock + seconds;
    }

    /** Performing a run's steps one after the other leads where the run is said to lead. */
    method Replay(steps: seq<Step>)
      modifies this
      ensures Snapshot() == Run(world, old(Snapshot()), steps)
    {
      assert steps[..0] == [];
      for k := 0 to |steps|
        invariant Snapshot() == Run(world, old(Snapshot()), steps[..k])
      {
        assert steps[..k + 1][..k] == steps[..k];
        Perform(steps[k]);
      }
      assert steps[..|steps|] == steps;
    }
  }
}
