/** The access-control table that the accounts of the hook program amount to, and the proof
    that every instruction acts on the accounts as it should act on the table. */
module Registry {
  import opened Bytes
  import opened Results
  import opened Keys
  import opened Metas
  import opened ListLayout
  import opened Program

  // ---------------------------------------------------------------- the table

  /** What the program knows about one configured mint. */
  datatype Record = Record(
    authority: Key,
    pending: Key,
    credential: Key,
    schema: Key,
    sasProgram: Key,
    listed: bool,
    whitelist: set<Key>)

  /** Who may do what. Creating a list also needs an address that nobody has funded. */
  predicate Granted(w: World, mints: map<Key, Mint>, funded: set<Key>, r: Option<Record>,
                    signers: set<Key>, i: Instruction)
  {
    && i.mint in mints
    && match i
      case InitializeConfig(authority, _, _, _, _, _) =>
        authority in signers && r.None? && mints[i.mint].mintAuthority == Some(authority)
      case InitializeList(payer, _, _, _) =>
        && payer in signers && r.Some? && payer == r.value.authority
        && (if r.value.listed then w.reinit else w.Pda(ListSeed(i.mint)) !in funded)
      case UpdateConfig(authority, _, _, _, _, _, _) =>
        authority in signers && r.Some? && authority == r.value.authority && r.value.listed
      case AddToWhitelist(authority, _, _, _, wallet) =>
        authority in signers && r.Some? && authority == r.value.authority && wallet !in r.value.whitelist
      case RemoveFromWhitelist(authority, _, _, _, wallet) =>
        authority in signers && r.Some? && authority == r.value.authority && wallet in r.value.whitelist
      case TransferAuthority(authority, _, _, _) =>
        authority in signers && r.Some? && authority == r.value.authority
      case AcceptAuthority(pending, _, _) =>
        pending in signers && r.Some? && pending == r.value.pending && pending != DEFAULT
  }

  /** The accounts passed are the canonical ones of the instruction's mint. */
  predicate WellAddressed(w: World, i: Instruction)
  {
    && i.config == w.Pda(ConfigSeed(i.mint))
    && (i.InitializeList? || i.UpdateConfig? ==> i.list == w.Pda(ListSeed(i.mint)))
    && (i.AddToWhitelist? || i.RemoveFromWhitelist? ==> i.entry == w.Pda(WhitelistSeed(i.mint, i.wallet)))
  }

  function Effect(r: Option<Record>, i: Instruction): Record
    requires r.None? ==> i.InitializeConfig?
  {
    match i
    case InitializeConfig(authority, _, _, credential, schema, sasProgram) =>
      Record(authority, DEFAULT, credential, schema, sasProgram, false, {})
    case InitializeList(_, _, _, _) => r.value.(listed := true)
    case UpdateConfig(_, _, _, _, credential, schema, sasProgram) =>
      r.value.(credential := credential, schema := schema, sasProgram := sasProgram)
    case AddToWhitelist(_, _, _, _, wallet) => r.value.(whitelist := r.value.whitelist + {wallet})
    case RemoveFromWhitelist(_, _, _, _, wallet) => r.value.(whitelist := r.value.whitelist - {wallet})
    case TransferAuthority(_, newAuthority, _, _) => r.value.(pending := newAuthority)
    case AcceptAuthority(pending, _, _) => r.value.(authority := pending, pending := DEFAULT)
  }

  // ---------------------------------------------------------------- the accounts behind it

  predicate Configured(w: World, s: State, m: Key)
  {
    w.Pda(ConfigSeed(m)) in s.accounts && s.accounts[w.Pda(ConfigSeed(m))].data.ConfigData?
  }

  function ConfigOf(w: World, s: State, m: Key): HookConfig
    requires Configured(w, s, m)
  {
    s.accounts[w.Pda(ConfigSeed(m))].data.config
  }

  /** The table's row for a mint, read off the canonical addresses of that mint. */
  function View(w: World, s: State, m: Key): Option<Record>
  {
    if !Configured(w, s, m) then None
    else
      var c := ConfigOf(w, s, m);
      Some(Record(c.authority, c.pendingAuthority, c.credential, c.schema, c.sasProgram,
        w.Pda(ListSeed(m)) in s.accounts, WhitelistOf(w, s, m)))
  }

  function WhitelistOf(w: World, s: State, m: Key): set<Key>
  {
    set x | x in w.keys && w.Pda(WhitelistSeed(m, x)) in s.accounts
  }

  /** The bytes of a list determined by a config. */
  function ListBytes(c: HookConfig): (bs: seq<byte>)
    ensures |bs| == ListSize(6)
  {
    ProgramList(c.credential, c.schema, c.sasProgram)
  }

  /** An account at an address of the hook program is there under the canonical bump, is
      owned by the program, and is what its seeds say. */
  ghost predicate Proper(w: World, s: State, u: SeedUse, b: byte)
    requires w.Addr(u, b) in s.accounts
  {
    var account := s.accounts[w.Addr(u, b)];
    && b == w.Bump(u)
    && account.owner == w.program
    && match u
      case ConfigSeed(m) =>
        && account.data.ConfigData?
        && account.data.config.bump == b
        && {account.data.config.credential, account.data.config.schema, account.data.config.sasProgram} <= w.keys
      case ListSeed(m) => Configured(w, s, m) && account.data == RawData(ListBytes(ConfigOf(w, s, m)))
      case WhitelistSeed(m, x) => Configured(w, s, m) && account.data == EntryData(WhitelistEntry(x, b))
      case AttestationSeed(_, _, _) => false
  }

  ghost predicate Inv(w: World, s: State)
  {
    forall u, b: byte :: ProperAt(w, s, u, b)
  }

  ghost predicate ProperAt(w: World, s: State, u: SeedUse, b: byte)
  {
    w.InPlay(u) && w.Addr(u, b) in s.accounts ==> Proper(w, s, u, b)
  }

  /** The keys an instruction mentions are in play. */
  predicate InstructionInPlay(w: World, i: Instruction)
  {
    && i.mint in w.keys
    && (i.AddToWhitelist? || i.RemoveFromWhitelist? ==> i.wallet in w.keys)
    && (i.InitializeConfig? || i.UpdateConfig? ==> {i.credential, i.schema, i.sasProgram} <= w.keys)
  }

  /** Instructions may name any accounts and signers; what happens around the program may not
      touch the program's own addresses. */
  ghost predicate StepInPlay(w: World, step: Step)
  {
    match step
    case Call(_, i) => InstructionInPlay(w, i)
    case Deposit(a, _) => !w.HookAddress(a)
    case Withdraw(a) => !w.HookAddress(a)
    case _ => true
  }

  /** Accounts outside the program's addresses are untouched. */
  ghost predicate SameOutside(w: World, s: State, t: State)
  {
    forall a :: !w.HookAddress(a) ==>
      (a in s.accounts <==> a in t.accounts) && (a in s.accounts ==> s.accounts[a] == t.accounts[a])
  }

  /** Nothing but accounts has changed. */
  predicate SameSurroundings(s: State, t: State)
  {
    t == s.(accounts := t.accounts)
  }

  /** Going from `s` to `t` is what an instruction should do to the table: it succeeds exactly
      when it is granted, changes its own mint's row as it should, and nothing else. */
  ghost predicate Enacts(w: World, s: State, t: State, signers: set<Key>, i: Instruction, succeeds: bool)
  {
    && Inv(w, t)
    && (succeeds <==> WellAddressed(w, i) && Granted(w, s.mints, s.funded, View(w, s, i.mint), signers, i))
    && (succeeds ==> View(w, t, i.mint) == Some(Effect(View(w, s, i.mint), i)))
    && (!succeeds ==> t == s)
    && (forall m :: m in w.keys && m != i.mint ==> View(w, t, m) == View(w, s, m))
    && SameOutside(w, s, t)
    && SameSurroundings(s, t)
  }

  ghost predicate Refines(w: World, s: State, signers: set<Key>, i: Instruction)
  {
    var step := Call(signers, i);
    Enacts(w, s, After(w, s, step), signers, i, Succeeds(w, s, step))
  }

  // ---------------------------------------------------------------- reading the accounts

  /** A config loaded at an address that its own bump derives from a mint is that mint's. */
  lemma LoadedConfig(w: World, s: State, a: Key, m: Key)
    requires Inv(w, s) && m in w.keys
    requires LoadConfig(w, s, a).Ok?
    requires a == w.Addr(ConfigSeed(m), LoadConfig(w, s, a).value.bump)
    ensures a == w.Pda(ConfigSeed(m)) && Configured(w, s, m) && ConfigOf(w, s, m) == LoadConfig(w, s, a).value
  {
    assert ProperAt(w, s, ConfigSeed(m), LoadConfig(w, s, a).value.bump);
  }

  /** A configured mint's config loads at its canonical address, under the canonical bump. */
  lemma CanonicalConfig(w: World, s: State, m: Key)
    requires Inv(w, s) && m in w.keys
    ensures w.Pda(ConfigSeed(m)) in s.accounts <==> Configured(w, s, m)
    ensures Configured(w, s, m) <==> LoadConfig(w, s, w.Pda(ConfigSeed(m))).Ok?
    ensures Configured(w, s, m) ==>
      LoadConfig(w, s, w.Pda(ConfigSeed(m))) == Ok(ConfigOf(w, s, m)) && ConfigOf(w, s, m).bump == w.Bump(ConfigSeed(m))
  {
    if w.Pda(ConfigSeed(m)) in s.accounts {
      assert ProperAt(w, s, ConfigSeed(m), w.Bump(ConfigSeed(m)));
    }
  }

  lemma LoadedEntry(w: World, s: State, a: Key, m: Key, x: Key)
    requires Inv(w, s) && m in w.keys && x in w.keys
    requires LoadEntry(w, s, a).Ok?
    requires a == w.Addr(WhitelistSeed(m, x), LoadEntry(w, s, a).value.bump)
    ensures a == w.Pda(WhitelistSeed(m, x)) && LoadEntry(w, s, a).value.wallet == x
  {
    assert ProperAt(w, s, WhitelistSeed(m, x), LoadEntry(w, s, a).value.bump);
  }

  lemma CanonicalEntry(w: World, s: State, m: Key, x: Key)
    requires Inv(w, s) && m in w.keys && x in w.keys
    ensures var a := w.Pda(WhitelistSeed(m, x));
      a in s.accounts ==>
        Configured(w, s, m) && LoadEntry(w, s, a) == Ok(WhitelistEntry(x, w.Bump(WhitelistSeed(m, x))))
  {
    if w.Pda(WhitelistSeed(m, x)) in s.accounts {
      assert ProperAt(w, s, WhitelistSeed(m, x), w.Bump(WhitelistSeed(m, x)));
    }
  }

  lemma CanonicalList(w: World, s: State, m: Key)
    requires Inv(w, s) && m in w.keys
    ensures var a := w.Pda(ListSeed(m));
      if a in s.accounts then
        Configured(w, s, m) && OwnerAt(s, a) == w.program && BytesAt(s, a) == ListBytes(ConfigOf(w, s, m))
      else BytesAt(s, a) == []
  {
    if w.Pda(ListSeed(m)) in s.accounts {
      assert ProperAt(w, s, ListSeed(m), w.Bump(ListSeed(m)));
    }
  }

  lemma BlankStart(n: nat)
    requires n >= 8
    ensures Zeros(n)[..8] == Zeros(8) != EXECUTE
  {
    assert Zeros(8)[0] != EXECUTE[0];
  }

  /** Writing the list succeeds over blank bytes of its size, and over a stored list under
      the permissive reading only; either way the outcome is the same list. */
  lemma WritesList(before: seq<byte>, c: HookConfig, reinit: bool)
    ensures before == Zeros(ListSize(6)) ==>
      WrittenList(before, c.credential, c.schema, c.sasProgram, reinit) == Ok(ListBytes(c))
    ensures before == ListBytes(c) && reinit ==>
      WrittenList(before, c.credential, c.schema, c.sasProgram, reinit) == Ok(ListBytes(c))
    ensures before == ListBytes(c) && !reinit ==>
      WrittenList(before, c.credential, c.schema, c.sasProgram, reinit) == Err(ListAlreadyInitialized)
    ensures before == [] ==> WrittenList(before, c.credential, c.schema, c.sasProgram, reinit).Err?
  {
    ProgramListPackable(c.credential, c.schema, c.sasProgram);
    if before == Zeros(ListSize(6)) {
      BlankStart(ListSize(6));
      assert ListBytes(c) + before[ListSize(6)..] == ListBytes(c);
    } else if before == ListBytes(c) {
      assert before[..8] == EXECUTE;
      assert ListBytes(c) + before[ListSize(6)..] == ListBytes(c);
    }
  }

  lemma CreatesList(w: World, s: State, list: Key, c: HookConfig)
    requires list in s.accounts ==> OwnerAt(s, list) == w.program && BytesAt(s, list) == ListBytes(c)
    ensures CreateList(w, s, list, c).Ok? <==> if list in s.accounts then w.reinit else list !in s.funded
    ensures CreateList(w, s, list, c).Ok? ==> CreateList(w, s, list, c).value == Put(s, w, list, RawData(ListBytes(c)))
  {
    WritesList(Zeros(ListSize(6)), c, w.reinit);
    WritesList(ListBytes(c), c, w.reinit);
  }

  lemma RewritesList(w: World, s: State, list: Key, c: HookConfig)
    requires list in s.accounts ==> OwnerAt(s, list) == w.program && |BytesAt(s, list)| == ListSize(6)
    ensures RewriteList(w, s, list, c).Ok? <==> list in s.accounts
    ensures RewriteList(w, s, list, c).Ok? ==>
      RewriteList(w, s, list, c).value == Put(s, w, list, RawData(ListBytes(c)))
  {
    WritesList([], c, w.reinit);
    WritesList(Zeros(ListSize(6)), c, w.reinit);
  }

  /** On any accounts at all, a list that another program owns is never written: if the data
      would take the list, the runtime objects to who wrote it. */
  lemma ForeignListRefused(w: World, s: State, list: Key, c: HookConfig)
    requires OwnerAt(s, list) != w.program && BytesAt(s, list) != []
    ensures CreateList(w, s, list, c).Err? && RewriteList(w, s, list, c).Err?
    ensures WrittenList(BytesAt(s, list), c.credential, c.schema, c.sasProgram, w.reinit).Ok? ==>
      CreateList(w, s, list, c).error == ExternalAccountDataModified
    ensures WrittenList(Zeros(|BytesAt(s, list)|), c.credential, c.schema, c.sasProgram, w.reinit).Ok? ==>
      RewriteList(w, s, list, c).error == ExternalAccountDataModified
  {
  }

  // ---------------------------------------------------------------- success

  lemma SuccessInitializeConfig(w: World, s: State, signers: set<Key>, i: Instruction)
    requires Inv(w, s) && InstructionInPlay(w, i) && i.InitializeConfig?
    ensures Succeeds(w, s, Call(signers, i)) <==>
      WellAddressed(w, i) && Granted(w, s.mints, s.funded, View(w, s, i.mint), signers, i)
  {
    CanonicalConfig(w, s, i.mint);
  }

  lemma SuccessByAuthority(w: World, s: State, signers: set<Key>, i: Instruction)
    requires Inv(w, s) && InstructionInPlay(w, i) && (i.TransferAuthority? || i.AcceptAuthority?)
    ensures Succeeds(w, s, Call(signers, i)) <==>
      WellAddressed(w, i) && Granted(w, s.mints, s.funded, View(w, s, i.mint), signers, i)
  {
    CanonicalConfig(w, s, i.mint);
    var config := LoadConfig(w, s, i.config);
    if config.Ok? && i.config == w.Addr(ConfigSeed(i.mint), config.value.bump) {
      LoadedConfig(w, s, i.config, i.mint);
    }
  }

  lemma EffectOfAddition(w: World, s: State, signers: set<Key>, i: Instruction)
    requires i.AddToWhitelist? && Succeeds(w, s, Call(signers, i))
    ensures After(w, s, Call(signers, i)) == Put(s, w, w.Pda(WhitelistSeed(i.mint, i.wallet)),
      EntryData(WhitelistEntry(i.wallet, w.Bump(WhitelistSeed(i.mint, i.wallet)))))
  {
  }

  lemma EffectOfRemoval(w: World, s: State, signers: set<Key>, i: Instruction)
    requires i.RemoveFromWhitelist? && Succeeds(w, s, Call(signers, i))
    ensures After(w, s, Call(signers, i)) == Close(s, i.entry)
  {
  }

  lemma SuccessWhitelist(w: World, s: State, signers: set<Key>, i: Instruction)
    requires Inv(w, s) && InstructionInPlay(w, i) && (i.AddToWhitelist? || i.RemoveFromWhitelist?)
    ensures Succeeds(w, s, Call(signers, i)) <==>
      WellAddressed(w, i) && Granted(w, s.mints, s.funded, View(w, s, i.mint), signers, i)
  {
    CanonicalConfig(w, s, i.mint);
    CanonicalEntry(w, s, i.mint, i.wallet);
    var config := LoadConfig(w, s, i.config);
    if config.Ok? && i.config == w.Addr(ConfigSeed(i.mint), config.value.bump) {
      LoadedConfig(w, s, i.config, i.mint);
    }
    var entry := LoadEntry(w, s, i.entry);
    if entry.Ok? && i.entry == w.Addr(WhitelistSeed(i.mint, i.wallet), entry.value.bump) {
      LoadedEntry(w, s, i.entry, i.mint, i.wallet);
    }
  }

  /** The list handler on a configured mint's own list. */
  lemma CreatesOwnList(w: World, s: State, m: Key)
    requires Inv(w, s) && m in w.keys && Configured(w, s, m)
    ensures var l, c := w.Pda(ListSeed(m)), ConfigOf(w, s, m);
      && (CreateList(w, s, l, c).Ok? <==> if l in s.accounts then w.reinit else l !in s.funded)
      && (CreateList(w, s, l, c).Ok? ==> CreateList(w, s, l, c).value == Put(s, w, l, RawData(ListBytes(c))))
  {
    CanonicalList(w, s, m);
    CreatesList(w, s, w.Pda(ListSeed(m)), ConfigOf(w, s, m));
  }

  lemma InitializesList(w: World, s: State, signers: set<Key>, i: Instruction)
    requires Inv(w, s) && InstructionInPlay(w, i) && i.InitializeList?
    ensures InitializeListResult(w, s, signers, i).Ok? <==>
      && i.payer in signers && i.mint in s.mints
      && i.config == w.Pda(ConfigSeed(i.mint)) && i.list == w.Pda(ListSeed(i.mint))
      && Configured(w, s, i.mint) && i.payer == ConfigOf(w, s, i.mint).authority
      && (if i.list in s.accounts then w.reinit else i.list !in s.funded)
    ensures InitializeListResult(w, s, signers, i).Ok? ==>
      InitializeListResult(w, s, signers, i).value == Put(s, w, i.list, RawData(ListBytes(ConfigOf(w, s, i.mint))))
  {
    CanonicalConfig(w, s, i.mint);
    var config := LoadConfig(w, s, i.config);
    if config.Ok? && i.config == w.Addr(ConfigSeed(i.mint), config.value.bump) {
      LoadedConfig(w, s, i.config, i.mint);
      CreatesOwnList(w, s, i.mint);
    }
  }

  lemma SuccessInitializeList(w: World, s: State, signers: set<Key>, i: Instruction)
    requires Inv(w, s) && InstructionInPlay(w, i) && i.InitializeList?
    ensures Succeeds(w, s, Call(signers, i)) <==>
      WellAddressed(w, i) && Granted(w, s.mints, s.funded, View(w, s, i.mint), signers, i)
    ensures Succeeds(w, s, Call(signers, i)) ==>
      InstructionResult(w, s, signers, i) == Ok(Put(s, w, i.list, RawData(ListBytes(ConfigOf(w, s, i.mint)))))
  {
    InitializesList(w, s, signers, i);
  }

  /** The config that an update writes. */
  function UpdatedConfig(w: World, s: State, i: Instruction): HookConfig
    requires i.UpdateConfig? && Configured(w, s, i.mint)
  {
    ConfigOf(w, s, i.mint).(credential := i.credential, schema := i.schema, sasProgram := i.sasProgram)
  }

  /** The update handler on a configured mint's own config and list. */
  lemma RewritesOwnList(w: World, s: State, m: Key, c: HookConfig)
    requires w.Separated() && Inv(w, s) && m in w.keys
    ensures var result := RewriteList(w, Put(s, w, w.Pda(ConfigSeed(m)), ConfigData(c)), w.Pda(ListSeed(m)), c);
      && (result.Ok? <==> w.Pda(ListSeed(m)) in s.accounts)
      && (result.Ok? ==> result.value == PutConfigAndList(w, s, m, c))
  {
    CanonicalList(w, s, m);
    assert w.InPlay(ListSeed(m)) && w.InPlay(ConfigSeed(m));
    RewritesList(w, Put(s, w, w.Pda(ConfigSeed(m)), ConfigData(c)), w.Pda(ListSeed(m)), c);
  }

  lemma UpdatesConfig(w: World, s: State, signers: set<Key>, i: Instruction)
    requires w.Separated() && Inv(w, s) && InstructionInPlay(w, i) && i.UpdateConfig?
    ensures UpdateConfigResult(w, s, signers, i).Ok? <==>
      && i.authority in signers && i.mint in s.mints
      && i.config == w.Pda(ConfigSeed(i.mint)) && i.list == w.Pda(ListSeed(i.mint))
      && Configured(w, s, i.mint) && i.authority == ConfigOf(w, s, i.mint).authority
      && i.list in s.accounts
    ensures UpdateConfigResult(w, s, signers, i).Ok? ==>
      UpdateConfigResult(w, s, signers, i).value == PutConfigAndList(w, s, i.mint, UpdatedConfig(w, s, i))
  {
    CanonicalConfig(w, s, i.mint);
    var config := LoadConfig(w, s, i.config);
    if config.Ok? && i.config == w.Addr(ConfigSeed(i.mint), config.value.bump) {
      LoadedConfig(w, s, i.config, i.mint);
      RewritesOwnList(w, s, i.mint, UpdatedConfig(w, s, i));
    }
  }

  lemma SuccessUpdateConfig(w: World, s: State, signers: set<Key>, i: Instruction)
    requires w.Separated() && Inv(w, s) && InstructionInPlay(w, i) && i.UpdateConfig?
    ensures Succeeds(w, s, Call(signers, i)) <==>
      WellAddressed(w, i) && Granted(w, s.mints, s.funded, View(w, s, i.mint), signers, i)
    ensures Succeeds(w, s, Call(signers, i)) ==>
      InstructionResult(w, s, signers, i) == Ok(PutConfigAndList(w, s, i.mint, UpdatedConfig(w, s, i)))
  {
    UpdatesConfig(w, s, signers, i);
  }

  // ---------------------------------------------------------------- effect

  /** What a write confined to one mint's addresses leaves alone. */
  ghost predicate Confined(w: World, s: State, t: State, m: Key)
  {
    && Inv(w, t)
    && (forall n :: n in w.keys && n != m ==> View(w, t, n) == View(w, s, n))
    && SameOutside(w, s, t)
    && SameSurroundings(s, t)
  }

  lemma SameWhitelist(w: World, s: State, t: State, m: Key)
    requires forall x :: x in w.keys ==>
      (w.Pda(WhitelistSeed(m, x)) in s.accounts <==> w.Pda(WhitelistSeed(m, x)) in t.accounts)
    ensures WhitelistOf(w, s, m) == WhitelistOf(w, t, m)
  {
    assert forall x :: x in WhitelistOf(w, s, m) <==> x in w.keys && w.Pda(WhitelistSeed(m, x)) in s.accounts;
    assert forall x :: x in WhitelistOf(w, t, m) <==> x in w.keys && w.Pda(WhitelistSeed(m, x)) in t.accounts;
  }

  /** Accounts that differ at one address of the program have the same whitelist, unless
      that address is an entry of it. */
  lemma WhitelistElsewhere(w: World, s: State, t: State, m: Key, u: SeedUse)
    requires w.Separated() && w.InPlay(u) && m in w.keys
    requires !(u.WhitelistSeed? && u.mint == m)
    requires forall a :: a != w.Pda(u) ==> (a in s.accounts <==> a in t.accounts)
    ensures WhitelistOf(w, s, m) == WhitelistOf(w, t, m)
  {
    forall x | x in w.keys ensures w.Pda(WhitelistSeed(m, x)) != w.Pda(u) {
      assert w.InPlay(WhitelistSeed(m, x));
    }
    SameWhitelist(w, s, t, m);
  }

  lemma WhitelistChange(w: World, s: State, t: State, m: Key, x: Key)
    requires w.Separated() && m in w.keys && x in w.keys
    requires forall a :: a != w.Pda(WhitelistSeed(m, x)) ==> (a in s.accounts <==> a in t.accounts)
    ensures WhitelistOf(w, t, m) ==
      if w.Pda(WhitelistSeed(m, x)) in t.accounts then WhitelistOf(w, s, m) + {x} else WhitelistOf(w, s, m) - {x}
  {
    forall y | y in w.keys && y != x ensures y in WhitelistOf(w, s, m) <==> y in WhitelistOf(w, t, m) {
      assert w.InPlay(WhitelistSeed(m, x)) && w.InPlay(WhitelistSeed(m, y));
    }
  }

  lemma ConfinedWrite(w: World, s: State, t: State, u: SeedUse)
    requires w.Separated() && Inv(w, t) && w.InPlay(u) && !u.AttestationSeed?
    requires SameSurroundings(s, t)
    requires forall a :: a != w.Pda(u) ==>
      (a in s.accounts <==> a in t.accounts) && (a in s.accounts ==> s.accounts[a] == t.accounts[a])
    ensures Confined(w, s, t, u.mint)
  {
    forall n | n in w.keys && n != u.mint ensures View(w, t, n) == View(w, s, n) {
      assert w.InPlay(ConfigSeed(n)) && w.InPlay(ListSeed(n));
      WhitelistElsewhere(w, s, t, n, u);
    }
    forall a | !w.HookAddress(a)
      ensures (a in s.accounts <==> a in t.accounts) && (a in s.accounts ==> s.accounts[a] == t.accounts[a])
    {
      assert a != w.Pda(u);
    }
  }

  /** Writing a config that names the same keys keeps the invariant. */
  lemma InvConfig(w: World, s: State, m: Key, c: HookConfig)
    requires w.Separated() && Inv(w, s) && m in w.keys
    requires c.bump == w.Bump(ConfigSeed(m)) && {c.credential, c.schema, c.sasProgram} <= w.keys
    requires Configured(w, s, m) ==>
      var d := ConfigOf(w, s, m);
      c.credential == d.credential && c.schema == d.schema && c.sasProgram == d.sasProgram
    ensures Inv(w, Put(s, w, w.Pda(ConfigSeed(m)), ConfigData(c)))
  {
    var a := w.Pda(ConfigSeed(m));
    var t := Put(s, w, a, ConfigData(c));
    assert w.InPlay(ConfigSeed(m)) && w.InPlay(ListSeed(m));
    forall v, b: byte ensures ProperAt(w, t, v, b) {
      if w.Addr(v, b) != a { assert ProperAt(w, s, v, b); }
    }
  }

  /** An unconfigured mint has no whitelist. */
  lemma NobodyWhitelisted(w: World, s: State, m: Key)
    requires Inv(w, s) && m in w.keys && !Configured(w, s, m)
    ensures WhitelistOf(w, s, m) == {} && w.Pda(ListSeed(m)) !in s.accounts
  {
    CanonicalList(w, s, m);
    forall x | x in w.keys ensures w.Pda(WhitelistSeed(m, x)) !in s.accounts {
      CanonicalEntry(w, s, m, x);
    }
    assert forall x :: x in WhitelistOf(w, s, m) ==> x in w.keys && w.Pda(WhitelistSeed(m, x)) in s.accounts;
  }

  lemma WroteConfig(w: World, s: State, m: Key, c: HookConfig)
    requires w.Separated() && Inv(w, s) && m in w.keys
    requires c.bump == w.Bump(ConfigSeed(m)) && {c.credential, c.schema, c.sasProgram} <= w.keys
    requires Configured(w, s, m) ==>
      var d := ConfigOf(w, s, m);
      c.credential == d.credential && c.schema == d.schema && c.sasProgram == d.sasProgram
    ensures var t := Put(s, w, w.Pda(ConfigSeed(m)), ConfigData(c));
      && Confined(w, s, t, m)
      && View(w, t, m) == Some(Record(c.authority, c.pendingAuthority, c.credential, c.schema, c.sasProgram,
           Configured(w, s, m) && View(w, s, m).value.listed,
           if Configured(w, s, m) then View(w, s, m).value.whitelist else {}))
  {
    var u := ConfigSeed(m);
    var a := w.Pda(u);
    var t := Put(s, w, a, ConfigData(c));
    assert w.InPlay(u) && w.InPlay(ListSeed(m));
    InvConfig(w, s, m, c);
    ConfinedWrite(w, s, t, u);
    WhitelistElsewhere(w, s, t, m, u);
    if !Configured(w, s, m) { NobodyWhitelisted(w, s, m); }
  }

  lemma WroteList(w: World, s: State, m: Key)
    requires w.Separated() && Inv(w, s) && m in w.keys && Configured(w, s, m)
    ensures var t := Put(s, w, w.Pda(ListSeed(m)), RawData(ListBytes(ConfigOf(w, s, m))));
      Confined(w, s, t, m) && View(w, t, m) == Some(View(w, s, m).value.(listed := true))
  {
    var u := ListSeed(m);
    var a := w.Pda(u);
    var t := Put(s, w, a, RawData(ListBytes(ConfigOf(w, s, m))));
    assert w.InPlay(u) && w.InPlay(ConfigSeed(m));
    forall v, b: byte ensures ProperAt(w, t, v, b) {
      if w.Addr(v, b) != a { assert ProperAt(w, s, v, b); }
    }
    ConfinedWrite(w, s, t, u);
    WhitelistElsewhere(w, s, t, m, u);
  }

  lemma WroteEntry(w: World, s: State, m: Key, x: Key)
    requires w.Separated() && Inv(w, s) && m in w.keys && x in w.keys && Configured(w, s, m)
    ensures var t := Put(s, w, w.Pda(WhitelistSeed(m, x)), EntryData(WhitelistEntry(x, w.Bump(WhitelistSeed(m, x)))));
      var r := View(w, s, m).value;
      Confined(w, s, t, m) && View(w, t, m) == Some(r.(whitelist := r.whitelist + {x}))
  {
    var u := WhitelistSeed(m, x);
    var a := w.Pda(u);
    var t := Put(s, w, a, EntryData(WhitelistEntry(x, w.Bump(u))));
    assert w.InPlay(u) && w.InPlay(ConfigSeed(m)) && w.InPlay(ListSeed(m));
    forall v, b: byte ensures ProperAt(w, t, v, b) {
      if w.Addr(v, b) != a { assert ProperAt(w, s, v, b); }
    }
    ConfinedWrite(w, s, t, u);
    WhitelistChange(w, s, t, m, x);
  }

  lemma RemovedEntry(w: World, s: State, m: Key, x: Key)
    requires w.Separated() && Inv(w, s) && m in w.keys && x in w.keys && Configured(w, s, m)
    ensures var t := Close(s, w.Pda(WhitelistSeed(m, x)));
      var r := View(w, s, m).value;
      Confined(w, s, t, m) && View(w, t, m) == Some(r.(whitelist := r.whitelist - {x}))
  {
    var u := WhitelistSeed(m, x);
    var a := w.Pda(u);
    var t := Close(s, a);
    assert w.InPlay(u) && w.InPlay(ConfigSeed(m)) && w.InPlay(ListSeed(m));
    forall v, b: byte ensures ProperAt(w, t, v, b) {
      assert ProperAt(w, s, v, b);
      if w.InPlay(v) && !v.AttestationSeed? {
        assert w.InPlay(ConfigSeed(v.mint));
      }
    }
    ConfinedWrite(w, s, t, u);
    WhitelistChange(w, s, t, m, x);
  }

  function PutConfigAndList(w: World, s: State, m: Key, c: HookConfig): State
  {
    Put(Put(s, w, w.Pda(ConfigSeed(m)), ConfigData(c)), w, w.Pda(ListSeed(m)), RawData(ListBytes(c)))
  }

  /** Every other address of the program is as proper as before an update of a mint. */
  lemma ProperElsewhere(w: World, s: State, m: Key, c: HookConfig, v: SeedUse, b: byte)
    requires ProperAt(w, s, v, b)
    requires w.Pda(ConfigSeed(m)) != w.Pda(ListSeed(m))
    requires w.Addr(v, b) != w.Pda(ConfigSeed(m)) && w.Addr(v, b) != w.Pda(ListSeed(m))
    requires v.AttestationSeed? || v.mint == m || ConfigApart(w, v.mint, m)
    ensures ProperAt(w, PutConfigAndList(w, s, m, c), v, b)
  {
    var t := PutConfigAndList(w, s, m, c);
    if w.InPlay(v) && w.Addr(v, b) in t.accounts {
      assert t.accounts[w.Addr(v, b)] == s.accounts[w.Addr(v, b)];
      assert b == w.Bump(v);
      if v.ListSeed? { assert ConfigOf(w, t, v.mint) == ConfigOf(w, s, v.mint); }
    }
  }

  /** A mint's config address is not one that an update of another mint writes to. */
  predicate ConfigApart(w: World, n: Key, m: Key)
  {
    w.Pda(ConfigSeed(n)) != w.Pda(ConfigSeed(m)) && w.Pda(ConfigSeed(n)) != w.Pda(ListSeed(m))
  }

  lemma ConfigsApart(w: World, n: Key, m: Key)
    requires w.Separated() && n in w.keys && m in w.keys
    ensures w.Pda(ConfigSeed(m)) != w.Pda(ListSeed(m))
    ensures n != m ==> ConfigApart(w, n, m)
  {
    assert w.InPlay(ConfigSeed(n)) && w.InPlay(ConfigSeed(m)) && w.InPlay(ListSeed(m));
  }

  /** And the two addresses written are proper. */
  lemma ProperRewritten(w: World, s: State, m: Key, c: HookConfig, v: SeedUse, b: byte)
    requires w.Separated() && m in w.keys && w.InPlay(v)
    requires c.bump == w.Bump(ConfigSeed(m)) && {c.credential, c.schema, c.sasProgram} <= w.keys
    requires w.Addr(v, b) == w.Pda(ConfigSeed(m)) || w.Addr(v, b) == w.Pda(ListSeed(m))
    ensures ProperAt(w, PutConfigAndList(w, s, m, c), v, b)
  {
    assert w.InPlay(ConfigSeed(m)) && w.InPlay(ListSeed(m));
  }

  lemma InvConfigAndList(w: World, s: State, m: Key, c: HookConfig)
    requires w.Separated() && Inv(w, s) && m in w.keys && Configured(w, s, m)
    requires c.bump == w.Bump(ConfigSeed(m)) && {c.credential, c.schema, c.sasProgram} <= w.keys
    ensures Inv(w, PutConfigAndList(w, s, m, c))
  {
    forall v, b: byte ensures ProperAt(w, PutConfigAndList(w, s, m, c), v, b) {
      if !w.InPlay(v) {
      } else if w.Addr(v, b) == w.Pda(ConfigSeed(m)) || w.Addr(v, b) == w.Pda(ListSeed(m)) {
        ProperRewritten(w, s, m, c, v, b);
      } else {
        assert ProperAt(w, s, v, b);
        ConfigsApart(w, if v.AttestationSeed? then m else v.mint, m);
        ProperElsewhere(w, s, m, c, v, b);
      }
    }
  }

  /** The frame of a write to a mint's config and list. */
  lemma ConfinedPair(w: World, s: State, t: State, m: Key)
    requires w.Separated() && m in w.keys
    requires SameSurroundings(s, t)
    requires forall a :: a != w.Pda(ConfigSeed(m)) && a != w.Pda(ListSeed(m)) ==>
      (a in s.accounts <==> a in t.accounts) && (a in s.accounts ==> s.accounts[a] == t.accounts[a])
    ensures forall n :: n in w.keys && n != m ==> View(w, t, n) == View(w, s, n)
    ensures WhitelistOf(w, t, m) == WhitelistOf(w, s, m)
    ensures SameOutside(w, s, t)
  {
    assert w.InPlay(ConfigSeed(m)) && w.InPlay(ListSeed(m));
    forall n | n in w.keys ensures WhitelistOf(w, t, n) == WhitelistOf(w, s, n) {
      forall x | x in w.keys
        ensures w.Pda(WhitelistSeed(n, x)) != w.Pda(ConfigSeed(m)) && w.Pda(WhitelistSeed(n, x)) != w.Pda(ListSeed(m))
      {
        assert w.InPlay(WhitelistSeed(n, x));
      }
      SameWhitelist(w, s, t, n);
    }
    forall n | n in w.keys && n != m ensures View(w, t, n) == View(w, s, n) {
      assert w.InPlay(ConfigSeed(n)) && w.InPlay(ListSeed(n));
    }
    assert w.HookAddress(w.Pda(ConfigSeed(m))) && w.HookAddress(w.Pda(ListSeed(m)));
  }

  lemma ViewAfterUpdate(w: World, s: State, m: Key, c: HookConfig)
    requires w.Separated() && m in w.keys && Configured(w, s, m)
    requires WhitelistOf(w, PutConfigAndList(w, s, m, c), m) == WhitelistOf(w, s, m)
    ensures View(w, PutConfigAndList(w, s, m, c), m) == Some(Record(c.authority, c.pendingAuthority,
      c.credential, c.schema, c.sasProgram, true, View(w, s, m).value.whitelist))
  {
    assert w.InPlay(ConfigSeed(m)) && w.InPlay(ListSeed(m));
  }

  lemma WroteConfigAndList(w: World, s: State, m: Key, c: HookConfig)
    requires w.Separated() && Inv(w, s) && m in w.keys && Configured(w, s, m)
    requires c.bump == w.Bump(ConfigSeed(m)) && {c.credential, c.schema, c.sasProgram} <= w.keys
    ensures Confined(w, s, PutConfigAndList(w, s, m, c), m)
    ensures View(w, PutConfigAndList(w, s, m, c), m) == Some(Record(c.authority, c.pendingAuthority,
      c.credential, c.schema, c.sasProgram, true, View(w, s, m).value.whitelist))
  {
    InvConfigAndList(w, s, m, c);
    ConfinedPair(w, s, PutConfigAndList(w, s, m, c), m);
    ViewAfterUpdate(w, s, m, c);
  }

  // ---------------------------------------------------------------- refinement

  lemma UpdateRefines(w: World, s: State, signers: set<Key>, i: Instruction)
    requires w.Separated() && Inv(w, s) && InstructionInPlay(w, i) && i.UpdateConfig?
    ensures Refines(w, s, signers, i)
  {
    SuccessUpdateConfig(w, s, signers, i);
    if Succeeds(w, s, Call(signers, i)) {
      CanonicalConfig(w, s, i.mint);
      WroteConfigAndList(w, s, i.mint, UpdatedConfig(w, s, i));
    }
  }

  lemma InitializeRefines(w: World, s: State, signers: set<Key>, i: Instruction)
    requires w.Separated() && Inv(w, s) && InstructionInPlay(w, i) && (i.InitializeConfig? || i.InitializeList?)
    ensures Refines(w, s, signers, i)
  {
    CanonicalConfig(w, s, i.mint);
    if i.InitializeConfig? {
      SuccessInitializeConfig(w, s, signers, i);
      if Succeeds(w, s, Call(signers, i)) { WroteConfig(w, s, i.mint, NewConfig(w, i)); }
    } else {
      SuccessInitializeList(w, s, signers, i);
      if Succeeds(w, s, Call(signers, i)) { WroteList(w, s, i.mint); }
    }
  }

  lemma AddRefines(w: World, s: State, signers: set<Key>, i: Instruction)
    requires w.Separated() && Inv(w, s) && InstructionInPlay(w, i) && i.AddToWhitelist?
    ensures Refines(w, s, signers, i)
  {
    SuccessWhitelist(w, s, signers, i);
    if Succeeds(w, s, Call(signers, i)) {
      EffectOfAddition(w, s, signers, i);
      WroteEntry(w, s, i.mint, i.wallet);
    }
  }

  lemma RemoveRefines(w: World, s: State, signers: set<Key>, i: Instruction)
    requires w.Separated() && Inv(w, s) && InstructionInPlay(w, i) && i.RemoveFromWhitelist?
    ensures Refines(w, s, signers, i)
  {
    SuccessWhitelist(w, s, signers, i);
    if Succeeds(w, s, Call(signers, i)) {
      EffectOfRemoval(w, s, signers, i);
      RemovedEntry(w, s, i.mint, i.wallet);
    }
  }

  lemma AuthorityRefines(w: World, s: State, signers: set<Key>, i: Instruction)
    requires w.Separated() && Inv(w, s) && InstructionInPlay(w, i) && (i.TransferAuthority? || i.AcceptAuthority?)
    ensures Refines(w, s, signers, i)
  {
    SuccessByAuthority(w, s, signers, i);
    if Succeeds(w, s, Call(signers, i)) {
      CanonicalConfig(w, s, i.mint);
      CanonicalKeys(w, s, i.mint);
      var c := ConfigOf(w, s, i.mint);
      if i.TransferAuthority? {
        WroteConfig(w, s, i.mint, c.(pendingAuthority := i.newAuthority));
      } else {
        WroteConfig(w, s, i.mint, c.(authority := i.pendingAuthority, pendingAuthority := DEFAULT));
      }
    }
  }

  /** Every instruction, on any accounts and signers, does to the accounts of the program
      what it should do to the table. */
  lemma InstructionRefines(w: World, s: State, signers: set<Key>, i: Instruction)
    requires w.Separated() && Inv(w, s) && InstructionInPlay(w, i)
    ensures Refines(w, s, signers, i)
  {
    if i.UpdateConfig? {
      UpdateRefines(w, s, signers, i);
    } else if i.InitializeConfig? || i.InitializeList? {
      InitializeRefines(w, s, signers, i);
    } else if i.AddToWhitelist? {
      AddRefines(w, s, signers, i);
    } else if i.RemoveFromWhitelist? {
      RemoveRefines(w, s, signers, i);
    } else {
      AuthorityRefines(w, s, signers, i);
    }
  }

  lemma CanonicalKeys(w: World, s: State, m: Key)
    requires Inv(w, s) && m in w.keys && Configured(w, s, m)
    ensures {ConfigOf(w, s, m).credential, ConfigOf(w, s, m).schema, ConfigOf(w, s, m).sasProgram} <= w.keys
  {
    assert ProperAt(w, s, ConfigSeed(m), w.Bump(ConfigSeed(m)));
  }

  // ---------------------------------------------------------------- denials

  /** Who signs an instruction, as its own account. */
  function Caller(i: Instruction): Key
  {
    match i
    case InitializeConfig(authority, _, _, _, _, _) => authority
    case InitializeList(payer, _, _, _) => payer
    case UpdateConfig(authority, _, _, _, _, _, _) => authority
    case AddToWhitelist(authority, _, _, _, _) => authority
    case RemoveFromWhitelist(authority, _, _, _, _) => authority
    case TransferAuthority(authority, _, _, _) => authority
    case AcceptAuthority(pending, _, _) => pending
  }

  /** The error that tells a caller it is not the one entitled, or that there is nothing to
      do it to. */
  function Denial(r: Option<Record>, i: Instruction): Error
  {
    match i
    case InitializeConfig(_, _, _, _, _, _) => if r.Some? then AccountAlreadyInUse else UnauthorizedMintAuthority
    case InitializeList(payer, _, _, _) =>
      if r.None? then AccountNotInitialized
      else if payer != r.value.authority then Unauthorized
      else if r.value.listed then ListAlreadyInitialized else AccountAlreadyInUse
    case UpdateConfig(authority, _, _, _, _, _, _) =>
      if r.None? then AccountNotInitialized
      else if authority != r.value.authority then ConstraintRaw else InvalidAccountData
    case AddToWhitelist(_, _, _, _, wallet) =>
      if r.None? then AccountNotInitialized
      else if wallet in r.value.whitelist then AccountAlreadyInUse else ConstraintRaw
    case RemoveFromWhitelist(authority, _, _, _, wallet) =>
      if r.None? || wallet !in r.value.whitelist then AccountNotInitialized else ConstraintRaw
    case TransferAuthority(authority, _, _, _) =>
      if r.None? then AccountNotInitialized else ConstraintRaw
    case AcceptAuthority(_, _, _) =>
      if r.None? then AccountNotInitialized else NoPendingAuthority
  }

  lemma DeniedListWrites(c: HookConfig)
    ensures WrittenList([], c.credential, c.schema, c.sasProgram, false) == Err(InvalidAccountData)
    ensures WrittenList([], c.credential, c.schema, c.sasProgram, true) == Err(InvalidAccountData)
    ensures WrittenList(ListBytes(c), c.credential, c.schema, c.sasProgram, false) == Err(ListAlreadyInitialized)
  {
    WritesList(ListBytes(c), c, false);
  }

  /** A signed call on the right accounts that is refused reports why. */
  lemma DenialReported(w: World, s: State, signers: set<Key>, i: Instruction)
    requires Inv(w, s) && w.Separated() && InstructionInPlay(w, i) && WellAddressed(w, i)
    requires Caller(i) in signers && i.mint in s.mints
    requires !Granted(w, s.mints, s.funded, View(w, s, i.mint), signers, i)
    ensures InstructionResult(w, s, signers, i) == Err(Denial(View(w, s, i.mint), i))
  {
    var m := i.mint;
    CanonicalConfig(w, s, m);
    match i {
      case InitializeList(_, _, _, _) => DeniedInitializeList(w, s, signers, i);
      case UpdateConfig(_, _, _, _, _, _, _) => DeniedUpdateConfig(w, s, signers, i);
      case AddToWhitelist(_, _, _, _, x) => CanonicalEntry(w, s, m, x);
      case RemoveFromWhitelist(_, _, _, _, x) => CanonicalEntry(w, s, m, x);
      case _ =>
    }
  }

  lemma DeniedInitializeList(w: World, s: State, signers: set<Key>, i: Instruction)
    requires Inv(w, s) && InstructionInPlay(w, i) && WellAddressed(w, i) && i.InitializeList?
    requires Caller(i) in signers && i.mint in s.mints
    requires !Granted(w, s.mints, s.funded, View(w, s, i.mint), signers, i)
    ensures InitializeListResult(w, s, signers, i) == Err(Denial(View(w, s, i.mint), i))
  {
    CanonicalConfig(w, s, i.mint);
    CanonicalList(w, s, i.mint);
    if Configured(w, s, i.mint) { DeniedListWrites(ConfigOf(w, s, i.mint)); }
  }

  lemma DeniedUpdateConfig(w: World, s: State, signers: set<Key>, i: Instruction)
    requires Inv(w, s) && w.Separated() && InstructionInPlay(w, i) && WellAddressed(w, i) && i.UpdateConfig?
    requires Caller(i) in signers && i.mint in s.mints
    requires !Granted(w, s.mints, s.funded, View(w, s, i.mint), signers, i)
    ensures UpdateConfigResult(w, s, signers, i) == Err(Denial(View(w, s, i.mint), i))
  {
    CanonicalConfig(w, s, i.mint);
    if Configured(w, s, i.mint) {
      assert w.InPlay(ListSeed(i.mint)) && w.InPlay(ConfigSeed(i.mint));
      DeniedListWrites(UpdatedConfig(w, s, i));
      assert Zeros(0) == [];
    }
  }

  // ---------------------------------------------------------------- refusals

  function Unless(condition: bool, error: Error): Option<Error>
  {
    if condition then None else Some(error)
  }

  /** The earlier of two failures. */
  function Earlier(a: Option<Error>, b: Option<Error>): Option<Error>
  {
    if a.Some? then a else b
  }

  /** Why an account does not load as a config. */
  function ConfigFault(w: World, s: State, a: Key): Option<Error>
  {
    if a !in s.accounts then Some(AccountNotInitialized)
    else if s.accounts[a].owner != w.program then Some(AccountOwnedByWrongProgram)
    else Unless(s.accounts[a].data.ConfigData?, AccountDiscriminatorMismatch)
  }

  /** Why an account does not load as a whitelist entry. */
  function EntryFault(w: World, s: State, a: Key): Option<Error>
  {
    if a !in s.accounts then Some(AccountNotInitialized)
    else if s.accounts[a].owner != w.program then Some(AccountOwnedByWrongProgram)
    else Unless(s.accounts[a].data.EntryData?, AccountDiscriminatorMismatch)
  }

  /** The first account of an instruction that does not load, in the order of its fields. */
  function LoadFault(w: World, s: State, i: Instruction): Option<Error>
  {
    var mint := Unless(i.mint in s.mints, AccountNotInitialized);
    match i
    case InitializeConfig(_, _, _, _, _, _) => mint
    case InitializeList(_, _, _, _) => Earlier(mint, ConfigFault(w, s, i.config))
    case RemoveFromWhitelist(_, _, _, _, _) =>
      Earlier(ConfigFault(w, s, i.config), Earlier(EntryFault(w, s, i.entry), mint))
    case _ => Earlier(ConfigFault(w, s, i.config), mint)
  }

  /** The first thing wrong with accounts that load: the caller is not the one that the config
      passed names, or an address is not the canonical one of the instruction's mint. */
  function AccountsFault(w: World, s: State, i: Instruction): Option<Error>
    requires !i.InitializeConfig? ==> ConfigFault(w, s, i.config).None?
  {
    var config := Unless(i.config == w.Pda(ConfigSeed(i.mint)), ConstraintSeeds);
    match i
    case InitializeConfig(_, _, _, _, _, _) => config
    case InitializeList(payer, list, mint, _) =>
      Earlier(Unless(payer == s.accounts[i.config].data.config.authority, Unauthorized),
        Earlier(Unless(list == w.Pda(ListSeed(mint)), ConstraintSeeds), config))
    case UpdateConfig(authority, _, mint, list, _, _, _) =>
      Earlier(Unless(authority == s.accounts[i.config].data.config.authority, ConstraintRaw),
        Earlier(config, Unless(list == w.Pda(ListSeed(mint)), ConstraintSeeds)))
    case AddToWhitelist(authority, _, entry, mint, wallet) =>
      Earlier(Unless(entry == w.Pda(WhitelistSeed(mint, wallet)), ConstraintSeeds),
        Earlier(Unless(entry !in s.accounts, AccountAlreadyInUse),
          Earlier(config, Unless(authority == s.accounts[i.config].data.config.authority, ConstraintRaw))))
    case RemoveFromWhitelist(authority, _, entry, mint, wallet) =>
      Earlier(config, Earlier(Unless(authority == s.accounts[i.config].data.config.authority, ConstraintRaw),
        Unless(entry == w.Pda(WhitelistSeed(mint, wallet)), ConstraintSeeds)))
    case TransferAuthority(authority, _, _, _) =>
      Earlier(Unless(authority == s.accounts[i.config].data.config.authority, ConstraintRaw), config)
    case AcceptAuthority(pending, _, _) =>
      Earlier(Unless(pending == s.accounts[i.config].data.config.pendingAuthority, NoPendingAuthority), config)
  }

  /** What a refused call reports: a missing signature, else the first account that does not
      load, else the first that is not the right one, else the denial told from the table. */
  function Refusal(w: World, s: State, signers: set<Key>, i: Instruction): Error
  {
    if Caller(i) !in signers then NotSigner
    else if LoadFault(w, s, i).Some? then LoadFault(w, s, i).value
    else if AccountsFault(w, s, i).Some? then AccountsFault(w, s, i).value
    else Denial(View(w, s, i.mint), i)
  }

  /** Whatever a refused call did wrong, it is told the first thing that it did wrong. */
  lemma RefusalReported(w: World, s: State, signers: set<Key>, i: Instruction)
    requires w.Separated() && Inv(w, s) && InstructionInPlay(w, i)
    ensures !Succeeds(w, s, Call(signers, i)) ==>
      InstructionResult(w, s, signers, i) == Err(Refusal(w, s, signers, i))
  {
    if Caller(i) !in signers || LoadFault(w, s, i).Some? {
      UnloadedRefused(w, s, signers, i);
    } else if AccountsFault(w, s, i).Some? {
      MisaddressedRefused(w, s, signers, i);
    } else {
      InstructionRefines(w, s, signers, i);
      if !Succeeds(w, s, Call(signers, i)) { DenialReported(w, s, signers, i); }
    }
  }

  lemma UnloadedRefused(w: World, s: State, signers: set<Key>, i: Instruction)
    requires Caller(i) !in signers || LoadFault(w, s, i).Some?
    ensures InstructionResult(w, s, signers, i) ==
      Err(if Caller(i) !in signers then NotSigner else LoadFault(w, s, i).value)
  {
  }

  /** A config that loads is the mint's own exactly if it is at an address that its stored
      bump derives from the mint. */
  lemma OwnConfig(w: World, s: State, a: Key, m: Key)
    requires Inv(w, s) && m in w.keys && LoadConfig(w, s, a).Ok?
    ensures a == w.Addr(ConfigSeed(m), LoadConfig(w, s, a).value.bump) <==> a == w.Pda(ConfigSeed(m))
  {
    CanonicalConfig(w, s, m);
    if a == w.Addr(ConfigSeed(m), LoadConfig(w, s, a).value.bump) { LoadedConfig(w, s, a, m); }
  }

  lemma OwnEntry(w: World, s: State, a: Key, m: Key, x: Key)
    requires Inv(w, s) && m in w.keys && x in w.keys && LoadEntry(w, s, a).Ok?
    ensures a == w.Addr(WhitelistSeed(m, x), LoadEntry(w, s, a).value.bump) <==> a == w.Pda(WhitelistSeed(m, x))
  {
    CanonicalEntry(w, s, m, x);
    if a == w.Addr(WhitelistSeed(m, x), LoadEntry(w, s, a).value.bump) { LoadedEntry(w, s, a, m, x); }
  }

  lemma MisaddressedRefused(w: World, s: State, signers: set<Key>, i: Instruction)
    requires Inv(w, s) && InstructionInPlay(w, i)
    requires Caller(i) in signers && LoadFault(w, s, i).None? && AccountsFault(w, s, i).Some?
    ensures InstructionResult(w, s, signers, i) == Err(AccountsFault(w, s, i).value)
  {
    if !i.InitializeConfig? { OwnConfig(w, s, i.config, i.mint); }
    if i.RemoveFromWhitelist? { OwnEntry(w, s, i.entry, i.mint, i.wallet); }
  }
}
