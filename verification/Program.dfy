/** The state the hook program runs on, and what each of its instructions does to it. */
module Program {
  import opened Bytes
  import opened Results
  import opened Keys
  import opened Metas
  import opened ListLayout
  import opened AttestationAccount

  datatype HookConfig = HookConfig(
    authority: Key,
    credential: Key,
    schema: Key,
    sasProgram: Key,
    bump: byte,
    pendingAuthority: Key)

  datatype WhitelistEntry = WhitelistEntry(wallet: Key, bump: byte)

  /** Account contents: the program's two account types, decoded, or other bytes. */
  datatype Data =
    | ConfigData(config: HookConfig)
    | EntryData(entry: WhitelistEntry)
    | RawData(bytes: seq<byte>)

  datatype Account = Account(owner: Key, data: Data)

  /** The parts of a token mint and a token account that the program looks at. */
  datatype Mint = Mint(mintAuthority: Option<Key>)

  datatype TokenAccount = TokenAccount(
    mint: Key,
    owner: Key,
    delegate: Option<Key>,
    delegatedAmount: nat,
    transferring: Option<bool>)

  /** `funded` holds the addresses that somebody has sent lamports to. It matters for lists
      only: nobody can take lamports back from a list address, and they stand in the way of
      creating the list there, while an `init` constraint copes with them. */
  datatype State = State(
    accounts: map<Key, Account>,
    mints: map<Key, Mint>,
    tokens: map<Key, TokenAccount>,
    funded: set<Key>,
    clock: int)

  // ---------------------------------------------------------------- account access

  const CONFIG_DISCRIMINATOR: seq<byte> := [137, 155, 101, 95, 138, 72, 8, 182]
  const ENTRY_DISCRIMINATOR: seq<byte> := [51, 70, 173, 81, 219, 192, 234, 62]

  /** An account's contents as stored bytes. */
  function DataBytes(d: Data): seq<byte>
  {
    match d
    case ConfigData(c) =>
      CONFIG_DISCRIMINATOR + c.authority + c.credential + c.schema + c.sasProgram + [c.bump] + c.pendingAuthority
    case EntryData(e) => ENTRY_DISCRIMINATOR + e.wallet + [e.bump]
    case RawData(bytes) => bytes
  }

  /** The program's accounts fill the space they are created with, field by field. */
  lemma AccountLayout(c: HookConfig, e: WhitelistEntry)
    ensures var bs := DataBytes(ConfigData(c));
      && |bs| == 8 + 32 + 32 + 32 + 32 + 1 + 32
      && bs[..8] == [137, 155, 101, 95, 138, 72, 8, 182]
      && bs[8..40] == c.authority && bs[40..72] == c.credential && bs[72..104] == c.schema
      && bs[104..136] == c.sasProgram && bs[136] == c.bump && bs[137..169] == c.pendingAuthority
    ensures var bs := DataBytes(EntryData(e));
      && |bs| == 8 + 32 + 1
      && bs[..8] == [51, 70, 173, 81, 219, 192, 234, 62] && bs[8..40] == e.wallet && bs[40] == e.bump
  {
  }

  /** An address with no account reads as an empty one owned by the system program. */
  function OwnerAt(s: State, a: Key): Key
  {
    if a in s.accounts then s.accounts[a].owner else DEFAULT
  }

  function BytesAt(s: State, a: Key): seq<byte>
  {
    if a in s.accounts then DataBytes(s.accounts[a].data) else []
  }

  /** `Account<'info, HookConfig>` */
  function LoadConfig(w: World, s: State, a: Key): Result<HookConfig>
  {
    if a !in s.accounts then Err(AccountNotInitialized)
    else if s.accounts[a].owner != w.program then Err(AccountOwnedByWrongProgram)
    else if !s.accounts[a].data.ConfigData? then Err(AccountDiscriminatorMismatch)
    else Ok(s.accounts[a].data.config)
  }

  /** `Account<'info, WhitelistEntry>` */
  function LoadEntry(w: World, s: State, a: Key): Result<WhitelistEntry>
  {
    if a !in s.accounts then Err(AccountNotInitialized)
    else if s.accounts[a].owner != w.program then Err(AccountOwnedByWrongProgram)
    else if !s.accounts[a].data.EntryData? then Err(AccountDiscriminatorMismatch)
    else Ok(s.accounts[a].data.entry)
  }

  function Put(s: State, w: World, a: Key, data: Data): State
  {
    s.(accounts := s.accounts[a := Account(w.program, data)])
  }

  function Close(s: State, a: Key): State
  {
    s.(accounts := s.accounts - {a})
  }

  // ---------------------------------------------------------------- admin instructions

  /** The admin instructions with the accounts their callers pass, which may be any. */
  datatype Instruction =
    | InitializeConfig(authority: Key, config: Key, mint: Key, credential: Key, schema: Key, sasProgram: Key)
    | InitializeList(payer: Key, list: Key, mint: Key, config: Key)
    | UpdateConfig(authority: Key, config: Key, mint: Key, list: Key, credential: Key, schema: Key, sasProgram: Key)
    | AddToWhitelist(authority: Key, config: Key, entry: Key, mint: Key, wallet: Key)
    | RemoveFromWhitelist(authority: Key, config: Key, entry: Key, mint: Key, wallet: Key)
    | TransferAuthority(authority: Key, newAuthority: Key, config: Key, mint: Key)
    | AcceptAuthority(pendingAuthority: Key, config: Key, mint: Key)

  function NewConfig(w: World, i: Instruction): HookConfig
    requires i.InitializeConfig?
  {
    HookConfig(i.authority, i.credential, i.schema, i.sasProgram, w.Bump(ConfigSeed(i.mint)), DEFAULT)
  }

  function InitializeConfigResult(w: World, s: State, signers: set<Key>, i: Instruction): Result<State>
    requires i.InitializeConfig?
  {
    var signed := i.authority in signers;
    :- Require(signed, NotSigner);
    :- Require(i.mint in s.mints, AccountNotInitialized);
    :- Require(i.config == w.Pda(ConfigSeed(i.mint)), ConstraintSeeds);
    :- Require(i.config !in s.accounts, AccountAlreadyInUse);
    :- Require(s.mints[i.mint].mintAuthority == Some(i.authority), UnauthorizedMintAuthority);
    Ok(Put(s, w, i.config, ConfigData(NewConfig(w, i))))
  }

  /** The list bytes that an instruction leaves, from those it finds. */
  function WrittenList(before: seq<byte>, credential: Key, schema: Key, sasProgram: Key, reinit: bool)
    : Result<seq<byte>>
  {
    ProgramListPackable(credential, schema, sasProgram);
    Initialized(before, MetasFor(credential, schema, sasProgram), reinit)
  }

  /** The handler of list initialisation: create the account if it is empty, then write the
      list. */
  function CreateList(w: World, s: State, list: Key, config: HookConfig): Result<State>
  {
    var before := BytesAt(s, list);
    :- Require(before == [] ==> list !in s.accounts && list !in s.funded, AccountAlreadyInUse);
    var buffer := if before == [] then Zeros(ListSize(6)) else before;
    var after :- WrittenList(buffer, config.credential, config.schema, config.sasProgram, w.reinit);
    :- Require(before != [] ==> OwnerAt(s, list) == w.program, ExternalAccountDataModified);
    Ok(Put(s, w, list, RawData(after)))
  }

  function InitializeListResult(w: World, s: State, signers: set<Key>, i: Instruction): Result<State>
    requires i.InitializeList?
  {
    var signed := i.payer in signers;
    :- Require(signed, NotSigner);
    :- Require(i.mint in s.mints, AccountNotInitialized);
    var config :- LoadConfig(w, s, i.config);
    :- Require(i.payer == config.authority, Unauthorized);
    :- Require(i.list == w.Pda(ListSeed(i.mint)), ConstraintSeeds);
    :- Require(i.config == w.Addr(ConfigSeed(i.mint), config.bump), ConstraintSeeds);
    CreateList(w, s, i.list, config)
  }

  /** The second half of the update handler: zero the stored list and write it afresh. */
  function RewriteList(w: World, s: State, list: Key, config: HookConfig): Result<State>
  {
    var blank := Zeros(|BytesAt(s, list)|);
    var after :- WrittenList(blank, config.credential, config.schema, config.sasProgram, w.reinit);
    :- Require(OwnerAt(s, list) == w.program, ExternalAccountDataModified);
    Ok(Put(s, w, list, RawData(after)))
  }

  function UpdateConfigResult(w: World, s: State, signers: set<Key>, i: Instruction): Result<State>
    requires i.UpdateConfig?
  {
    var signed := i.authority in signers;
    :- Require(signed, NotSigner);
    var config :- LoadConfig(w, s, i.config);
    :- Require(i.mint in s.mints, AccountNotInitialized);
    :- Require(i.authority == config.authority, ConstraintRaw);
    :- Require(i.config == w.Addr(ConfigSeed(i.mint), config.bump), ConstraintSeeds);
    :- Require(i.list == w.Pda(ListSeed(i.mint)), ConstraintSeeds);
    var updated := config.(credential := i.credential, schema := i.schema, sasProgram := i.sasProgram);
    RewriteList(w, Put(s, w, i.config, ConfigData(updated)), i.list, updated)
  }

  function AddToWhitelistResult(w: World, s: State, signers: set<Key>, i: Instruction): Result<State>
    requires i.AddToWhitelist?
  {
    var signed := i.authority in signers;
    :- Require(signed, NotSigner);
    var config :- LoadConfig(w, s, i.config);
    :- Require(i.mint in s.mints, AccountNotInitialized);
    :- Require(i.entry == w.Pda(WhitelistSeed(i.mint, i.wallet)), ConstraintSeeds);
    :- Require(i.entry !in s.accounts, AccountAlreadyInUse);
    :- Require(i.config == w.Addr(ConfigSeed(i.mint), config.bump), ConstraintSeeds);
    :- Require(i.authority == config.authority, ConstraintRaw);
    Ok(Put(s, w, i.entry, EntryData(WhitelistEntry(i.wallet, w.Bump(WhitelistSeed(i.mint, i.wallet))))))
  }

  function RemoveFromWhitelistResult(w: World, s: State, signers: set<Key>, i: Instruction): Result<State>
    requires i.RemoveFromWhitelist?
  {
    var signed := i.authority in signers;
    :- Require(signed, NotSigner);
    var config :- LoadConfig(w, s, i.config);
    var entry :- LoadEntry(w, s, i.entry);
    :- Require(i.mint in s.mints, AccountNotInitialized);
    :- Require(i.config == w.Addr(ConfigSeed(i.mint), config.bump), ConstraintSeeds);
    :- Require(i.authority == config.authority, ConstraintRaw);
    :- Require(i.entry == w.Addr(WhitelistSeed(i.mint, i.wallet), entry.bump), ConstraintSeeds);
    Ok(Close(s, i.entry))
  }

  function TransferAuthorityResult(w: World, s: State, signers: set<Key>, i: Instruction): Result<State>
    requires i.TransferAuthority?
  {
    var signed := i.authority in signers;
    :- Require(signed, NotSigner);
    var config :- LoadConfig(w, s, i.config);
    :- Require(i.mint in s.mints, AccountNotInitialized);
    :- Require(i.authority == config.authority, ConstraintRaw);
    :- Require(i.config == w.Addr(ConfigSeed(i.mint), config.bump), ConstraintSeeds);
    Ok(Put(s, w, i.config, ConfigData(config.(pendingAuthority := i.newAuthority))))
  }

  function AcceptAuthorityResult(w: World, s: State, signers: set<Key>, i: Instruction): Result<State>
    requires i.AcceptAuthority?
  {
    var signed := i.pendingAuthority in signers;
    :- Require(signed, NotSigner);
    var config :- LoadConfig(w, s, i.config);
    :- Require(i.mint in s.mints, AccountNotInitialized);
    :- Require(i.pendingAuthority == config.pendingAuthority, NoPendingAuthority);
    :- Require(i.config == w.Addr(ConfigSeed(i.mint), config.bump), ConstraintSeeds);
    :- Require(config.pendingAuthority != DEFAULT, NoPendingAuthority);
    Ok(Put(s, w, i.config,
      ConfigData(config.(authority := config.pendingAuthority, pendingAuthority := DEFAULT))))
  }

  function InstructionResult(w: World, s: State, signers: set<Key>, i: Instruction): Result<State>
  {
    match i
    case InitializeConfig(_, _, _, _, _, _) => InitializeConfigResult(w, s, signers, i)
    case InitializeList(_, _, _, _) => InitializeListResult(w, s, signers, i)
    case UpdateConfig(_, _, _, _, _, _, _) => UpdateConfigResult(w, s, signers, i)
    case AddToWhitelist(_, _, _, _, _) => AddToWhitelistResult(w, s, signers, i)
    case RemoveFromWhitelist(_, _, _, _, _) => RemoveFromWhitelistResult(w, s, signers, i)
    case TransferAuthority(_, _, _, _) => TransferAuthorityResult(w, s, signers, i)
    case AcceptAuthority(_, _, _) => AcceptAuthorityResult(w, s, signers, i)
  }

  // ---------------------------------------------------------------- the transfer hook

  /** The hook's accounts in the order the caller must pass them. */
  datatype HookCall = HookCall(
    source: Key,
    mint: Key,
    destination: Key,
    authority: Key,
    list: Key,
    config: Key,
    credential: Key,
    schema: Key,
    sasProgram: Key,
    attestation: Key,
    whitelistEntry: Key)

  function CallOf(accounts: seq<Key>): Result<HookCall>
  {
    if |accounts| < 11 then Err(AccountNotEnoughKeys)
    else Ok(HookCall(accounts[0], accounts[1], accounts[2], accounts[3], accounts[4], accounts[5],
                     accounts[6], accounts[7], accounts[8], accounts[9], accounts[10]))
  }

  function AssertIsTransferring(t: TokenAccount): Outcome
  {
    match t.transferring
    case None => Fail(ExtensionNotFound)
    case Some(flag) => Require(flag, IsNotCurrentlyTransferring)
  }

  predicate MayTransfer(t: TokenAccount, authority: Key)
  {
    t.owner == authority || (t.delegate == Some(authority) && t.delegatedAmount > 0)
  }

  /** The checks on an authority that is not whitelisted. */
  function CheckAttestation(w: World, s: State, c: HookCall, config: HookConfig): Result<()>
  {
    var expected := w.Find(Seeds(AttestationSeed(config.credential, config.schema, c.authority)), config.sasProgram);
    :- Require(c.credential == config.credential, CredentialMismatch);
    :- Require(c.schema == config.schema, SchemaMismatch);
    :- Require(c.sasProgram == config.sasProgram, SasProgramMismatch);
    :- Require(c.attestation == expected, InvalidAttestation);
    :- Require(OwnerAt(s, c.attestation) == config.sasProgram, InvalidAttestation);
    Judge(BytesAt(s, c.attestation), s.clock)
  }

  /** The handler proper, on a source token account and a config already loaded. */
  function Handle(w: World, s: State, c: HookCall, t: TokenAccount, config: HookConfig): Result<()>
  {
    var isWhitelistEntry := OwnerAt(s, c.whitelistEntry) == w.program;
    :- AssertIsTransferring(t);
    :- Require(MayTransfer(t, c.authority), UnauthorizedTransferAuthority);
    if isWhitelistEntry then
      Require(c.whitelistEntry == w.Pda(WhitelistSeed(c.mint, c.authority)), InvalidWhitelistEntry).ToResult()
    else CheckAttestation(w, s, c, config)
  }

  /** The hook on whatever accounts it is called with. */
  function TransferHook(w: World, s: State, accounts: seq<Key>): Result<()>
  {
    var c :- CallOf(accounts);
    :- Require(c.source in s.tokens && c.mint in s.mints && c.destination in s.tokens, AccountNotInitialized);
    var config :- LoadConfig(w, s, c.config);
    :- Require(s.tokens[c.source].mint == c.mint, ConstraintTokenMint);
    :- Require(s.tokens[c.destination].mint == c.mint, ConstraintTokenMint);
    :- Require(c.list == w.Pda(ListSeed(c.mint)), ConstraintSeeds);
    :- Require(c.config == w.Addr(ConfigSeed(c.mint), config.bump), ConstraintSeeds);
    Handle(w, s, c, s.tokens[c.source], config)
  }

  // ---------------------------------------------------------------- steps and runs

  /** One transaction step: an instruction and who signed it, or something that happens
      around the program. */
  datatype Step =
    | Call(signers: set<Key>, instruction: Instruction)
    | Deposit(address: Key, account: Account)
    | Withdraw(address: Key)
    | Fund(address: Key)
    | SetMint(address: Key, mint: Mint)
    | CloseMint(address: Key)
    | SetToken(address: Key, token: TokenAccount)
    | CloseToken(address: Key)
    | Tick(seconds: nat)

  /** The state after a step. A failing instruction leaves the state as it was. */
  function After(w: World, s: State, step: Step): State
  {
    match step
    case Call(signers, i) =>
      (match InstructionResult(w, s, signers, i)
       case Ok(t) => t
       case Err(_) => s)
    case Deposit(a, account) => s.(accounts := s.accounts[a := account])
    case Withdraw(a) => Close(s, a)
    case Fund(a) => s.(funded := s.funded + {a})
    case SetMint(a, mint) => s.(mints := s.mints[a := mint])
    case CloseMint(a) => s.(mints := s.mints - {a})
    case SetToken(a, token) => s.(tokens := s.tokens[a := token])
    case CloseToken(a) => s.(tokens := s.tokens - {a})
    case Tick(seconds) => s.(clock := s.clock + seconds)
  }

  predicate Succeeds(w: World, s: State, step: Step)
  {
    step.Call? && InstructionResult(w, s, step.signers, step.instruction).Ok?
  }

  function Run(w: World, s: State, steps: seq<Step>): State
  {
    if steps == [] then s else After(w, Run(w, s, steps[..|steps| - 1]), steps[|steps| - 1])
  }
}
