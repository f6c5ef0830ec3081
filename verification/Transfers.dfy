/** Transfers: the hook on the accounts that the stored list resolves to, against a decision
    told from the table and the attestation record alone. */
module Transfers {
  import opened Bytes
  import opened Results
  import opened Keys
  import opened Metas
  import opened ListLayout
  import opened AttestationAccount
  import opened Program
  import opened Registry
  import opened Runs
  import opened Isolation
  import opened Surroundings

  /** A transfer, as the accounts it is asked for. The authority may be a delegate. */
  datatype Transfer = Transfer(source: Key, mint: Key, destination: Key, authority: Key)

  /** The accounts that are there before the stored list is resolved. */
  function FirstFive(w: World, x: Transfer): seq<Key>
  {
    [x.source, x.mint, x.destination, x.authority, w.Pda(ListSeed(x.mint))]
  }

  function TransferOf(c: HookCall): Transfer
  {
    Transfer(c.source, c.mint, c.destination, c.authority)
  }

  /** What the token program does on a transfer: resolve the list stored for the mint, if
      there is one, after the four accounts of the transfer and the list itself, and call the
      hook on the outcome. */
  function Execute(w: World, s: State, x: Transfer): Result<()>
  {
    var list := w.Pda(ListSeed(x.mint));
    var first := FirstFive(w, x);
    if BytesAt(s, list) == [] then TransferHook(w, s, first)
    else match DecodeList(BytesAt(s, list))
      case None => Err(InvalidAccountData)
      case Some(metas) =>
        match Resolve(w, metas, first)
        case None => Err(AccountNotEnoughKeys)
        case Some(accounts) => TransferHook(w, s, accounts)
  }

  function AttestationAddress(w: World, r: Record, authority: Key): Key
  {
    w.Find(Seeds(AttestationSeed(r.credential, r.schema, authority)), r.sasProgram)
  }

  /** The attestation address holds a record kept by the configured SAS program. */
  ghost predicate Present(w: World, s: State, r: Record, authority: Key)
  {
    var a := AttestationAddress(w, r, authority);
    OwnerAt(s, a) == r.sasProgram && WellFormed(BytesAt(s, a))
  }

  /** It is present and has not expired. */
  ghost predicate Attested(w: World, s: State, r: Record, authority: Key)
  {
    var a := AttestationAddress(w, r, authority);
    OwnerAt(s, a) == r.sasProgram && Current(BytesAt(s, a), s.clock)
  }

  /** The decision on an authority that may transfer. */
  ghost function Admission(w: World, s: State, r: Record, authority: Key): Result<()>
  {
    if authority in r.whitelist then Ok(())
    else if Attested(w, s, r, authority) then Ok(())
    else if Present(w, s, r, authority) then Err(AttestationExpired)
    else Err(InvalidAttestation)
  }

  /** The decision once the accounts of a transfer are validated. */
  ghost function Ruling(w: World, s: State, r: Record, t: TokenAccount, authority: Key): Result<()>
  {
    if t.transferring == None then Err(ExtensionNotFound)
    else if t.transferring == Some(false) then Err(IsNotCurrentlyTransferring)
    else if !(t.owner == authority || (t.delegate == Some(authority) && t.delegatedAmount > 0)) then
      Err(UnauthorizedTransferAuthority)
    else Admission(w, s, r, authority)
  }

  /** The decision on a transfer of a mint with this row in the table. */
  ghost function Decision(w: World, s: State, v: Option<Record>, x: Transfer): Result<()>
  {
    if v.None? || !v.value.listed then Err(AccountNotEnoughKeys)
    else if x.source !in s.tokens || x.mint !in s.mints || x.destination !in s.tokens then Err(AccountNotInitialized)
    else if s.tokens[x.source].mint != x.mint || s.tokens[x.destination].mint != x.mint then Err(ConstraintTokenMint)
    else Ruling(w, s, v.value, s.tokens[x.source], x.authority)
  }

  // ---------------------------------------------------------------- the handler

  /** The accounts the handler insists on for a mint's config. */
  function CanonicalCall(w: World, r: Record, x: Transfer): HookCall
  {
    HookCall(x.source, x.mint, x.destination, x.authority,
      w.Pda(ListSeed(x.mint)), w.Pda(ConfigSeed(x.mint)), r.credential, r.schema, r.sasProgram,
      AttestationAddress(w, r, x.authority), w.Pda(WhitelistSeed(x.mint, x.authority)))
  }

  /** The eleven accounts of the hook's account struct, in its order. */
  function FullCall(w: World, r: Record, x: Transfer): seq<Key>
  {
    [x.source, x.mint, x.destination, x.authority, w.Pda(ListSeed(x.mint)), w.Pda(ConfigSeed(x.mint)),
     r.credential, r.schema, r.sasProgram, AttestationAddress(w, r, x.authority),
     w.Pda(WhitelistSeed(x.mint, x.authority))]
  }

  lemma WhitelistedIffOwned(w: World, s: State, mint: Key, authority: Key)
    requires Inv(w, s) && mint in w.keys && authority in w.keys && w.program != DEFAULT && Configured(w, s, mint)
    ensures OwnerAt(s, w.Pda(WhitelistSeed(mint, authority))) == w.program
      <==> authority in View(w, s, mint).value.whitelist
  {
    CanonicalEntry(w, s, mint, authority);
  }

  lemma HandlerDecides(w: World, s: State, c: HookCall, t: TokenAccount)
    requires Inv(w, s) && w.program != DEFAULT && c.mint in w.keys && c.authority in w.keys && Configured(w, s, c.mint)
    requires c == CanonicalCall(w, View(w, s, c.mint).value, TransferOf(c))
    requires t.transferring == Some(true) && MayTransfer(t, c.authority)
    ensures Handle(w, s, c, t, ConfigOf(w, s, c.mint)) == Admission(w, s, View(w, s, c.mint).value, c.authority)
  {
    WhitelistedIffOwned(w, s, c.mint, c.authority);
    JudgeMeaning(BytesAt(s, c.attestation), s.clock);
  }

  /** Resolving the stored list of a configured mint gives exactly the accounts that the
      handler insists on. */
  lemma ResolvedAccounts(w: World, s: State, x: Transfer)
    requires Inv(w, s) && x.mint in w.keys && w.Pda(ListSeed(x.mint)) in s.accounts
    ensures var list := w.Pda(ListSeed(x.mint));
      && Configured(w, s, x.mint)
      && BytesAt(s, list) != []
      && DecodeList(BytesAt(s, list)).Some?
      && var resolved := Resolve(w, DecodeList(BytesAt(s, list)).value, FirstFive(w, x));
         var r := View(w, s, x.mint).value;
         resolved == Some(FullCall(w, r, x))
         && CallOf(resolved.value) == Ok(CanonicalCall(w, r, x))
  {
    var list := w.Pda(ListSeed(x.mint));
    CanonicalList(w, s, x.mint);
    var c := ConfigOf(w, s, x.mint);
    ListReadsBack(c);
    ProgramListResolves(w, c.credential, c.schema, c.sasProgram, FirstFive(w, x));
    var r := View(w, s, x.mint).value;
    assert FullCall(w, r, x) == HookAccounts(w, c.credential, c.schema, c.sasProgram, FirstFive(w, x)) by {
      FullCallIs(w, r, x);
    }
  }

  lemma FullCallIs(w: World, r: Record, x: Transfer)
    ensures FullCall(w, r, x) == HookAccounts(w, r.credential, r.schema, r.sasProgram, FirstFive(w, x))
  {
  }

  lemma HookDecides(w: World, s: State, accounts: seq<Key>, x: Transfer)
    requires Inv(w, s) && w.program != DEFAULT && x.mint in w.keys && x.authority in w.keys
    requires Configured(w, s, x.mint) && View(w, s, x.mint).value.listed
    requires CallOf(accounts) == Ok(CanonicalCall(w, View(w, s, x.mint).value, x))
    ensures TransferHook(w, s, accounts) == Decision(w, s, View(w, s, x.mint), x)
  {
    CanonicalConfig(w, s, x.mint);
    var c := CanonicalCall(w, View(w, s, x.mint).value, x);
    if x.source in s.tokens { HandlerDecidesAll(w, s, c, s.tokens[x.source]); }
  }

  lemma HandlerDecidesAll(w: World, s: State, c: HookCall, t: TokenAccount)
    requires Inv(w, s) && w.program != DEFAULT && c.mint in w.keys && c.authority in w.keys && Configured(w, s, c.mint)
    requires c == CanonicalCall(w, View(w, s, c.mint).value, TransferOf(c))
    ensures Handle(w, s, c, t, ConfigOf(w, s, c.mint)) == Ruling(w, s, View(w, s, c.mint).value, t, c.authority)
  {
    if t.transferring == Some(true) && MayTransfer(t, c.authority) {
      HandlerDecides(w, s, c, t);
    }
  }

  lemma ExecuteDecides(w: World, s: State, x: Transfer)
    requires Inv(w, s) && w.program != DEFAULT && x.mint in w.keys && x.authority in w.keys
    ensures Execute(w, s, x) == Decision(w, s, View(w, s, x.mint), x)
  {
    var list := w.Pda(ListSeed(x.mint));
    CanonicalList(w, s, x.mint);
    if list in s.accounts {
      ResolvedAccounts(w, s, x);
      HookDecides(w, s, Resolve(w, DecodeList(BytesAt(s, list)).value, FirstFive(w, x)).value, x);
    }
  }

  lemma UnauthorizedMeans(w: World, s: State, v: Option<Record>, x: Transfer)
    ensures Decision(w, s, v, x) == Err(UnauthorizedTransferAuthority) <==>
      && v.Some? && v.value.listed
      && x.mint in s.mints
      && x.source in s.tokens && x.destination in s.tokens
      && s.tokens[x.source].mint == x.mint && s.tokens[x.destination].mint == x.mint
      && s.tokens[x.source].transferring == Some(true)
      && s.tokens[x.source].owner != x.authority
      && (s.tokens[x.source].delegate == Some(x.authority) ==> s.tokens[x.source].delegatedAmount == 0)
  {
    if x.source in s.tokens {
      var flag := s.tokens[x.source].transferring;
      if flag.Some? { assert flag == if flag.value then Some(true) else Some(false); }
    }
  }

  /** On every transfer, in every state a run can reach, the hook fed from the stored list
      decides as the table and the attestation record say, down to the error. In particular
      it reports an unauthorized authority exactly for one that is neither the owner nor a
      delegate with something left. */
  lemma TransferDecided(w: World, s: State, x: Transfer)
    requires Inv(w, s) && w.program != DEFAULT && x.mint in w.keys && x.authority in w.keys
    ensures Execute(w, s, x) == Decision(w, s, View(w, s, x.mint), x)
    ensures Execute(w, s, x) == Err(UnauthorizedTransferAuthority) <==>
      && View(w, s, x.mint).Some? && View(w, s, x.mint).value.listed
      && x.mint in s.mints
      && x.source in s.tokens && x.destination in s.tokens
      && s.tokens[x.source].mint == x.mint && s.tokens[x.destination].mint == x.mint
      && s.tokens[x.source].transferring == Some(true)
      && s.tokens[x.source].owner != x.authority
      && (s.tokens[x.source].delegate == Some(x.authority) ==> s.tokens[x.source].delegatedAmount == 0)
  {
    ExecuteDecides(w, s, x);
    UnauthorizedMeans(w, s, View(w, s, x.mint), x);
  }

  /** Along any run from genesis. */
  lemma TransferDecidedOnRuns(w: World, s: State, steps: seq<Step>, x: Transfer)
    requires w.Valid() && Genesis(w, s) && RunInPlay(w, steps) && x.mint in w.keys && x.authority in w.keys
    ensures var t := Run(w, s, steps);
      Execute(w, t, x) == Decision(w, t, View(w, t, x.mint), x)
  {
    w.Separation();
    GenesisIsProper(w, s, x.mint);
    RunKeepsInv(w, s, steps, |steps|);
    assert steps[..|steps|] == steps;
    TransferDecided(w, Run(w, s, steps), x);
  }

  /** With the accounts resolved from the stored list, the hook never reports a wrong whitelist
      entry, credential, schema or SAS program, nor a wrong address of any other account. */
  lemma NoMismatch(w: World, s: State, x: Transfer)
    requires Inv(w, s) && w.program != DEFAULT && x.mint in w.keys && x.authority in w.keys
    requires Execute(w, s, x).Err?
    ensures var e := Execute(w, s, x).error;
      && !e.InvalidWhitelistEntry? && !e.CredentialMismatch? && !e.SchemaMismatch? && !e.SasProgramMismatch?
      && !e.ConstraintSeeds? && !e.InvalidAccountData?
      && (e.InvalidAttestation? ==> View(w, s, x.mint).Some? && !Present(w, s, View(w, s, x.mint).value, x.authority))
  {
    TransferDecided(w, s, x);
    DecisionErrors(w, s, View(w, s, x.mint), x);
  }

  lemma DecisionErrors(w: World, s: State, v: Option<Record>, x: Transfer)
    requires Decision(w, s, v, x).Err?
    ensures var e := Decision(w, s, v, x).error;
      || e.AccountNotEnoughKeys? || e.AccountNotInitialized? || e.ConstraintTokenMint? || e.ExtensionNotFound?
      || e.IsNotCurrentlyTransferring? || e.UnauthorizedTransferAuthority? || e.AttestationExpired?
      || (e.InvalidAttestation? && v.Some? && !Present(w, s, v.value, x.authority))
  {
  }

  /** The verdict on an attestation passed for an authority: the first thing wrong with the
      accounts that lead to it, or what the record says. */
  ghost function AttestationVerdict(w: World, s: State, r: Record, accounts: seq<Key>): Result<()>
    requires |accounts| >= 11
  {
    if accounts[6] != r.credential then Err(CredentialMismatch)
    else if accounts[7] != r.schema then Err(SchemaMismatch)
    else if accounts[8] != r.sasProgram then Err(SasProgramMismatch)
    else if accounts[9] != AttestationAddress(w, r, accounts[3]) then Err(InvalidAttestation)
    else if Attested(w, s, r, accounts[3]) then Ok(())
    else if Present(w, s, r, accounts[3]) then Err(AttestationExpired)
    else Err(InvalidAttestation)
  }

  /** The verdict on the authority of a direct call. */
  ghost function AuthorityVerdict(w: World, s: State, r: Record, t: TokenAccount, accounts: seq<Key>): Result<()>
    requires |accounts| >= 11
  {
    if t.transferring == None then Err(ExtensionNotFound)
    else if t.transferring == Some(false) then Err(IsNotCurrentlyTransferring)
    else if t.owner != accounts[3] && (t.delegate != Some(accounts[3]) || t.delegatedAmount == 0) then
      Err(UnauthorizedTransferAuthority)
    else if OwnerAt(s, accounts[10]) != w.program then AttestationVerdict(w, s, r, accounts)
    else if accounts[10] != w.Pda(WhitelistSeed(accounts[1], accounts[3])) then Err(InvalidWhitelistEntry)
    else Ok(())
  }

  /** The verdict on a call of the hook with any accounts, in the order source, mint,
      destination, authority, list, config, credential, schema, SAS program, attestation,
      whitelist entry: the first thing wrong with them. */
  ghost function DirectVerdict(w: World, s: State, accounts: seq<Key>): Result<()>
  {
    if |accounts| < 11 then Err(AccountNotEnoughKeys)
    else if accounts[0] !in s.tokens || accounts[1] !in s.mints || accounts[2] !in s.tokens then
      Err(AccountNotInitialized)
    else if ConfigFault(w, s, accounts[5]).Some? then Err(ConfigFault(w, s, accounts[5]).value)
    else if s.tokens[accounts[0]].mint != accounts[1] || s.tokens[accounts[2]].mint != accounts[1] then
      Err(ConstraintTokenMint)
    else if accounts[4] != w.Pda(ListSeed(accounts[1])) || accounts[5] != w.Pda(ConfigSeed(accounts[1])) then
      Err(ConstraintSeeds)
    else AuthorityVerdict(w, s, View(w, s, accounts[1]).value, s.tokens[accounts[0]], accounts)
  }

  lemma AttestationChecked(w: World, s: State, accounts: seq<Key>, config: HookConfig, r: Record)
    requires |accounts| >= 11
    requires r.credential == config.credential && r.schema == config.schema && r.sasProgram == config.sasProgram
    ensures CheckAttestation(w, s, CallOf(accounts).value, config) == AttestationVerdict(w, s, r, accounts)
  {
    JudgeMeaning(BytesAt(s, accounts[9]), s.clock);
  }

  lemma AuthorityChecked(w: World, s: State, accounts: seq<Key>, t: TokenAccount)
    requires |accounts| >= 11 && Configured(w, s, accounts[1])
    ensures Handle(w, s, CallOf(accounts).value, t, ConfigOf(w, s, accounts[1]))
         == AuthorityVerdict(w, s, View(w, s, accounts[1]).value, t, accounts)
  {
    AttestationChecked(w, s, accounts, ConfigOf(w, s, accounts[1]), View(w, s, accounts[1]).value);
  }

  /** Called directly with whatever accounts, the hook decides exactly so, down to the error. */
  lemma DirectCallDecided(w: World, s: State, accounts: seq<Key>)
    requires Inv(w, s) && (|accounts| >= 11 ==> accounts[1] in w.keys)
    ensures TransferHook(w, s, accounts) == DirectVerdict(w, s, accounts)
  {
    if |accounts| >= 11 {
      var m := accounts[1];
      CanonicalConfig(w, s, m);
      if LoadConfig(w, s, accounts[5]).Ok? { OwnConfig(w, s, accounts[5], m); }
      if accounts[0] in s.tokens && Configured(w, s, m) { AuthorityChecked(w, s, accounts, s.tokens[accounts[0]]); }
    }
  }

  /** It accepts exactly if the token accounts and the mint are there and match, list and config
      are the mint's, the transfer is under way, its authority is the owner or a delegate with
      something left, and either the last account is that wallet's whitelist entry and the wallet
      is whitelisted, or it is no account of the program, the other accounts are the canonical
      ones, and the attestation is current. */
  lemma HookExact(w: World, s: State, accounts: seq<Key>)
    requires Inv(w, s) && w.program != DEFAULT
    requires |accounts| >= 11 ==> accounts[1] in w.keys && accounts[3] in w.keys
    ensures TransferHook(w, s, accounts).Ok? <==>
      && |accounts| >= 11
      && var source, mint, destination, authority := accounts[0], accounts[1], accounts[2], accounts[3];
      && mint in s.mints
      && source in s.tokens && s.tokens[source].mint == mint
      && destination in s.tokens && s.tokens[destination].mint == mint
      && accounts[4] == w.Pda(ListSeed(mint)) && accounts[5] == w.Pda(ConfigSeed(mint))
      && Configured(w, s, mint)
      && s.tokens[source].transferring == Some(true)
      && (s.tokens[source].owner == authority
          || (s.tokens[source].delegate == Some(authority) && s.tokens[source].delegatedAmount > 0))
      && var r := View(w, s, mint).value;
      if OwnerAt(s, accounts[10]) == w.program then
        accounts[10] == w.Pda(WhitelistSeed(mint, authority)) && authority in r.whitelist
      else
        accounts[6] == r.credential && accounts[7] == r.schema && accounts[8] == r.sasProgram
        && accounts[9] == AttestationAddress(w, r, authority) && Attested(w, s, r, authority)
    ensures TransferHook(w, s, accounts).Ok? ==>
      Ruling(w, s, View(w, s, accounts[1]).value, s.tokens[accounts[0]], accounts[3]).Ok?
  {
    DirectCallDecided(w, s, accounts);
    if |accounts| >= 11 {
      CanonicalConfig(w, s, accounts[1]);
      if Configured(w, s, accounts[1]) { WhitelistedIffOwned(w, s, accounts[1], accounts[3]); }
    }
  }

  // ---------------------------------------------------------------- the attestation account

  /** The attestation address is not one of the program's accounts; when the SAS program is
      the hook program itself there is no account there at all. */
  lemma AttestationApart(w: World, s: State, mint: Key, authority: Key)
    requires w.Valid() && Inv(w, s) && mint in w.keys && authority in w.keys && Configured(w, s, mint)
    ensures var a := AttestationAddress(w, View(w, s, mint).value, authority);
      w.HookAddress(a) ==> a !in s.accounts && View(w, s, mint).value.sasProgram == w.program
  {
    CanonicalKeys(w, s, mint);
    var r := View(w, s, mint).value;
    var x := AttestationSeed(r.credential, r.schema, authority);
    var a := AttestationAddress(w, r, authority);
    assert w.InPlay(x);
    if w.HookAddress(a) {
      var u, c: byte :| w.InPlay(u) && w.Addr(u, c) == a;
      w.FoundApart(u, c, x, r.sasProgram);
      assert ProperAt(w, s, u, c);
    }
  }

  /** A mint whose SAS program is set to the hook program admits whitelisted wallets only. */
  lemma OwnProgramAttestsNobody(w: World, s: State, mint: Key, authority: Key)
    requires w.Valid() && Inv(w, s) && mint in w.keys && authority in w.keys && Configured(w, s, mint)
    requires View(w, s, mint).value.sasProgram == w.program
    ensures Admission(w, s, View(w, s, mint).value, authority)
         == if authority in View(w, s, mint).value.whitelist then Ok(()) else Err(InvalidAttestation)
  {
    CanonicalKeys(w, s, mint);
    var r := View(w, s, mint).value;
    var x := AttestationSeed(r.credential, r.schema, authority);
    var a, b := AttestationAddress(w, r, authority), w.Bump(x);
    assert w.InPlay(x) && w.Addr(x, b) == a;
    assert ProperAt(w, s, x, b);
    assert OwnerAt(s, a) != r.sasProgram;
  }

  // ---------------------------------------------------------------- projection

  lemma AgreeOnAdmission(w: World, s: State, t: State, r: Record, authority: Key)
    requires SameAt(s, t, AttestationAddress(w, r, authority)) && s.clock == t.clock
    ensures Admission(w, s, r, authority) == Admission(w, t, r, authority)
  {
  }

  lemma AttestationAgrees(w: World, m: Key, s: State, t: State, authority: Key)
    requires w.Valid() && Inv(w, s) && Inv(w, t) && m in w.keys && authority in w.keys
    requires Agree(w, m, s, t) && Configured(w, s, m)
    ensures SameAt(s, t, AttestationAddress(w, View(w, s, m).value, authority))
  {
    AttestationApart(w, s, m, authority);
    AttestationApart(w, t, m, authority);
  }

  lemma DecisionFrom(w: World, s: State, t: State, v: Option<Record>, x: Transfer)
    requires s.tokens == t.tokens && s.mints == t.mints
    requires v.Some? ==> Admission(w, s, v.value, x.authority) == Admission(w, t, v.value, x.authority)
    ensures Decision(w, s, v, x) == Decision(w, t, v, x)
  {
  }

  /** After any interleaving over many mints, the hook's verdict on a mint's transfers is the
      verdict after the sub-run of that mint's own steps. */
  lemma VerdictProjection(w: World, s: State, steps: seq<Step>, x: Transfer)
    requires w.Valid() && Inv(w, s) && RunInPlay(w, steps) && x.mint in w.keys && x.authority in w.keys
    ensures Execute(w, Run(w, s, steps), x) == Execute(w, Run(w, s, Project(steps, x.mint)), x)
  {
    w.Separation();
    ProjectionAgrees(w, s, steps, x.mint);
    var t, t' := Run(w, s, steps), Run(w, s, Project(steps, x.mint));
    TransferDecided(w, t, x);
    TransferDecided(w, t', x);
    if Configured(w, t, x.mint) {
      AttestationAgrees(w, x.mint, t, t', x.authority);
      AgreeOnAdmission(w, t, t', View(w, t, x.mint).value, x.authority);
    }
    DecisionFrom(w, t, t', View(w, t, x.mint), x);
  }

  // ---------------------------------------------------------------- over time

  /** The run does not touch what a transfer's verdict is read from, except the clock. */
  ghost predicate Quiet(w: World, steps: seq<Step>, r: Record, x: Transfer)
  {
    forall i :: 0 <= i < |steps| ==> QuietStep(w, steps[i], r, x)
  }

  predicate QuietStep(w: World, step: Step, r: Record, x: Transfer)
  {
    match step
    case Call(_, i) => i.mint != x.mint
    case Deposit(a, _) => a != AttestationAddress(w, r, x.authority)
    case Withdraw(a) => a != AttestationAddress(w, r, x.authority)
    case Fund(_) => true
    case SetMint(a, _) => a != x.mint
    case CloseMint(a) => a != x.mint
    case SetToken(a, _) => a != x.source && a != x.destination
    case CloseToken(a) => a != x.source && a != x.destination
    case Tick(_) => true
  }

  /** What the verdict on a transfer is read from is as it was, and time has not run back. */
  ghost predicate StillReads(w: World, s: State, t: State, x: Transfer)
  {
    && View(w, t, x.mint) == View(w, s, x.mint)
    && (x.mint in s.mints <==> x.mint in t.mints)
    && (x.source in s.tokens <==> x.source in t.tokens)
    && (x.source in s.tokens ==> t.tokens[x.source] == s.tokens[x.source])
    && (x.destination in s.tokens <==> x.destination in t.tokens)
    && (x.destination in s.tokens ==> t.tokens[x.destination] == s.tokens[x.destination])
    && (Configured(w, s, x.mint) ==> SameAt(s, t, AttestationAddress(w, View(w, s, x.mint).value, x.authority)))
    && s.clock <= t.clock
  }

  lemma QuietStepReads(w: World, s: State, step: Step, x: Transfer)
    requires w.Valid() && w.Separated() && Inv(w, s) && StepInPlay(w, step) && x.mint in w.keys && x.authority in w.keys
    requires Configured(w, s, x.mint)
    requires QuietStep(w, step, View(w, s, x.mint).value, x)
    ensures StillReads(w, s, After(w, s, step), x)
  {
    var t := After(w, s, step);
    if step.Call? {
      CallView(w, s, step, x.mint);
      AttestationApart(w, s, x.mint, x.authority);
      AttestationApart(w, t, x.mint, x.authority);
    } else {
      OutsideStep(w, s, step);
    }
  }

  lemma StillReadsOn(w: World, a: State, b: State, c: State, x: Transfer)
    requires StillReads(w, a, b, x)
    requires StillReads(w, b, c, x)
    ensures StillReads(w, a, c, x)
  {
  }

  lemma {:induction false} QuietRunReads(w: World, s: State, steps: seq<Step>, i: nat, j: nat, x: Transfer)
    requires w.Valid() && w.Separated() && Inv(w, s) && RunInPlay(w, steps) && x.mint in w.keys && x.authority in w.keys
    requires Configured(w, s, x.mint) && Quiet(w, steps, View(w, s, x.mint).value, x)
    requires i <= j <= |steps|
    ensures View(w, StateAt(w, s, steps, i), x.mint) == View(w, s, x.mint)
    ensures StillReads(w, StateAt(w, s, steps, i), StateAt(w, s, steps, j), x)
    decreases j
  {
    if j == 0 {
      assert steps[..0] == [];
    } else if i < j {
      QuietRunReads(w, s, steps, i, j - 1, x);
      QuietRunReads(w, s, steps, j - 1, j - 1, x);
      var t := StateAt(w, s, steps, j - 1);
      RunKeepsInv(w, s, steps, j - 1);
      NextState(w, s, steps, j - 1);
      assert QuietStep(w, steps[j - 1], View(w, s, x.mint).value, x);
      QuietStepReads(w, t, steps[j - 1], x);
      StillReadsOn(w, StateAt(w, s, steps, i), t, StateAt(w, s, steps, j), x);
    } else {
      QuietRunReads(w, s, steps, j - 1, j - 1, x);
      var t := StateAt(w, s, steps, j - 1);
      RunKeepsInv(w, s, steps, j - 1);
      NextState(w, s, steps, j - 1);
      assert QuietStep(w, steps[j - 1], View(w, s, x.mint).value, x);
      QuietStepReads(w, t, steps[j - 1], x);
    }
  }

  /** The authority's attestation never expires. */
  ghost predicate NeverExpires(w: World, s: State, r: Record, authority: Key)
  {
    exists record :: Holds(BytesAt(s, AttestationAddress(w, r, authority)), record) && record.expiry == 0
  }

  lemma AdmissionFades(w: World, s: State, t: State, r: Record, authority: Key)
    requires SameAt(s, t, AttestationAddress(w, r, authority)) && s.clock <= t.clock
    ensures Admission(w, t, r, authority).Ok? ==> Admission(w, s, r, authority).Ok?
    ensures authority in r.whitelist ==> Admission(w, t, r, authority).Ok?
    ensures NeverExpires(w, s, r, authority) && Admission(w, s, r, authority).Ok? ==> Admission(w, t, r, authority).Ok?
  {
    var bytes := BytesAt(s, AttestationAddress(w, r, authority));
    assert bytes == BytesAt(t, AttestationAddress(w, r, authority));
    if Current(bytes, t.clock) {
      var record :| Holds(bytes, record) && Unexpired(record, t.clock);
      assert Unexpired(record, s.clock);
    }
    if NeverExpires(w, s, r, authority) {
      var record :| Holds(bytes, record) && record.expiry == 0;
      assert Unexpired(record, t.clock);
    }
  }

  /** The decision depends on the admission only where it comes to that. */
  lemma DecisionOk(w: World, s: State, t: State, r: Record, x: Transfer)
    requires x.mint in s.mints <==> x.mint in t.mints
    requires x.source in s.tokens <==> x.source in t.tokens
    requires x.source in s.tokens ==> t.tokens[x.source] == s.tokens[x.source]
    requires x.destination in s.tokens <==> x.destination in t.tokens
    requires x.destination in s.tokens ==> t.tokens[x.destination] == s.tokens[x.destination]
    requires Admission(w, t, r, x.authority).Ok? ==> Admission(w, s, r, x.authority).Ok?
    ensures Decision(w, t, Some(r), x).Ok? ==> Decision(w, s, Some(r), x).Ok?
    ensures Decision(w, s, Some(r), x).Ok? ==>
      && Admission(w, s, r, x.authority).Ok?
      && (Admission(w, t, r, x.authority).Ok? ==> Decision(w, t, Some(r), x).Ok?)
  {
  }

  /** A verdict can only go from acceptance to rejection as time passes; it does not change
      for a whitelisted authority or a never-expiring attestation. */
  lemma VerdictFades(w: World, s: State, t: State, x: Transfer)
    requires Inv(w, s) && Inv(w, t) && w.program != DEFAULT && x.mint in w.keys && x.authority in w.keys
    requires Configured(w, s, x.mint) && StillReads(w, s, t, x)
    ensures var r := View(w, s, x.mint).value;
      var before, after := Execute(w, s, x), Execute(w, t, x);
      && (after.Ok? ==> before.Ok?)
      && (before.Ok? && (x.authority in r.whitelist || NeverExpires(w, s, r, x.authority)) ==> after.Ok?)
  {
    TransferDecided(w, s, x);
    TransferDecided(w, t, x);
    AdmissionFades(w, s, t, View(w, s, x.mint).value, x.authority);
    DecisionOk(w, s, t, View(w, s, x.mint).value, x);
  }

  lemma VerdictFadesOnRuns(w: World, s: State, steps: seq<Step>, i: nat, j: nat, x: Transfer)
    requires w.Valid() && Inv(w, s) && RunInPlay(w, steps) && x.mint in w.keys && x.authority in w.keys
    requires Configured(w, s, x.mint) && Quiet(w, steps, View(w, s, x.mint).value, x)
    requires i <= j <= |steps|
    ensures var r := View(w, s, x.mint).value;
      var before := Execute(w, StateAt(w, s, steps, i), x);
      var after := Execute(w, StateAt(w, s, steps, j), x);
      && (after.Ok? ==> before.Ok?)
      && (before.Ok? && (x.authority in r.whitelist || NeverExpires(w, StateAt(w, s, steps, i), r, x.authority)) ==>
            after.Ok?)
  {
    w.Separation();
    QuietRunReads(w, s, steps, i, j, x);
    RunKeepsInv(w, s, steps, i);
    RunKeepsInv(w, s, steps, j);
    CanonicalConfig(w, StateAt(w, s, steps, i), x.mint);
    VerdictFades(w, StateAt(w, s, steps, i), StateAt(w, s, steps, j), x);
  }

  /** A sequence of verdicts that never recovers is acceptance up to a point. */
  lemma {:induction false} CutPoint(verdicts: seq<bool>) returns (cut: nat)
    requires forall i, j :: 0 <= i <= j < |verdicts| && verdicts[j] ==> verdicts[i]
    ensures cut <= |verdicts|
    ensures forall i :: 0 <= i < |verdicts| ==> (verdicts[i] <==> i < cut)
  {
    if verdicts == [] || verdicts[|verdicts| - 1] {
      cut := |verdicts|;
    } else {
      cut := CutPoint(verdicts[..|verdicts| - 1]);
    }
  }

  function Verdicts(w: World, s: State, steps: seq<Step>, x: Transfer): (vs: seq<bool>)
    ensures |vs| == |steps| + 1
    ensures forall i :: 0 <= i <= |steps| ==>
      vs[i] == Execute(w, StateAt(w, s, steps, i), x).Ok?
  {
    seq(|steps| + 1, i requires 0 <= i <= |steps| =>
      Execute(w, StateAt(w, s, steps, i), x).Ok?)
  }

  /** Along a run that leaves a transfer's accounts alone, its verdict is acceptance up to
      some point and rejection from there on. A whitelisted authority, or one whose
      attestation never expires, is accepted throughout if it is accepted at the start. */
  lemma VerdictOverTime(w: World, s: State, steps: seq<Step>, x: Transfer)
    returns (cut: nat)
    requires w.Valid() && Inv(w, s) && RunInPlay(w, steps) && x.mint in w.keys && x.authority in w.keys
    requires Configured(w, s, x.mint) && Quiet(w, steps, View(w, s, x.mint).value, x)
    ensures cut <= |steps| + 1
    ensures var vs := Verdicts(w, s, steps, x);
      forall i :: 0 <= i <= |steps| ==> (vs[i] <==> i < cut)
    ensures var r := View(w, s, x.mint).value;
      cut > 0 && (x.authority in r.whitelist || NeverExpires(w, s, r, x.authority)) ==> cut == |steps| + 1
  {
    var vs := Verdicts(w, s, steps, x);
    forall i, j | 0 <= i <= j < |vs| && vs[j] ensures vs[i] {
      VerdictFadesOnRuns(w, s, steps, i, j, x);
    }
    cut := CutPoint(vs);
    VerdictFadesOnRuns(w, s, steps, 0, |steps|, x);
    assert StateAt(w, s, steps, 0) == s by { assert steps[..0] == []; }
    assert vs[|steps|] <==> |steps| < cut;
  }

  /** The verdicts on an attested transfer along such a run, told from its record and the time
      that passes: acceptance while the expiry lies ahead, or always if there is none; from the
      second it is reached on the attestation is reported as expired. */
  lemma ExpiryDecides(w: World, s: State, steps: seq<Step>, x: Transfer, record: Attestation, i: nat)
    requires w.Valid() && Inv(w, s) && RunInPlay(w, steps) && x.mint in w.keys && x.authority in w.keys
    requires Configured(w, s, x.mint) && Quiet(w, steps, View(w, s, x.mint).value, x)
    requires Execute(w, s, x).Ok? && x.authority !in View(w, s, x.mint).value.whitelist
    requires Holds(BytesAt(s, AttestationAddress(w, View(w, s, x.mint).value, x.authority)), record)
    requires i <= |steps|
    ensures Execute(w, StateAt(w, s, steps, i), x) ==
      if record.expiry == 0 || s.clock + Elapsed(steps[..i]) < record.expiry then Ok(()) else Err(AttestationExpired)
  {
    var t := StateAt(w, s, steps, i);
    w.Separation();
    StillReadsAt(w, s, steps, x, i);
    SurroundingsAfterRun(w, s, steps[..i], x.mint);
    TransferStillAdmitted(w, s, t, x);
    HeldRecordDecides(w, s, t, View(w, s, x.mint).value, x.authority, record);
  }

  lemma StillReadsAt(w: World, s: State, steps: seq<Step>, x: Transfer, i: nat)
    requires w.Valid() && Inv(w, s) && RunInPlay(w, steps) && x.mint in w.keys && x.authority in w.keys
    requires Configured(w, s, x.mint) && Quiet(w, steps, View(w, s, x.mint).value, x) && i <= |steps|
    ensures Inv(w, StateAt(w, s, steps, i)) && StillReads(w, s, StateAt(w, s, steps, i), x)
  {
    w.Separation();
    assert steps[..0] == [];
    QuietRunReads(w, s, steps, 0, i, x);
    RunKeepsInv(w, s, steps, i);
  }

  lemma DecisionStays(w: World, s: State, t: State, r: Record, x: Transfer)
    requires StillReads(w, s, t, x) && Decision(w, s, Some(r), x).Ok?
    ensures Admission(w, s, r, x.authority).Ok? && Decision(w, t, Some(r), x) == Admission(w, t, r, x.authority)
  {
  }

  lemma TransferStillAdmitted(w: World, s: State, t: State, x: Transfer)
    requires Inv(w, s) && Inv(w, t) && w.program != DEFAULT && x.mint in w.keys && x.authority in w.keys
    requires Configured(w, s, x.mint) && StillReads(w, s, t, x) && Execute(w, s, x).Ok?
    ensures var r := View(w, s, x.mint).value;
      Admission(w, s, r, x.authority).Ok? && Execute(w, t, x) == Admission(w, t, r, x.authority)
  {
    ExecuteDecides(w, s, x);
    ExecuteDecides(w, t, x);
    DecisionStays(w, s, t, View(w, s, x.mint).value, x);
  }

  lemma HeldRecordDecides(w: World, s: State, t: State, r: Record, authority: Key, record: Attestation)
    requires SameAt(s, t, AttestationAddress(w, r, authority)) && authority !in r.whitelist
    requires Admission(w, s, r, authority).Ok? && Holds(BytesAt(s, AttestationAddress(w, r, authority)), record)
    ensures Admission(w, t, r, authority) ==
      if record.expiry == 0 || t.clock < record.expiry then Ok(()) else Err(AttestationExpired)
  {
    var bytes := BytesAt(t, AttestationAddress(w, r, authority));
    assert Holds(bytes, record);
    LayoutCharacterized(bytes);
    if record.expiry == 0 || t.clock < record.expiry { assert Unexpired(record, t.clock); }
  }
}
