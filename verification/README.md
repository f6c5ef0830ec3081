# Verified model of the Alien ID transfer hook

A Dafny 4.11 model of the `alien-id-transfer-hook` program and of the SDK code that encodes the
attestation payloads it relies on. `dafny verify dfyconfig.toml` checks everything.

## What is modelled

The program guards transfers of a Token-2022 mint. Per mint it keeps a `HookConfig`, the list of
extra accounts that the token program resolves on each transfer, and one `WhitelistEntry` for every
exempt wallet, all at addresses derived from seeds. The project models four parts and composes them.

| file | content |
|---|---|
| `Bytes.dfy`, `Results.dfy` | bytes, little-endian integers, outcomes and error codes |
| `Keys.dfy` | 32-byte keys, the seed strings of the four address families as concatenated bytes, derived addresses |
| `Metas.dfy` | the extra-account list and the resolver that interprets it |
| `ListLayout.dfy` | the byte layout of a stored list, reading it back, and writing it in place in a buffer |
| `AttestationAccount.dfy` | the attestation record, its stored bytes, and the hook's reader of them |
| `Program.dfy` | the account map, what each instruction does to it, the hook, steps and runs |
| `Bank.dfy` | the same instructions as methods that change mutable accounts and roll back on failure |
| `Registry.dfy` | the access-control table that the accounts amount to, and the proof that every instruction acts on the accounts as it should act on the table |
| `Handovers.dfy` | the two-step hand-over of authority as a machine over events |
| `Runs.dfy` | runs from genesis: authority history, whitelist ledger |
| `Surroundings.dfy` | what runs leave of everything around the program: time, lamports, mints, token and foreign accounts |
| `Isolation.dfy` | list/config agreement, outsiders, projection to one mint, commuting instructions |
| `Transfers.dfy` | transfers end to end, direct calls of the hook, verdicts over time |
| `Payload.dfy` | the SDK's payload encoder and a decoder driven by the schema layout |

Callers pass any accounts and any signers to an instruction; the model checks them as the program's
account constraints do, including the stored bump. A run is any sequence of instructions and of
things that happen around the program: accounts appearing or vanishing anywhere but at the program's
own addresses, lamports sent to any address, mints and token accounts changing or closing, time passing.

## What is assumed

- **Derived addresses.** `World.CollisionFree`: no two of the finitely many seed strings built from the
  keys in play (families, bumps 0 to 255) hash to one address under programs in play. Nothing is
  assumed of other strings. That the strings themselves differ is proved (`Keys.SeedFamiliesSeparate`),
  and so is that the hypotheses can be met (`Keys.WorldsExist`). Results that need only the consequence
  `World.Separated` say so; `World.Separation` derives it.
- **Framework and libraries.** Creating an account fails if one exists at the address. An `init` constraint
  copes with lamports already lying there; the list handler's own `create_account` does not, so a list is
  never created at an address somebody has funded. Accounts are loaded in field order, fields to be created
  come before the other constraints, and seeds come first among a field's constraints. A typed account
  fails to load if it is missing, owned by another program, or of another type. An address without an
  account reads as empty and owned by the system program, whose id is the default key. Writing the list
  fails if the buffer is too short or holds something else. Whether it fails over a list already stored
  is not decided by this repository: `World.reinit` selects either reading and every result holds under both.
- **Inputs.** The transferring flag, owner, delegate and delegated amount of a token account, mint
  authorities, attestation accounts and the clock are part of the state and change as they please.

Where a document and the code differ the model follows the code: `README.md:61` describes changing the
authority in one step, the code takes two; `admin-cli/README.md:59` asks to initialise the list again after
an update, which the update already did; `README.md:12` speaks of checking the attestation's signer, which
the code skips (`transfer_hook.rs:162`). An update also fails, changing nothing, while no list is stored.

## Model

| member | source | states |
|---|---|---|
| Keys.SeedFamiliesSeparate | programs/alien-id-transfer-hook/src/instructions/transfer_hook.rs:38-130 | the flattened seeds of config, list, whitelist and attestation addresses, bump included, determine the family, its keys and the bump |
| Keys.SeedsWrittenOut | programs/alien-id-transfer-hook/src/instructions/transfer_hook.rs:38-130 | the seed strings are the literal words followed by the keys in order, and the default key is 32 zeros |
| Keys.World.Separation | programs/alien-id-transfer-hook/src/instructions/update_config.rs:15-30 | if seed strings in play do not collide, an address of the program, under any bump, is derived from one use of seeds only |
| Keys.World.FoundApart | programs/alien-id-transfer-hook/src/instructions/transfer_hook.rs:122-130 | an attestation address found under the SAS program is an address of the hook program only if that is the SAS program and the seeds are the same |
| Keys.WorldsExist | programs/alien-id-transfer-hook/src/instructions/transfer_hook.rs:89-96 | the hypotheses on hashing are satisfiable for any keys with distinct first bytes |
| Metas.SinglePassTotal | programs/alien-id-transfer-hook/src/instructions/initialize_extra_account_meta_list.rs:43-92 | one left-to-right pass over any list resolves, from any accounts, exactly when every index points to an earlier position |
| Metas.ProgramListResolves | programs/alien-id-transfer-hook/src/instructions/initialize_extra_account_meta_list.rs:43-92 | from any first five accounts the program's list resolves to the config address, credential, schema, SAS program, attestation address and whitelist address, at positions 5 to 10 |
| ListLayout.ListRoundTrip | programs/alien-id-transfer-hook/src/instructions/initialize_extra_account_meta_list.rs:94-124 | a stored list reads back as the entries written, for any list that fits and any bytes after it |
| ListLayout.ProgramListPackable | programs/alien-id-transfer-hook/src/instructions/initialize_extra_account_meta_list.rs:45-92 | the program's six entries fit their 32-byte address fields for all keys |
| ListLayout.EntryAt | programs/alien-id-transfer-hook/src/instructions/initialize_extra_account_meta_list.rs:45-92 | entry k of any stored list is the 35 bytes from 16 + 35k on, with its signer and writable flags in the last two |
| ListLayout.StoredListWrittenOut | programs/alien-id-transfer-hook/src/instructions/initialize_extra_account_meta_list.rs:45-124 | the 226 bytes of the program's list for all keys, position by position: header, and for each of the six entries its kind, its 32 bytes, and two zero flags |
| ListLayout.FillZero | programs/alien-id-transfer-hook/src/instructions/update_config.rs:78-79 | the list buffer is zeroed in place, whatever its length |
| ListLayout.InitList | programs/alien-id-transfer-hook/src/instructions/initialize_extra_account_meta_list.rs:121-124 | writing entries one by one into a buffer leaves the encoded list and the old tail exactly if the buffer is long enough and blank, or already initialised under the permissive reading; otherwise reports which and leaves the buffer alone |
| AttestationAccount.LayoutCharacterized | programs/alien-id-transfer-hook/src/instructions/transfer_hook.rs:141-170 | the reader accepts exactly the bytes that begin with some stored attestation record and returns that record's expiry, negative ones included |
| AttestationAccount.AcceptedBytes | programs/alien-id-transfer-hook/src/instructions/transfer_hook.rs:141-170 | told from the bytes alone: the reader accepts exactly if byte 0 is 2 and there are at least 141 + n bytes, n being spelled by bytes 97 to 100 from the least significant on, and reads the signed number that bytes 133 + n to 140 + n spell |
| AttestationAccount.StoredLayout | idl/solana_attestation_service.json:676-708 | where each field of a stored record lies, and the numbers its bytes spell |
| AttestationAccount.ReadsStoredRecord | idl/solana_attestation_service.json:676-708 | on the stored form of any record with data shorter than 2^32, and any tail, the reader returns its expiry |
| AttestationAccount.StoredRecordUnique | idl/solana_attestation_service.json:676-708 | bytes hold at most one record, up to the token account after the expiry |
| AttestationAccount.JudgeMeaning | programs/alien-id-transfer-hook/src/instructions/transfer_hook.rs:141-179 | the verdict on an attestation's bytes is invalid, expired or accepted according to whether they hold a record, and one that is unexpired |
| Bank.Ledger.InitializeConfig | programs/alien-id-transfer-hook/src/instructions/initialize_config.rs:6-40 | succeeds exactly when the table grants it (the mint has no row and its mint authority signs), and then the mint's row is the one given, with nobody pending; a blank config created by `init` is undone when a later check fails |
| Bank.Ledger.InitializeList | programs/alien-id-transfer-hook/src/instructions/initialize_extra_account_meta_list.rs:11-127 | succeeds exactly when the table grants it, creates and writes the list, marks the mint as listed and nothing else; or reports the error and changes nothing |
| Bank.Ledger.InitialListData | programs/alien-id-transfer-hook/src/instructions/initialize_extra_account_meta_list.rs:43-124 | the list spelled out by initialisation is the program's list for the config's keys (its bytes are those of `StoredListWrittenOut`), written over the data found |
| Bank.Ledger.UpdatedListData | programs/alien-id-transfer-hook/src/instructions/update_config.rs:44-80 | the list spelled out by an update is that same list, written over as many zeros as there was data |
| Bank.Ledger.CreateAndWrite | programs/alien-id-transfer-hook/src/instructions/initialize_extra_account_meta_list.rs:94-124 | an empty list account is created at the list's size before writing, unless it or lamports are in the way; a failed write undoes the creation |
| Bank.Ledger.UpdateConfig | programs/alien-id-transfer-hook/src/instructions/update_config.rs:9-83 | config and list change together or not at all: succeeds exactly for the signed authority of a listed mint, and then only the three keys of the mint's row change; a refused update reports the first thing wrong with the call |
| Bank.Ledger.AddToWhitelist | programs/alien-id-transfer-hook/src/instructions/add_to_whitelist.rs:8-37 | succeeds exactly for the signed authority and a wallet not in the mint's whitelist, and then the row gains that wallet and no other row changes; a blank entry created by `init` is undone when the config's seeds or authority fail |
| Bank.Ledger.RemoveFromWhitelist | programs/alien-id-transfer-hook/src/instructions/remove_from_whitelist.rs:8-32 | succeeds exactly for the signed authority and a whitelisted wallet, and then the row loses that wallet and nothing else changes |
| Bank.Ledger.TransferAuthority | programs/alien-id-transfer-hook/src/instructions/transfer_authority.rs:7-35 | succeeds exactly for the signed authority, and then the nominee is pending in the mint's row and nothing else changes |
| Bank.Ledger.AcceptAuthority | programs/alien-id-transfer-hook/src/instructions/accept_authority.rs:8-34 | succeeds exactly for the signed pending authority if that is somebody, who then holds the authority in the mint's row with nobody pending, and nothing else changes |
| Bank.Ledger.Replay | programs/alien-id-transfer-hook/src/lib.rs:32-82 | performing the steps of any run one after the other reaches the state that run results are stated about |
| Registry.LoadedConfig | programs/alien-id-transfer-hook/src/instructions/update_config.rs:15-20 | a config account that passes the seed check under its own stored bump is the mint's canonical one |
| Registry.WritesList | programs/alien-id-transfer-hook/src/instructions/update_config.rs:78-80 | writing over blank bytes of the list's size, or over a stored list where accepted, yields the same list; writing over nothing fails |
| Registry.UpdatesConfig | programs/alien-id-transfer-hook/src/instructions/update_config.rs:9-83 | an update succeeds exactly for the signed authority on the mint's own config and stored list, and then both accounts are those of the new keys |
| Registry.InitializesList | programs/alien-id-transfer-hook/src/instructions/initialize_extra_account_meta_list.rs:11-127 | list initialisation succeeds exactly for the signed authority on the mint's own accounts, if there is no list and nobody funded its address, or over a stored list under the permissive reading; and then the list is that of the config |
| Program.AccountLayout | programs/alien-id-transfer-hook/src/state/hook_config.rs:5-23 | a config account's bytes fill the space reserved for it, with each field at its place; likewise a whitelist entry's |
| Registry.InstructionRefines | programs/alien-id-transfer-hook/src/lib.rs:32-75 | for any accounts and signers, an instruction succeeds exactly when it is well addressed and granted by the table, changes its own mint's row as it should, leaves every other mint and foreign account alone, and keeps the accounts proper |
| Registry.DenialReported | programs/alien-id-transfer-hook/src/error.rs:3-27 | a signed, well-addressed call that is refused reports the error that says why, in the framework's order of checks |
| Registry.RefusalReported | programs/alien-id-transfer-hook/src/instructions/update_config.rs:9-30 | every refused call of every instruction reports the first thing wrong with it: the missing signature, the first account that does not load, the first wrong caller or address, and else the denial told from the table |
| Runs.RunKeepsInv | programs/alien-id-transfer-hook/src/lib.rs:32-82 | along every run each account at an address of the program is owned by it, under the canonical bump, and is what its seeds say |
| Surroundings.SurroundingsAfterRun | programs/alien-id-transfer-hook/src/lib.rs:32-82 | after any run the clock has moved by the seconds that passed, and lamports, mints, token accounts and foreign accounts are as last written around the program: no instruction touches them |
| Runs.RunFollowsHandovers | programs/alien-id-transfer-hook/src/instructions/accept_authority.rs:9-33 | the authority of any mint moves through any run as the hand-over machine says |
| Handovers.HistoryOf | programs/alien-id-transfer-hook/src/instructions/accept_authority.rs:24-33 | the authority always has a history: its initialiser, then hand-overs each nominated by the authority in force and accepted by the nominee with no nomination in between, covering every acceptance |
| Runs.AuthorityProvenance | programs/alien-id-transfer-hook/src/instructions/accept_authority.rs:9-31 | if the authority differs between two points of a run, a chain of hand-overs accepted in between leads from the one to the other |
| Runs.PendingAuthority | programs/alien-id-transfer-hook/src/instructions/transfer_authority.rs:32-35 | somebody is pending exactly when the latest nomination names that somebody and is unconsumed |
| Runs.AcceptanceConsumesNomination | programs/alien-id-transfer-hook/src/instructions/accept_authority.rs:9-31 | every acceptance in a run consumes an earlier nomination of the accepting, non-default key: the latest one, not accepted before |
| Runs.AcceptancesConsumeNominations | programs/alien-id-transfer-hook/src/instructions/accept_authority.rs:24-31 | two acceptances consume two different nominations, the later one made after the earlier acceptance |
| Runs.AuthorityIsSomebody | programs/alien-id-transfer-hook/src/instructions/accept_authority.rs:25-28 | the default key never becomes an authority if it signs nothing |
| Runs.WhitelistLedger | programs/alien-id-transfer-hook/src/instructions/add_to_whitelist.rs:12-36 | over any run, additions less removals of a wallet are 0 or 1, and 1 exactly when the program owns an entry for that wallet at its whitelist address |
| Isolation.TableDeterminesAccounts | programs/alien-id-transfer-hook/src/state/hook_config.rs:5-19 | two proper states with the same row for a mint have the same accounts at all its addresses |
| Isolation.ListMatchesConfig | programs/alien-id-transfer-hook/src/instructions/update_config.rs:39-80 | after any run a stored list is program-owned, is the list of the current config, reads back as its entries, and marks none of them as signer or writable, in the entries as in the bytes |
| Isolation.ListPathIndependent | programs/alien-id-transfer-hook/src/instructions/update_config.rs:39-80 | runs that end with the same keys store the same list, however many updates they made |
| Isolation.OutsiderClosure | programs/alien-id-transfer-hook/src/instructions/transfer_authority.rs:8-25 | signers that include neither the authority nor the pending authority change no account of the mint, in runs of any length |
| Isolation.RunProjection | programs/alien-id-transfer-hook/src/instructions/update_config.rs:15-30 | after any interleaving over many mints, a mint's accounts and the outcomes of its instructions are those of its own sub-run |
| Isolation.DifferentMintsCommute | programs/alien-id-transfer-hook/src/instructions/add_to_whitelist.rs:12-26 | instructions about different mints commute, whole states compared |
| Transfers.ResolvedAccounts | programs/alien-id-transfer-hook/src/instructions/transfer_hook.rs:19-60 | decoding and resolving the stored list yields exactly the eleven accounts of the hook's struct, in its order |
| Transfers.TransferDecided | programs/alien-id-transfer-hook/src/instructions/transfer_hook.rs:73-184 | on accounts resolved from the stored list the hook's verdict, error included, is the decision told from the table and the attestation record; in particular an authority is unauthorized exactly if it is neither the source's owner nor its delegate with a positive amount |
| Transfers.TransferDecidedOnRuns | programs/alien-id-transfer-hook/src/instructions/transfer_hook.rs:73-184 | the same in every state that a run from genesis reaches |
| Transfers.NoMismatch | programs/alien-id-transfer-hook/src/instructions/transfer_hook.rs:88-134 | with resolved accounts no mismatch of whitelist entry, credential, schema, SAS program or address is ever reported, and an invalid attestation only when none is present |
| Transfers.HookExact | programs/alien-id-transfer-hook/src/instructions/transfer_hook.rs:37-139 | called directly with any accounts, the hook accepts if and only if the token accounts and mint match, list and config are the mint's, the transfer is under way, its authority is the owner or a delegate with a positive amount, and either the whitelist account passed is program-owned, canonical and of a whitelisted wallet, or it is not program-owned, all other accounts are canonical and the attestation is current |
| Transfers.DirectCallDecided | programs/alien-id-transfer-hook/src/instructions/transfer_hook.rs:73-184 | the verdict on a direct call with any accounts, including which error is reported first |
| Transfers.AttestationApart | programs/alien-id-transfer-hook/src/instructions/transfer_hook.rs:122-134 | the attestation address holds none of the program's accounts |
| Transfers.OwnProgramAttestsNobody | programs/alien-id-transfer-hook/src/instructions/transfer_hook.rs:115-139 | if the hook program is configured as the SAS program, only whitelisted wallets are admitted |
| Transfers.VerdictProjection | programs/alien-id-transfer-hook/src/instructions/transfer_hook.rs:73-184 | the verdict on a mint's transfers after any interleaving is the verdict after that mint's own sub-run |
| Transfers.VerdictOverTime | programs/alien-id-transfer-hook/src/instructions/transfer_hook.rs:169-179 | along a run that leaves a transfer's accounts alone the verdict is acceptance up to one point and rejection after it; never a change for whitelisted authorities and never-expiring attestations |
| Transfers.ExpiryDecides | programs/alien-id-transfer-hook/src/instructions/transfer_hook.rs:169-179 | along such a run an attested transfer is accepted as long as the seconds passed leave the clock below the record's expiry, or always if that is zero, and from then on is refused as expired |
| Payload.WriteU32LE | sdk/encoding.ts:1-5 | the four digits of the number to the base 256, least significant first, or a range error outside 0 to 2^32-1 |
| Bytes.ToLEDigit | sdk/encoding.ts:1-11 | byte k of a stored number is its k-th digit to the base 256 |
| Payload.WriteI64LE | sdk/encoding.ts:7-11 | eight bytes that spell the signed number in two's complement, least significant first, digit by digit, or a range error outside 64 bits |
| Payload.EncodeAlienIdAttestationData | sdk/schema.ts:45-71 | succeeds exactly for lengths below 2^32 and a 64-bit timestamp, and then the bytes are the length-prefixed fields, the version's low byte and the timestamp, in the schema's order |
| Payload.FieldsRoundTrip | sdk/schema.ts:37-44 | for records of any layout, decoding by the layout undoes encoding, whatever follows |
| Payload.DecodedFields | sdk/schema.ts:37-44 | the decoder accepts nothing but encodings of records with the layout |
| Payload.SchemaLayoutMatches | sdk/schema.ts:8-17 | the encoder's fields have the published layout 13, 0, 12, 12, 13, 3, in order |
| Payload.PayloadRoundTrip | sdk/schema.ts:45-71 | the record comes back, with any tail, exactly when its version is a byte and its timestamp is not negative |
| Payload.NegativeTimestampMisread | sdk/schema.ts:68-69 | the timestamp -1, written signed, is read by the U64 schema field as 2^64-1 |
| Payload.PayloadPrefixFree | sdk/schema.ts:53-70 | payloads are prefix-free and determine the record up to the version's low byte |
| Payload.PayloadInAttestation | sdk/schema.ts:53-70 | an attestation carrying any payload below 2^32 bytes reads as its intended expiry, and the payload's record can be read back from it |

## Left out

- Bank.Ledger.InitializeConfig: account space, rent and the resizing of old configs are not modelled.
- Bank.Ledger.RemoveFromWhitelist: the lamports returned by closing an entry are not modelled.
- Registry.DenialReported: a missing config or entry is reported as not initialized also where lamports lie at its address; the framework then names the wrong owner.
- ListLayout.InitList: looks at the first type-length-value entry of the buffer only; the program's lists never have another.
- ListLayout.ListRoundTrip: seeds drawn from instruction data or account data do not occur in the program's list and are not part of the layout here.
- Payload.EncodeAlienIdAttestationData: strings are taken as their UTF-8 bytes, and the version as an integer.
- Amounts of lamports (only whether an address was sent any), and the search for an off-curve bump.
- Account contents of the config and whitelist accounts are kept decoded; their bytes appear only where an attestation is read.
- Token-2022 internals: balances, fees, the allowance, and how mints and token accounts are stored.
- The SAS, credential-signer and session-registry programs; their accounts are arbitrary bytes in the state.
- `encodeSizedString` and `encodeSizedBytes`, instruction builders, the Meteora address helper, the admin CLI and deploy scripts: account wiring and concatenation with no further property.
