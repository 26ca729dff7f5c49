# TerraLedger in Dafny

TerraLedger keeps agricultural parcels, their productivity certificates and the liens
on them in two Solana programs, and mirrors the liens in a PostgreSQL index that a Go
backend feeds from program events. This project models that system and proves what its
parts promise each other.

| file | what it models |
|---|---|
| `Borsh.dfy` | little-endian integers, length-prefixed strings, the Go indexer's bounds-checked decoders |
| `Accounts.dfy`, `TerraToken.dfy`, `LienRegistry.dfy` | accounts, events, and each instruction as a step that commits or leaves the state alone |
| `Ledger.dfy` | the instruction handlers as they run, field by field, proved against those steps, and what their callers can rely on |
| `Protocol.dfy` | runs of the chain: counters against live accounts, when registering and releasing succeed, locality |
| `DormantEvents.dfy` | which account makes the lien flag of a dormancy event right |
| `Refusals.dfy` | which transactions are refused, with which error, and who may act on a parcel |
| `LienRecords.dfy` | what a lien's account says over every run, from the SDK's bytes in to the SDK's reading out |
| `ParcelHistory.dfy` | dormancy, certificate and risk counters as functions of a parcel's whole history |
| `LienTable.dfy`, `Webhook.dfy` | the liens table and its repository, the credit profile's lien summary, event bytes and their handlers |
| `IndexAgreement.dfy`, `Redelivery.dfy` | replaying the chain's event bytes rebuilds the lien state, and exactly when; repeated delivery is harmless |
| `LienApi.dfy` | REST requests and webhook events interleaving between database calls |
| `Layout.dfy`, `SdkAccounts.dfy`, `InstructionData.dfy` | account layouts, the SDK's readers, the raw-offset reader, instruction builders in Go and TypeScript |
| `Indices.dfy`, `Scorer.dfy`, `Keeper.dfy` | index arithmetic, credit scores, the keeper's deadband over runs whose writes may fail, and the bytes it sends |
| `Batch.dfy` | the semaphore and wait-group protocol of `ProcessBatch` |
| `Series.dfy` | the synthetic monthly series and the calendar under it |

Run `dafny verify dfyconfig.toml` to verify everything.

## Modelling choices

- Strings are byte sequences, `float64` is `real`, `exp` is any function, a base58 or
  base64 text stands for the bytes it encodes.
- A program-derived address is an injective datatype of its seeds. Bumps are the
  canonical ones, supplied with the instruction. A failed `require!`, a failed account
  constraint and a panicking checked operation (the release profile has overflow checks
  on, `contracts/Cargo.toml`) all abort. Each instruction is a transaction of its own.
- Event discriminators are the first eight bytes of SHA-256 of `event:` and the name,
  written out as constants; instruction discriminators are those the SDK lists.
- Calls into Token-2022 and its companions are one flag: they all succeed or the mint
  aborts.
- In the liens table the id of a row is its position: ids are random and rows are never
  deleted. `NOW()` and the database's success or failure are parameters.

## What the proofs found

Six properties one would expect fail. For each there is a run that shows it, and the
exact condition under which it holds.

- `handleEncumbranceRegistered` never sets `ParcelID`
  (`backend/internal/adapter/controller/http/webhook_handler.go:227`), and `parcel_id` is
  a non-null foreign key; the program bounds only the length of a cadastral number, and
  a PostgreSQL text refuses a zero byte. `IndexAgreement.ReplayAgreesIff`: the index
  agrees with the chain on a cadastral exactly when the key admits the zero id and the
  cadastral holds no zero byte, or no lien was ever registered on it. Two transactions
  reach every other case (`IndexAgreement.DisagreementReached`).
- Two REST registrations can both pass the check; the loser of the insert is answered
  500, not the 409 that a later request gets (`LienApi.LoserOfRace`). Over every
  interleaving that happens exactly when more rows of the cadastral were inserted than
  released since the check, or a column cannot hold the request's text
  (`LienApi.RefusedIffOvertaken`).
- The keeper stores a score before it sends it, so a failed transaction is not retried.
  `Keeper.FailedSendRecoversIff`: the grade on chain is right again exactly when it
  already was that score's, or a later score left the deadband of the one before it or
  could not read it. `Keeper.RunAgreesIff` says when chain and row agree after any run.
- A change in LTV alone is never sent, and the row keeps three decimals
  (`backend/internal/infrastructure/migration/migrations/005_create_credit_scores.up.sql:6`)
  where the chain keeps four: `Keeper.LtvAgreesIff` says when the two are equal,
  `Keeper.LtvDisagreementReached` shows both ways they are not, and
  `Keeper.FallbackLtvAgrees` that with the fallback scorer they always are.
- A cancelled `ProcessBatch` returns without waiting. `Batch.ReturnedMapChangesIff`: the
  map it returned can still change exactly when a worker is fetching, or holds a score
  the map does not show. Four actions reach such a return (`Batch.EarlyReturnReached`).
- `seasonal_check` does not tie the optional lien account to the parcel, and byte 40 of
  an encumbrance account is a byte of its lender (`Layout.RawReaderAgrees`).
  `DormantEvents.FlagRightIffOwnIndex`: the dormancy event's flag is right in every
  reachable state exactly when the account is the parcel's own index; two transactions
  make it wrong for any other (`DormantEvents.OtherAccountIsWrong`).

Smaller findings:

- The SDK's mint instruction lacks the crop type, so the program always refuses it
  (`InstructionData.BuildMintCertificate`).
- No instruction ever moves a parcel's mint authority from its owner
  (`Refusals.AuthorityIsOwner`), so the keeper's assessment, signed by the relay key,
  commits only on parcels that key itself registered (`Refusals.RatingRefused`).
- A lien the webhook indexed has no lender name, so every lender with a name is answered
  403 when releasing it over REST (`LienApi.IndexedLienNeedsNoName`).
- In reachable worlds `ParcelNotVerified`, `UnauthorizedRelease` and
  `EncumbranceNotActive` are never reported (`Refusals.MintRefused`,
  `Refusals.PledgeRefused`, `Refusals.ReleaseRefused`).
- The repository's README (`README.md:70`) says a lien registration also checks that the
  parcel is not fraud-flagged. The handler does not; the model follows the handler.

## Model

| member | source | states |
|---|---|---|
| `Protocol.RunConsistent` | contracts/programs/lien_registry/src/instructions/register_encumbrance.rs:69-99 | after every run, each parcel's active count is the number of its live encumbrance accounts and at most one, its total is the number of committed registrations, and registrations are releases plus the live one |
| `Protocol.AtMostOneLiveLien` | contracts/programs/lien_registry/src/instructions/register_encumbrance.rs:12-28 | after every run, two live encumbrance accounts of one parcel are the same account, whoever the lenders |
| `Protocol.RegisterCommitsIffFree` | contracts/programs/lien_registry/src/instructions/register_encumbrance.rs:44-109 | in every reachable state a registration commits if and only if the parcel exists, no lender has a live lien on it, the amount is positive and the total is below 65535 |
| `Protocol.ZeroCountImpliesInit` | contracts/programs/lien_registry/src/instructions/register_encumbrance.rs:12-19 | a zero count already implies that no encumbrance account is in the way of `init` |
| `Protocol.ReleaseCommitsIffLive` | contracts/programs/lien_registry/src/instructions/release_encumbrance.rs:9-33 | in every reachable state a release commits if and only if that lender's account is live |
| `Protocol.ReleaseNeverSaturates` | contracts/programs/lien_registry/src/instructions/release_encumbrance.rs:35-60 | a committed release takes the count from one to zero, so the saturating subtraction never saturates, and leaves the parcel without a live lien |
| `Protocol.ReleaseFreesParcel` | contracts/programs/lien_registry/src/instructions/release_encumbrance.rs:35-60 | a live lien can always be released by its lender, after which any lender can register if and only if the total is below 65535 |
| `Protocol.PledgeRunCommits` | contracts/programs/terra_token/src/instructions/register_parcel.rs:29-69 | from the empty chain a parcel of any name up to 20 bytes, zero bytes included, and then a lien by any lender can be registered |
| `DormantEvents.OwnIndexIsRight` | contracts/programs/terra_token/src/instructions/seasonal_check.rs:44-53 | handed the parcel's own index, existing or not, the dormancy event's flag is whether a live lien exists, in every reachable state |
| `DormantEvents.OtherAccountIsWrong` | contracts/programs/terra_token/src/instructions/seasonal_check.rs:67-89 | after two transactions, any other account, or none, makes the event deny the lien of a pledged parcel |
| `DormantEvents.FlagRightIffOwnIndex` | contracts/programs/terra_token/src/instructions/seasonal_check.rs:13-32 | the flag is right in every reachable state if and only if the account is the parcel's own lien index |
| `Protocol.StepsCommute` | contracts/programs/lien_registry/src/instructions/register_encumbrance.rs:11-42 | from any state, transactions on different parcels commute and do not affect each other's success |
| `Refusals.OpeningRefused` | contracts/programs/terra_token/src/instructions/register_parcel.rs:8-41 | each error of a parcel registration occurs if and only if its rule is the first broken, with the literal bounds |
| `Refusals.WrongParcelRefused` | contracts/programs/terra_token/src/instructions/seasonal_check.rs:13-22 | every other parcel instruction is refused for an account its cadastral does not derive |
| `Refusals.AuthorityIsOwner` | contracts/programs/terra_token/src/instructions/register_parcel.rs:44-45 | over every run the mint authority of each parcel is its owner |
| `Refusals.RatingRefused` | contracts/programs/terra_token/src/instructions/update_risk_assessment.rs:8-32 | an assessment commits if and only if the owner's key signs and the numbers are at most 100, 3 and 10000; each error has its exact condition |
| `Refusals.MintRefused` | contracts/programs/terra_token/src/instructions/mint_certificate.rs:27-75 | a mint commits if and only if the owner signs, the latest decisive assessment is not below 20, the foreign calls succeed and neither counter is full; each error has its exact condition |
| `Refusals.CheckRefused` | contracts/programs/terra_token/src/instructions/seasonal_check.rs:34-42 | a check is too early if and only if 19440000 slots have not passed since the latest mint; each error has its exact condition |
| `Refusals.PledgeRefused` | contracts/programs/lien_registry/src/instructions/register_encumbrance.rs:9-66 | a registration is refused for the account by the lender's own lien, for the count by another's, and otherwise for a zero amount or a full total, exactly then |
| `Refusals.ReleaseRefused` | contracts/programs/lien_registry/src/instructions/release_encumbrance.rs:9-33 | a release is only ever refused for want of the account |
| `Refusals.HookVerdictIff` | contracts/programs/transfer_hook/src/lib.rs:17-28 | the hook reports fraud if and only if the latest decisive assessment was below 20, else expiry if and only if the last three checks were empty |
| `LienRecords.LiveLiensAreRecorded` | contracts/programs/lien_registry/src/instructions/register_encumbrance.rs:69-99 | over every run each live account says what its logged registration said: parties, amount, signature hash, certificate hash, the parcel's snapshot and the time |
| `LienRecords.IdentityIsFinal` | contracts/programs/terra_token/src/instructions/register_parcel.rs:43-62 | a registered parcel stays, with its owner, authority, name, area, class, KYC, snapshot and registration time, through every later run |
| `LienRecords.PledgeReadsBack` | sdk/src/accounts.ts:195-221 | when the transaction with the SDK's bytes commits, the serialized account reads as exactly what the lender handed in, active, with the parcel's snapshot and the time |
| `Ledger.Ledger.RegisterParcel` | contracts/programs/terra_token/src/instructions/register_parcel.rs:8-70 | succeeds if and only if the address is the cadastral's own and unused, the name is at most 20 bytes, the area positive and the land class 1 to 8; then only that parcel is added, every field as registered, ungraded, unflagged, unminted and transferable, and announced |
| `Ledger.Ledger.Submit` | contracts/programs/lien_registry/src/instructions/release_encumbrance.rs:9-60 | whatever the instruction: nothing is written on an error, nothing outside its parcel, and counters keep agreeing with accounts and histories; a registered lien takes a free parcel to that one live lien, whose account records the instruction, and one more in total; a release takes it back to free with the total unchanged; every other success changes only the fields it should, adds its deed to the history and logs its event |
| `Ledger.Ledger.ExecuteAll` | contracts/programs/terra_token/src/lib.rs:14-40 | a ledger that has run some transactions and executes more ends as the run of them all |
| `Ledger.Ledger.MintCertificate` | contracts/programs/terra_token/src/instructions/mint_certificate.rs:27-271 | guards, foreign calls as one flag, and the three checked counter updates are exactly the specified step; a success was unflagged and adds one mint to the history |
| `Ledger.Ledger.SeasonalCheck` | contracts/programs/terra_token/src/instructions/seasonal_check.rs:13-62 | the gated dormancy update, saturating at 255, and its event are exactly the specified step; a success leaves no pending mint and emits exactly when there was none |
| `Ledger.Ledger.UpdateRiskAssessment` | contracts/programs/terra_token/src/instructions/update_risk_assessment.rs:8-56 | range checks and the two threshold updates of the risk flag are exactly the specified step; in a sound ledger the flag ends 1 below 20, 0 from 40 and unchanged between |
| `Ledger.Ledger.RegisterEncumbrance` | contracts/programs/lien_registry/src/instructions/register_encumbrance.rs:9-109 | account constraints, guards and both account updates are exactly the specified step, with nothing written on abort; the new account records the instruction's parties, amount and both hashes in their places, the parcel's snapshot and the time |
| `Ledger.Ledger.ReleaseEncumbrance` | contracts/programs/lien_registry/src/instructions/release_encumbrance.rs:9-60 | account constraints, the decrement and the closing of the account are exactly the specified step; on success that lender's account existed, it alone is gone, and parcels are untouched |
| `ParcelHistory.CountersRefineHistory` | contracts/programs/terra_token/src/instructions/seasonal_check.rs:36-59 | over every run, submissions are the mints since the last check, dormancy is the smaller of 255 and the trailing run of checks with no mint before them, and the risk flag is that of the latest decisive assessment |
| `ParcelHistory.CertificatesConserved` | contracts/programs/terra_token/src/instructions/mint_certificate.rs:256-261 | the certificate count is all mints: those cleared by past checks plus the pending ones; the epoch is the latest mint's slot |
| `ParcelHistory.HookAcceptsIff` | contracts/programs/transfer_hook/src/lib.rs:17-28 | the hook accepts if and only if the latest assessment below 20 or at least 40, if any, was at least 40, and the last three checks were not all empty; the flag is 0 or 1 |
| `ParcelHistory.ChecksAreGated` | contracts/programs/terra_token/src/instructions/seasonal_check.rs:38-42 | with positive, non-decreasing slots, every committed check is a full season after every mint before it |
| `ParcelHistory.CheckCommitsIff` | contracts/programs/terra_token/src/instructions/seasonal_check.rs:34-42 | a check commits if and only if there was no mint or a season has passed since the last |
| `ParcelHistory.MintCommitsIff` | contracts/programs/terra_token/src/instructions/mint_certificate.rs:70-75 | a mint by the right parties commits if and only if the parcel is not flagged, fewer than 65535 mints were made and fewer than 255 since the last check |
| `Borsh.DecodeString` | backend/internal/adapter/controller/http/borsh.go:10-24 | succeeds exactly when the prefix and as many bytes as it says are there, and then those bytes are the Borsh encoding of the value, just consumed |
| `Borsh.DecodePubkey` | backend/internal/adapter/controller/http/borsh.go:26-33 | succeeds exactly when 32 bytes are left, and then they are the value |
| `Borsh.DecodeU16` | backend/internal/adapter/controller/http/borsh.go:35-41 | succeeds exactly when two bytes are left, and then they are the value's little-endian encoding |
| `Borsh.DecodeU32` | backend/internal/adapter/controller/http/borsh.go:43-49 | succeeds exactly when four bytes are left, and then they are the value's little-endian encoding |
| `Borsh.DecodeU64` | backend/internal/adapter/controller/http/borsh.go:51-57 | succeeds exactly when eight bytes are left, and then they are the value's little-endian encoding |
| `Borsh.DecodeStringInverts` | backend/internal/adapter/controller/http/borsh.go:10-24 | decodes an encoded string wherever it sits in the data |
| `Borsh.LittleEndian` | backend/internal/adapter/controller/http/borsh.go:35-57 | the i-th byte of an encoded integer is its i-th digit in base 256, the lowest first |
| `Webhook.RegisteredInverts` | backend/internal/adapter/controller/http/webhook_handler.go:202-220 | the decoder of EncumbranceRegistered inverts its encoding, whatever follows |
| `Webhook.KeyedInverts` | backend/internal/adapter/controller/http/webhook_handler.go:239-251 | the same for EncumbranceReleased, and for ParcelRegistered, which is read alike |
| `Webhook.MintedInverts` | backend/internal/adapter/controller/http/webhook_handler.go:159-183 | the same for CertificateMinted |
| `Webhook.RegisteredRejectsPrefix` | backend/internal/adapter/controller/http/webhook_handler.go:203-220 | every strict prefix of the fields of EncumbranceRegistered is refused |
| `Webhook.KeyedRejectsPrefix` | backend/internal/adapter/controller/http/webhook_handler.go:240-251 | every strict prefix of the fields of EncumbranceReleased or ParcelRegistered is refused |
| `Webhook.MintedRejectsPrefix` | backend/internal/adapter/controller/http/webhook_handler.go:160-183 | every strict prefix of the fields of CertificateMinted is refused |
| `Webhook.DeliverEvent` | backend/internal/adapter/controller/http/webhook_handler.go:121-136 | the bytes of any event the programs emit have exactly that event's effect on the table |
| `Webhook.RegisteredOffsets` | contracts/programs/lien_registry/src/instructions/register_encumbrance.rs:101-106 | the byte offset of every field of a registration's event, behind its discriminator |
| `Webhook.ReleasedOffsets` | contracts/programs/lien_registry/src/instructions/release_encumbrance.rs:51-57 | the same for a release's event |
| `Webhook.ReleasesItsRow` | backend/internal/adapter/controller/http/webhook_handler.go:257-265 | a release event makes the row it finds released, stamped with the time, and touches no other row; it changes nothing when it finds none |
| `Webhook.WebhookHandler.ProcessTransaction` | backend/internal/adapter/controller/http/webhook_handler.go:96-119 | folds the deliveries of its log lines, in order, over the table |
| `Webhook.WebhookHandler.HandleEncumbranceRegistered` | backend/internal/adapter/controller/http/webhook_handler.go:203-237 | appends the decoded lien, with a zero parcel id, no lender name and no hash, active from now, or changes nothing |
| `Webhook.WebhookHandler.HandleEncumbranceReleased` | backend/internal/adapter/controller/http/webhook_handler.go:240-266 | the active row of that lender and cadastral becomes released, stamped now, and no other row changes; without one nothing changes |
| `LienTable.LienPG.Create` | backend/internal/adapter/repository/lien_pg.go:25-44 | appends exactly that lien as an active row registered now, or reports text a column refuses, a double pledge when an active row exists, or a key violation when the parcel id is unknown, exactly then |
| `LienTable.AsciiRefused` | backend/internal/infrastructure/migration/migrations/003_create_liens.up.sql:1-15 | ASCII text is refused if and only if it holds a zero byte or is longer than 20, 44, 100 or 64 bytes in its column |
| `LienTable.CharCountsOnce` | backend/internal/infrastructure/migration/migrations/003_create_liens.up.sql:4-8 | a character counts once against a column's width, however many bytes it takes |
| `LienTable.LienPG.GetActive` | backend/internal/adapter/repository/lien_pg.go:65-83 | an active row of the cadastral, not found exactly when there is none, a query error exactly for a zero byte |
| `LienTable.LienPG.FindByWalletAndCadastral` | backend/internal/adapter/repository/lien_pg.go:163-181 | the first active row of that lender and cadastral, not found exactly when there is none, a query error exactly for a zero byte |
| `LienTable.LienPG.UpdateStatus` | backend/internal/adapter/repository/lien_pg.go:114-131 | changes one row's status alone, stamping releases with the time and nothing else, or reports that the row is missing |
| `LienTable.LienPG.ListByParcel` | backend/internal/adapter/repository/lien_pg.go:85-112 | the cadastral's rows in the query's order, or a query error exactly for a zero byte |
| `LienTable.SameRows` | backend/internal/adapter/repository/lien_pg.go:86-91 | that order is by descending registration time, over the same rows |
| `LienTable.BuildEncumbranceData` | backend/internal/adapter/controller/http/credit_handler.go:157-171 | the listed rows, their number and the active ones; a double-pledge risk exactly when an active row exists |
| `LienTable.ProfileCounts` | backend/internal/adapter/controller/http/credit_handler.go:157-171 | the profile's active liens are exactly the table's active rows of the cadastral, its history count the number of its rows |
| `LienTable.FilterActiveLiens` | backend/internal/adapter/controller/http/credit_handler.go:346-354 | keeps the active rows, in order |
| `LienTable.InsertKeepsSafe` | backend/internal/infrastructure/migration/migrations/015_unique_active_lien.up.sql:1-3 | an insert never makes a second active row for a cadastral |
| `LienTable.UpdateKeepsUnique` | backend/internal/infrastructure/migration/migrations/015_unique_active_lien.up.sql:1-3 | nor does any change of status; bringing a row back is refused if and only if another active row holds its cadastral |
| `IndexAgreement.HandlerReplays` | backend/internal/adapter/controller/http/webhook_handler.go:96-119 | handling a transaction is replaying its payloads |
| `IndexAgreement.ReplayTracks` | backend/internal/adapter/controller/http/webhook_handler.go:203-266 | in every reachable world, a table rebuilt from its event bytes gives a cadastral an active row for exactly the live lender, with that amount as an int64, and as many rows as registrations, when the table takes the rows, and none when it does not |
| `IndexAgreement.ReleasesAreIndexed` | backend/internal/adapter/repository/lien_pg.go:114-131 | in every reachable world a rebuilt cadastral has as many released rows as liens released on chain, an active row while one is live, and none disputed |
| `IndexAgreement.ReplayAgreesIff` | backend/internal/infrastructure/migration/migrations/003_create_liens.up.sql:1-15 | index and chain agree on a cadastral if and only if the foreign key admits the zero parcel id and the cadastral holds no zero byte, or no lien was ever registered on it |
| `IndexAgreement.DisagreementReached` | contracts/programs/terra_token/src/instructions/register_parcel.rs:33-36 | every other case is reached by registering a parcel and one lien |
| `IndexAgreement.ProfileMatchesChain` | backend/internal/adapter/controller/http/credit_handler.go:157-171 | the profile's risk flag is whether the active count is positive, its history count is the total, and its active row names the one live lien, with the same amount if and only if below 2^63 |
| `Redelivery.DeliverTwice` | backend/internal/adapter/repository/lien_pg.go:35-38 | delivering any payload twice in a row is delivering it once |
| `Redelivery.StutteringIsHarmless` | backend/internal/adapter/controller/http/webhook_handler.go:227-265 | repeating each payload any number of times in a row gives the table of delivering each once |
| `Redelivery.StutteredReplayRebuilds` | backend/internal/adapter/controller/http/webhook_handler.go:96-136 | however often each of a run's events is delivered in a row, the table is one that single deliveries rebuild |
| `Redelivery.StutteredReplayAgreesIff` | backend/internal/adapter/controller/http/webhook_handler.go:96-136 | so it agrees with the chain under the same exact condition |
| `LienApi.EveryScheduleSafe` | backend/internal/adapter/controller/http/lien_handler.go:24-93 | in every interleaving no cadastral has two active rows, and exactly the released rows carry a release time |
| `LienApi.ReleasedIsFinal` | backend/internal/adapter/repository/lien_pg.go:114-131 | in every interleaving rows are only appended, keep their lien, and once released never become active |
| `LienApi.AnswersAreFinal` | backend/internal/adapter/controller/http/lien_handler.go:24-93 | in every interleaving an answered request keeps its answer |
| `LienApi.FailedIs500` | backend/internal/adapter/controller/http/lien_handler.go:30-50 | a database error in the middle of a request answers 500 and writes nothing |
| `LienApi.WinsAreBalanced` | backend/internal/adapter/controller/http/lien_handler.go:30-67 | in every interleaving from any table, successful inserts for a cadastral and the active row before balance effective releases and the active row after |
| `LienApi.RefusedIffOvertaken` | backend/internal/adapter/controller/http/lien_handler.go:30-67 | over every interleaving after a registration's check, its insert is answered 500 if and only if more rows of the cadastral were inserted than released since, or a column refuses its text; else 201, never 409 |
| `LienApi.LoserOfRace` | backend/internal/adapter/controller/http/lien_handler.go:30-67 | that is reached: of two requests past the check the second insert is refused with 500, while a later request gets 409 |
| `LienApi.LienHandler.Register` | backend/internal/adapter/controller/http/lien_handler.go:24-70 | undisturbed, the handler is its three steps of the interleaving; it answers 409 exactly when an active row exists, 404 exactly when there is none and no parcel, 500 for text the database refuses; a 201 appends exactly the input's cadastral, wallet, amount and hash under the caller's lender name and the parcel found, active from now |
| `LienApi.LienHandler.Release` | backend/internal/adapter/controller/http/lien_handler.go:72-93 | undisturbed, the handler is its two steps of the interleaving; it answers 404 exactly for a missing row, 200 exactly to the lender named on it, else 403, and a 200 releases that row alone, stamped now |
| `LienApi.RegistrantCanRelease` | backend/internal/adapter/controller/http/lien_handler.go:54-93 | a lender who registers a lien is answered 200 when releasing it, and anyone else 403 |
| `LienApi.IndexedLienNeedsNoName` | backend/internal/adapter/controller/http/lien_handler.go:83-86 | a lien the webhook indexed is released over REST by no lender with a name |
| `LienApi.HookRegisterIsDelivery` | backend/internal/adapter/controller/http/webhook_handler.go:227-236 | the step of a registration event changes the table as delivering the event does |
| `LienApi.HookReleaseIsDelivery` | backend/internal/adapter/controller/http/webhook_handler.go:257-265 | so do the two steps of a release event, undisturbed |
| `Layout.RawReaderAgrees` | contracts/programs/terra_token/src/instructions/seasonal_check.rs:67-89 | on the bytes of any account of any state the byte-40 reader says what the model's reader says; on an index, whether its count is positive |
| `Layout.EncumbranceOffsets` | contracts/programs/lien_registry/src/state/encumbrance.rs:5-16 | the byte offset of every field of a serialized encumbrance |
| `Layout.IndexOffsets` | contracts/programs/lien_registry/src/state/lien_index.rs:5-10 | the same for a lien index |
| `Layout.ParcelOffsets` | contracts/programs/terra_token/src/state/parcel.rs:5-25 | the same for a parcel, shifted by the length of its cadastral |
| `SdkAccounts.StatusCodes` | sdk/src/accounts.ts:189-206 | the SDK shows 1 as released, 2 as disputed, and 0 and every other code as active |
| `SdkAccounts.EncumbranceReadAt` | sdk/src/accounts.ts:195-221 | which bytes of the account each field of an encumbrance's reading shows |
| `SdkAccounts.IndexReadAt` | sdk/src/accounts.ts:234-243 | the same for a lien index |
| `SdkAccounts.ParcelReadAt` | sdk/src/accounts.ts:130-168 | the same for a parcel, shifted by the length of its cadastral |
| `SdkAccounts.DeserializeLienIndex` | sdk/src/accounts.ts:234-243 | succeeds exactly on long enough data, with the index whose bytes follow the discriminator; on any serialized index, whatever follows it, returns that index |
| `SdkAccounts.DeserializeEncumbrance` | sdk/src/accounts.ts:195-221 | the same for encumbrances, with unknown status codes read as active; any serialized encumbrance is returned as itself |
| `SdkAccounts.DeserializeParcelConfig` | sdk/src/accounts.ts:130-168 | the same for parcels, although the cadastral string shifts every later offset; any serialized parcel is returned as itself |
| `SdkAccounts.IndexReadsBack` | contracts/programs/lien_registry/src/state/lien_index.rs:3-10 | a serialized index, whatever follows it, can only be read as itself |
| `SdkAccounts.EncumbranceReadsBack` | contracts/programs/lien_registry/src/state/encumbrance.rs:3-16 | a serialized encumbrance, whatever follows it, can only be read as itself |
| `SdkAccounts.ParcelReadsBack` | contracts/programs/terra_token/src/state/parcel.rs:3-25 | a serialized parcel, whatever follows it, can only be read as itself |
| `SdkAccounts.ParcelIsReadable` | sdk/src/accounts.ts:54-59 | a serialized parcel is long enough for every read, whatever the length of its cadastral |
| `SdkAccounts.RawReaderMatchesDeserializer` | contracts/programs/terra_token/src/instructions/seasonal_check.rs:82-88 | on any bytes the SDK reads as an index, the program's raw reader answers whether the SDK's count is positive |
| `InstructionData.RiskBytesDecode` | contracts/programs/terra_token/src/instructions/update_risk_assessment.rs:24-30 | the risk-assessment bytes decode to the same cadastral, score, grade and LTV |
| `InstructionData.RiskBytesOffsets` | backend/internal/infrastructure/service/keeper.go:317-329 | where the discriminator, length, cadastral, score, grade and LTV sit |
| `InstructionData.EncumbranceBytesOffsets` | sdk/src/program.ts:290-296 | where the discriminator, cadastral, amount and the two hashes sit |
| `InstructionData.BuildRiskAssessmentData` | backend/internal/infrastructure/service/keeper.go:317-329 | the Go builder fills its buffer with exactly those bytes |
| `InstructionData.BuildUpdateRiskAssessment` | sdk/src/program.ts:244-270 | the TypeScript builder does too, for its numbers coerced to their widths |
| `InstructionData.ConcatBytes` | sdk/src/program.ts:121-130 | concatenates the arrays in order |
| `InstructionData.EncodeStringBuffer` | sdk/src/program.ts:113-119 | is the Borsh encoding of the string |
| `InstructionData.BuildRegisterEncumbrance` | sdk/src/program.ts:279-296 | for any amount and any arrays the data is the concatenated encodings; the program reads the amount modulo 2^64 and the first 64 bytes of the two arrays, and refuses the data if and only if they are fewer |
| `InstructionData.BuildMintCertificate` | sdk/src/program.ts:170-183 | the data ends at the score, and never decodes as the program's arguments |
| `Indices.Avg` | backend/internal/usecase/ndvi/usecase.go:174-183 | the mean, zero when there is nothing |
| `Indices.ReversedTrend` | backend/internal/usecase/ndvi/usecase.go:143-167 | reversing a series swaps improving and declining and keeps stable |
| `Indices.ShiftedTrend` | backend/internal/usecase/ndvi/usecase.go:143-167 | adding a constant never changes the trend |
| `Indices.ShiftedEndsTrend` | backend/internal/usecase/ndvi/usecase.go:143-167 | a series whose last third is its first third raised by c improves if and only if c is above 0.03, and declines if and only if it is below -0.03 |
| `Indices.LinearTrend` | backend/internal/usecase/ndvi/usecase.go:143-167 | a straight line is judged by its slope over all values but a third |
| `Indices.EnrichScoringFromCerts` | backend/internal/infrastructure/service/keeper.go:189-221 | trend of all values, and averages of exactly the readings that are present |
| `Indices.ComputeAHI` | backend/internal/usecase/ndvi/usecase.go:187-227 | nothing for an empty list, else the weighted index of the tallies |
| `Indices.NormalizersInterpolate` | backend/internal/usecase/ndvi/usecase.go:229-259 | each normalizer maps its index's range linearly onto [0, 1], caps the two non-negative ones at 1, and takes a missing index to one half |
| `Indices.UniformHealth` | backend/internal/usecase/ndvi/usecase.go:187-227 | copies of one certificate score 40, 25, 20 and 15 percent of its four mapped readings, one half for a missing one, and are under water stress if and only if its reading is below -0.3 |
| `Indices.HealthPermuted` | backend/internal/usecase/ndvi/usecase.go:187-227 | the index does not depend on the order of the certificates |
| `Indices.HealthMonotone` | backend/internal/usecase/ndvi/usecase.go:187-259 | raising any readings never lowers the composite |
| `Indices.HealthInUnit` | backend/internal/usecase/ndvi/usecase.go:187-259 | the composite is in [0, 1] for readings in their ranges, whichever optional ones are missing |
| `Scorer.ClampResponse` | backend/internal/adapter/repository/claude_scorer.go:150-157 | any model output becomes valid, and a valid one is unchanged |
| `Scorer.FallbackScore` | backend/internal/adapter/repository/claude_scorer.go:173-223 | the clamped sum of points with its grade and LTV, always valid |
| `Scorer.FallbackMonotone` | backend/internal/adapter/repository/claude_scorer.go:173-223 | a parcel at least as good on every count is never scored or lent against lower |
| `Scorer.LandFactsAreWorth` | backend/internal/adapter/repository/claude_scorer.go:173-186 | a neutral parcel has 50 points; vegetation, freedom from liens and land class add 20, 15 and 10, each dormant season takes 10 |
| `Scorer.SeasonFactsAreWorth` | backend/internal/adapter/repository/claude_scorer.go:188-201 | drought takes 10 points, growth adds 5, and the trend adds or takes 5 |
| `Scorer.GradeByPoints` | backend/internal/adapter/repository/claude_scorer.go:269-280 | A from 80 points, B from 60, C from 40, with LTVs 0.7, 0.5, 0.3 and 0.1 |
| `Keeper.ScoreBytesAccepted` | backend/internal/infrastructure/service/keeper.go:237-239 | for every valid score the bytes decode on chain to the same values and pass all three range checks |
| `Keeper.BuildLikeSdk` | sdk/src/program.ts:252-260 | for every valid score the Go and TypeScript builders give the same bytes |
| `Keeper.Keeper.ProcessParcel` | backend/internal/infrastructure/service/keeper.go:114-122 | one tick stores and, when the score moved enough, writes exactly as specified |
| `Keeper.Keeper.SendRiskAssessment` | backend/internal/infrastructure/service/keeper.go:223-263 | the parcel on chain becomes the assessed one exactly when the score moved enough and the transaction lands, under the keeper's own cadastral number |
| `Keeper.TickEffect` | backend/internal/infrastructure/service/keeper.go:101-122 | a tick without its seasonal check or a score changes nothing; else the row takes score and grade, the LTV to the nearest thousandth, if the upsert succeeds, and the chain takes score, grade code 0 to 3 for A to D and basis points if the send succeeds and the row was unread, missing, or 5 points or a grade away |
| `Keeper.BetterScoreLowerCode` | backend/internal/infrastructure/service/keeper.go:304-315 | a better score never gets a worse grade code, and all are at most 3 |
| `Keeper.NewParcelIsUngraded` | contracts/programs/terra_token/src/instructions/register_parcel.rs:60-62 | a new parcel carries the code of D, the worst |
| `Keeper.DeadbandDrift` | backend/internal/infrastructure/service/keeper.go:223-272 | over every reliable run, from the first scored tick the grade on chain is the stored one and the scores differ by at most 4 per skipped tick |
| `Keeper.CaughtUp` | backend/internal/infrastructure/service/keeper.go:223-272 | the same from any stale state, once a reliable run writes |
| `Keeper.DriftIsTight` | backend/internal/infrastructure/service/keeper.go:265-272 | that bound is reached for every number of skips the score range allows |
| `Keeper.GradeAgreesIff` | backend/internal/infrastructure/service/keeper.go:118-120 | from agreeing grades, a scored tick keeps them agreeing if and only if the grade did not change or the upsert and the transaction both succeed or both fail |
| `Keeper.RunOutcome` | backend/internal/infrastructure/service/keeper.go:114-122 | over every run, whatever fails, the row is the latest stored score, rounded, and the parcel holds the latest landed one |
| `Keeper.RunAgreesIff` | backend/internal/infrastructure/service/keeper.go:114-122 | then grades, scores and LTVs agree if and only if the latest landed and stored ones do, the LTV as basis points against thousandths |
| `Keeper.FailedSendRecoversIff` | backend/internal/infrastructure/service/keeper.go:166-172 | after a failed send and any reliable ticks the grade on chain is right if and only if it was that score's already or some later score left the deadband of the one before or could not read it; until then the chain is untouched |
| `Keeper.RepeatsAreSteady` | backend/internal/infrastructure/service/keeper.go:265-272 | any number of ticks with the same score never leave it |
| `Keeper.RoundedBasisPoints` | backend/internal/infrastructure/migration/migrations/005_create_credit_scores.up.sql:6 | the stored LTV equals the sent one if and only if its fourth decimal is zero |
| `Keeper.LtvAgreesIff` | backend/internal/infrastructure/service/keeper.go:234-239 | after a reliable scored tick the LTVs agree if and only if it is sent with a zero fourth decimal, or is skipped and rounds to what the chain has |
| `Keeper.LtvDisagreementReached` | backend/internal/infrastructure/service/keeper.go:265-272 | 0.12345 is 1234 basis points on chain and 0.123 in the row, and a new LTV alone is stored and not sent |
| `Keeper.FallbackLtvAgrees` | backend/internal/adapter/repository/claude_scorer.go:173-223 | with the fallback scorer, over every reliable run, grade and LTV on chain are the stored ones |
| `Batch.AtMostThreeFetching` | backend/internal/usecase/ndvi/usecase.go:30-43 | in every schedule at most 3 workers are fetching |
| `Batch.ThreeFetchReached` | backend/internal/usecase/ndvi/usecase.go:30-43 | with enough parcels, 1, 2 and 3 workers fetch at once |
| `Batch.SelectChoices` | backend/internal/usecase/ndvi/usecase.go:33-38 | the loop can start a worker if and only if fewer than 3 hold a token, cancelled or not, and return early if and only if cancelled |
| `Batch.EveryScheduleEnds` | backend/internal/usecase/ndvi/usecase.go:33-67 | every schedule has at most seven actions per parcel plus three |
| `Batch.StuckIsReturned` | backend/internal/usecase/ndvi/usecase.go:33-67 | a schedule that cannot go on has returned with no worker running and, uncancelled, every parcel done |
| `Batch.WaitedResults` | backend/internal/usecase/ndvi/usecase.go:55-67 | a batch that waited returns exactly the cadastrals with a successful fetch, each with a score one of its fetches returned, and the map is final |
| `Batch.ReturnedMapChangesIff` | backend/internal/usecase/ndvi/usecase.go:34-38 | after any return, in every schedule, the returned map can still change if and only if a worker is fetching or holds a score the map does not show |
| `Batch.EarlyReturnReached` | backend/internal/usecase/ndvi/usecase.go:34-38 | with two parcels or more, cancelling after the first worker started reaches such a return |
| `Series.AddMonthLasts` | backend/internal/adapter/repository/copernicus.go:476-491 | a month later is as many days later as the starting month has, overflow included |
| `Series.BeforeIsEarlier` | backend/internal/adapter/repository/copernicus.go:476 | the comparison of dates is the calendar's order |
| `Series.MonthStarts` | backend/internal/adapter/repository/copernicus.go:476-491 | on which day of a common and of a leap year each month starts |
| `Series.CycleDays` | backend/internal/adapter/repository/copernicus.go:476-491 | four hundred years are 146097 days and the leap years repeat |
| `Series.FallbackTimeSeries` | backend/internal/adapter/repository/copernicus.go:461-494 | empty exactly when start is not before end; else consecutive periods from start, each as long as its starting month, all starting before end and the last reaching it, with their season's readings; as spans of days they are chained from start |
| `Series.EveryDayOnce` | backend/internal/adapter/repository/copernicus.go:476-492 | every day from the start of chained spans to their end lies in exactly one |
| `Series.SeasonTable` | backend/internal/adapter/repository/copernicus.go:476-512 | the readings of a period in each of the four seasons, in numbers, and the leaf-area estimate with its two constants |
| `Series.BaseOf` | backend/internal/adapter/repository/copernicus.go:471-474 | an unknown parcel's base is 0.65, a known one's the mean of its four values |
| `Series.YearAveragesBase` | backend/internal/adapter/repository/copernicus.go:476-492 | from any month, twelve consecutive periods average to the base: the seasonal offsets cancel |
| `Series.LaiClamped` | backend/internal/adapter/repository/copernicus.go:448-458 | the leaf-area estimate is in [0, 8] and grows with the index, for any non-negative increasing `exp` |

## Left out

- Token-2022, associated-token, rent and metadata calls of `mint_certificate`: foreign programs; only their joint success matters to the parcel.
- HTTP, JSON, SQL text, Solana RPC, the Copernicus and model APIs, wallets, React pages: plumbing or user interface.
- UTF-8 validity of texts in PostgreSQL, and its cutting of trailing spaces beyond a column's width: an insert is refused for a zero byte, too many characters, the unique index or the foreign key.
- Random row ids: they are taken to be distinct, so a row's position stands for its id.
- Several instructions in one transaction, and logs of failed transactions: each instruction commits or aborts alone and emits only when it commits.
- Effects of certificate and parcel events on their own tables: only the liens table is followed; those events are proved to decode and to leave it alone.
- Out-of-order delivery and redelivery after a release: the handler keeps no record of processed signatures, so only repetition in a row is harmless.
- Answers lost after the database has committed: a request that fails does so before its next call.
- UTF-8 validation and the byte-order mark that `TextDecoder` strips: strings are byte sequences.
- SdkAccounts.DeserializeParcelConfig: a read past the end, which raises a RangeError or yields an undefined field, is one failure value.
- Keeper.DeadbandDrift: assumes upserts and transactions succeed; `Keeper.RunAgreesIff` and `Keeper.FailedSendRecoversIff` say what holds when they do not. Only the keeper writes the row and the parcel's assessment.
- The parcel authority's check of the keeper's key: whether the transaction lands is a parameter of the tick.
- The keeper's list of due parcels, satellite fetch, and agent-decision log: they do not touch the score or the parcel.
- Floating-point rounding: reals are exact.
- The 500 answers for a database error in the middle of a release event: such an event just ends; it changes no row.
- `web/src/solana/program.ts` and `web/src/solana/accounts.ts`: the web client's own builders and readers are not modelled; the SDK's are.
- The Phantom relay, the reconciler, the geocoder, consent and masking in profiles: they neither change liens nor feed scores.
