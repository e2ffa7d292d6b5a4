# Stellar membership: a verified model

A member of the community is a soulbound token of a Soroban contract. The
token id is the person; the address that owns it is only the current key, which
can be rotated, recovered after a delay on the word of an attester, or moved by
an admin. The attester is a worker that signs only what OAuth claims support. An
app reads members from the ledger in batches and keeps them in paged lists.

This project models the contract, the worker, the two together, and the parts of
the app and of the shared code that carry an algorithm, and proves what they are
for.

| file | what it holds |
|---|---|
| `Types.dfy` | bounds, records, storage keys, errors, events, calls, authorizations |
| `Model.dfy` | the contract as a transition function, entry point by entry point |
| `Invariants.dfy` | the storage invariants, inductive over every entry point |
| `Calls.dfy` | non-interference, conservation, owner changes, account changes, calls that undo each other |
| `Outcomes.dfy` | when every call succeeds, its error otherwise, what it returns, which cancellations are announced |
| `Runs.dfy` | runs of transactions, the event log, and replay |
| `Recovery.dfy` | the timed recovery protocol over runs, and replacing the attester |
| `Contract.dfy` | the contract as an object that rewrites its entries step by step, with times to live, inside a host that rolls back |
| `Membership.dfy` | claims, account sets, hexadecimal |
| `Attest.dfy` | the checks of the worker, and their agreement with the app |
| `System.dfy` | contract and worker together, with reads of any age |
| `Completions.dfy` | onboarding, changing accounts and recovery from start to end, from every reachable state |
| `Pages.dfy` | page arithmetic, look-up in the page cache, patching it |
| `Scenarios.dfy` | concrete runs: a recovery that survives its attester, a token revoked between two reads |
| `Reads.dfy` | batched ledger reads, and the list loaded through them |
| `Utf8.dfy` | encoder, decoder and the byte clamp |

`dafny verify dfyconfig.toml --resource-limit 2000000` checks everything.

How to read the model:

- A call carries the set of authorizations supplied with it, each an address and
  what it signed: a call with all of its arguments, or the first three arguments
  of a mint. Authorizations are given facts.
- `Step` maps storage and transaction to an error, or to the new storage and the
  published events. `Contract.StellarMembership` is the imperative form: its
  entry points change one entry after the other and stop at the first error, and
  `Invoke` restores storage, times to live and events when one does. Its ghost
  history ties every object to a run, so that what is proved of runs holds of it.
- Integer widths are explicit: `nextTokenId` and ledger timestamps are bounded,
  and the additions that can overflow fail the call.
- Soroban strings are byte strings, and their length counts bytes. On the app's
  side strings are sequences of Unicode scalar values.
- `n` in `StateAt(init, txs, n)` counts transactions, failed ones included, which
  change nothing; `n` in `SysAt(init, actions, n)` counts what contract and worker
  did. Timestamps are not assumed to grow: nothing proved needs it.

Three places where the code does not do what its documentation says or suggests,
each with the exact condition:

- A record of a pending recovery is documented as voided by replacing the
  attester. Finalizing only compares addresses, so setting the former attester
  again revives the request, in every storage
  (`Recovery.ReinstatedAttesterRevives`) and in a run of five calls from a
  construction (`Scenarios.RevivedInARun`). It stays void exactly as long as
  that attester is not set again (`Recovery.ReplacedAttesterFinalizesNothing`).
- A member read in a batch has no owner just when it is revoked, in all runs,
  exactly when all the occurrences of its id in the batch fall in one request
  (`Reads.SnapshotIffOneRequest`); distinct ids always do. The run in which it
  fails otherwise mints every id up to that one and revokes it between two
  requests (`Reads.TornInARun`).
- The byte clamp is documented to cut a string. The decoder also drops a byte
  order mark in front, so a clamped string that starts with one is not a prefix
  of it, except in the cases `Utf8.ClampIsPrefixIff` lists; a mark and two
  letters cut to four bytes give the first letter (`Utf8.ClampIsNoPrefix`).

## Model

| member | source | states |
|---|---|---|
| `Invariants.StepKeepsInv` | contracts/stellar-membership/src/storage.rs:3-8 | the four storage invariants, with the record bounds and the id range they rest on, survive every successful entry point |
| `Invariants.AccountEntryIff` | contracts/stellar-membership/src/storage.rs:7 | in every valid storage Account(p, id) = t iff some account of Member(t) has provider p and id `id` |
| `Invariants.OneMemberPerAccount` | contracts/stellar-membership/src/storage.rs:120-128 | two records, revoked or not, with an account of the same provider and id are the same record, and the account is the same |
| `Invariants.RecordedMatch` | contracts/stellar-membership/src/storage.rs:120-136 | unbinding a token's accounts and binding free ones keeps Account(p, id) = t exactly for the accounts of Member(t) |
| `Invariants.MovedInverse` | contracts/stellar-membership/src/storage.rs:86-98 | giving a token to an address that holds none keeps Owner and TokenOf inverse, with or without a previous owner |
| `Model.CheckAccountsMeaning` | contracts/stellar-membership/src/storage.rs:151-164 | validation passes exactly for bounded ids and handles and at most one account a provider |
| `Outcomes.FirstFault` | contracts/stellar-membership/src/storage.rs:151-164 | validation fails at the first account that is out of bounds or has a later one of its provider, with that fault's error |
| `Calls.NonInterference` | contracts/stellar-membership/src/storage.rs:85-136 | a call about one token leaves record, owner, address link, accounts and recovery of every other token alone |
| `Calls.Conservation` | contracts/stellar-membership/src/storage.rs:3-8 | as many owners and address links as ids minted minus tokens revoked |
| `Calls.RecordsPersist` | contracts/stellar-membership/src/token.rs:26-43 | records never disappear, and only a mint adds one, under the next id |
| `Calls.OwnerChangeKinds` | contracts/stellar-membership/src/keys.rs:9-127 | one call changes an owner only by mint, rotation signed by both keys, admin move, or a recovery in its window |
| `Calls.HoldingChangesWithOwner` | contracts/stellar-membership/src/storage.rs:85-105 | the token an address holds changes only with an owner that is this address before or after |
| `Calls.SetExternalAccountsExact` | contracts/stellar-membership/src/member.rs:47-65 | signed and validated, it fails with AccountAlreadyBound iff another member has an account of the same provider and id; else the map loses the old accounts, gains the new, and nothing more, overlaps included |
| `Outcomes.MintOutcome` | contracts/stellar-membership/src/token.rs:10-37 | success and each error of a mint that is signed or not, valid or not: ids left, address free, no member with an account of the same provider and id |
| `Outcomes.MintInvalid` | contracts/stellar-membership/src/token.rs:22-24 | the error of a signed mint that is invalid: accounts, then bio, then projects |
| `Outcomes.RevokeOutcome` | contracts/stellar-membership/src/token.rs:58-71 | success and each error |
| `Outcomes.SetRoleOutcome` | contracts/stellar-membership/src/member.rs:34-45 | success and each error |
| `Outcomes.SetExternalAccountsOutcome` | contracts/stellar-membership/src/member.rs:47-65 | success and each error, an account of another member included |
| `Outcomes.CallerRefused` | contracts/stellar-membership/src/storage.rs:52-58 | what owner-or-admin calls are refused for before their arguments are looked at |
| `Outcomes.SetBioOutcome` | contracts/stellar-membership/src/member.rs:67-77 | success iff the caller may and the bio has at most 128 bytes |
| `Outcomes.SetProjectsOutcome` | contracts/stellar-membership/src/member.rs:79-89 | success iff the caller may and there are at most 10 projects of 1 to 128 bytes, and the errors |
| `Outcomes.ExtendMemberOutcome` | contracts/stellar-membership/src/member.rs:22-32 | success iff the id was minted |
| `Outcomes.RotateKeyOutcome` | contracts/stellar-membership/src/keys.rs:9-25 | success iff both keys signed and the new address holds nothing, whatever recovery is pending; and each error |
| `Outcomes.ProposeRecoveryOutcome` | contracts/stellar-membership/src/keys.rs:27-61 | success, with a delay of seven days, and each error, overflow included |
| `Outcomes.CancelRecoveryOutcome` | contracts/stellar-membership/src/keys.rs:63-70 | success iff the caller may and a request is pending, stale or not |
| `Outcomes.NothingToFinalize` | contracts/stellar-membership/src/keys.rs:73-74 | the error without a pending request, and only then |
| `Outcomes.FinalizeRecoveryOutcome` | contracts/stellar-membership/src/keys.rs:72-104 | success within a window of seven days, and each error of a pending request |
| `Outcomes.RecoverOutcome` | contracts/stellar-membership/src/keys.rs:106-127 | success iff the admin signed, the id was minted and the address holds nothing; and each error |
| `Outcomes.SettingsOutcome` | contracts/stellar-membership/src/admin.rs:45-89 | the three settings change iff the admin signed |
| `Outcomes.Returned` | contracts/stellar-membership/src/token.rs:26-55 | a mint returns the id it gave, which had no record and is then owned by `to`; no other call returns anything |
| `Outcomes.CancellationsAnnounced` | contracts/stellar-membership/src/storage.rs:107-118 | a cancellation is announced by exactly the calls that drop a pending request without carrying it out |
| `Calls.RevokeUndoesReinstate` | contracts/stellar-membership/src/lib.rs:162-181 | recover of a revoked token to an unheld address, then revoke, succeeds and restores the whole storage |
| `Calls.ReinstateUndoesRevoke` | contracts/stellar-membership/src/lib.rs:162-181 | revoke, then recover to the former owner, restores everything but a pending recovery |
| `Calls.ReplaceAccountsOfRevoked` | contracts/stellar-membership/src/lib.rs:167-171 | the documented three calls differ only in the token's accounts and bindings, and free the dropped ones |
| `Runs.ReachableInv` | contracts/stellar-membership/src/storage.rs:3-8 | every storage reached from a construction satisfies the invariants, failed calls included |
| `Runs.ReplayStep` | contracts/stellar-membership/src/events.rs:1-128 | the events of one call account for its whole change of storage |
| `Runs.StateRebuiltFromEvents` | contracts/stellar-membership/src/events.rs:1-128 | for every run, folding the log over the constructor arguments yields the contract's storage |
| `Recovery.PendingOrigin` | contracts/stellar-membership/src/keys.rs:27-61 | a pending request comes from a proposal of the run that nothing has settled, with the owner unmoved since |
| `Recovery.PendingIff` | contracts/stellar-membership/src/keys.rs:27-61 | in every run a request is pending iff it was proposed, with its attester, address and delay, and nothing has settled that token's recovery since |
| `Recovery.RecoverySafety` | contracts/stellar-membership/src/keys.rs:72-104 | a finalized recovery carries out an earlier proposal: signatures, same attester then and now, delay or admin, window, nothing in between, same owner throughout |
| `Recovery.EveryOwnerChange` | contracts/stellar-membership/src/keys.rs:9-127 | in every run every owner change is a mint, a rotation, an admin move, or a recovery carrying out a proposal |
| `Recovery.FinalizeSucceedsIff` | contracts/stellar-membership/src/lib.rs:337-354 | when a finalization succeeds, exactly, in a valid storage |
| `Recovery.ReplacedAttesterFinalizesNothing` | contracts/stellar-membership/src/lib.rs:94-103 | while a replaced attester is not set again, no request proposed under it is finalized, whoever signs |
| `Recovery.StaleRequestReplaceable` | contracts/stellar-membership/src/keys.rs:63-70 | owner or admin can cancel a pending request, after which the attester can propose any unheld address |
| `Recovery.ReinstatedAttesterRevives` | contracts/stellar-membership/src/types.rs:124-130 | replacing the attester and setting the former one again makes a request finalizable as before |
| `Scenarios.RevivedInARun` | contracts/stellar-membership/src/types.rs:124-130 | a run from a construction in which a request fails to finalize under another attester and, unsigned, succeeds under the former one |
| `Contract.ValidateAccounts` | contracts/stellar-membership/src/storage.rs:151-164 | the loop finds the first error, and passes exactly for valid sets |
| `Contract.ValidateProjects` | contracts/stellar-membership/src/storage.rs:166-173 | too many projects first, then a project that is empty or too long |
| `Contract.StellarMembership.constructor` | contracts/stellar-membership/src/admin.rs:14-34 | a constructed contract holds the seven arguments and the counter at 0, nothing else, and is a valid start of a run |
| `Contract.RenewedLife` | contracts/stellar-membership/src/types.rs:21-24 | an entry that is renewed lives as before if it has 30 days of ledgers left, and 120 otherwise |
| `Contract.StellarMembership.ExtendLinks` | contracts/stellar-membership/src/storage.rs:66-83 | renews owner, address link and accounts, never a missing entry, and no other |
| `Contract.StellarMembership.SaveMember` | contracts/stellar-membership/src/storage.rs:60-64 | writes the record and renews exactly the entries bound to it |
| `Contract.StellarMembership.SetOwner` | contracts/stellar-membership/src/storage.rs:85-98 | releases and assigns, renewing just the two links, or finds the address taken |
| `Contract.StellarMembership.RemoveOwner` | contracts/stellar-membership/src/storage.rs:100-105 | removes both links |
| `Contract.StellarMembership.DropPending` | contracts/stellar-membership/src/storage.rs:107-118 | removes a pending request and publishes its cancellation, or does neither |
| `Contract.StellarMembership.BindAccounts` | contracts/stellar-membership/src/storage.rs:120-128 | binds and renews all accounts by provider and id, or fails exactly when one of that provider and id is bound or named twice |
| `Contract.StellarMembership.UnbindAccounts` | contracts/stellar-membership/src/storage.rs:130-136 | removes exactly the entries with provider and id of an account of the set |
| `Contract.StellarMembership.Mint` | contracts/stellar-membership/src/token.rs:9-56 | performs its transition, returns the id that `to` then owns, and renews every entry of the new token |
| `Contract.StellarMembership.Revoke` | contracts/stellar-membership/src/token.rs:58-71 | performs its transition and renews what is left of the token |
| `Contract.StellarMembership.SetRole` | contracts/stellar-membership/src/member.rs:34-45 | performs its transition and renews every entry of the token, and no other |
| `Contract.StellarMembership.SetExternalAccounts` | contracts/stellar-membership/src/member.rs:47-65 | performs its transition by unbinding then binding, and renews every entry of the token, and no other |
| `Contract.StellarMembership.SetBio` | contracts/stellar-membership/src/member.rs:67-77 | performs its transition and renews every entry of the token, and no other |
| `Contract.StellarMembership.SetProjects` | contracts/stellar-membership/src/member.rs:79-89 | performs its transition and renews every entry of the token, and no other |
| `Contract.StellarMembership.ExtendMember` | contracts/stellar-membership/src/member.rs:22-32 | fails for an id never minted, else renews every entry of the token, revoked or not, and no other |
| `Contract.StellarMembership.RotateKey` | contracts/stellar-membership/src/keys.rs:9-25 | performs its transition and renews every entry of the token, and no other |
| `Contract.StellarMembership.ProposeRecovery` | contracts/stellar-membership/src/keys.rs:27-61 | performs its transition and renews the request alone |
| `Contract.StellarMembership.CancelRecovery` | contracts/stellar-membership/src/keys.rs:63-70 | performs its transition |
| `Contract.StellarMembership.FinalizeRecovery` | contracts/stellar-membership/src/keys.rs:72-104 | performs its transition and renews every entry of the token, and no other |
| `Contract.StellarMembership.Recover` | contracts/stellar-membership/src/keys.rs:106-127 | performs its transition and renews every entry of the token, and no other |
| `Contract.StellarMembership.SetAdmin` | contracts/stellar-membership/src/admin.rs:45-57 | performs its transition |
| `Contract.StellarMembership.SetAttester` | contracts/stellar-membership/src/admin.rs:59-73 | performs its transition |
| `Contract.StellarMembership.SetNqgContract` | contracts/stellar-membership/src/admin.rs:75-89 | performs its transition |
| `Contract.StellarMembership.Invoke` | contracts/stellar-membership/src/storage.rs:60-98 | whole calls: the transition or a full rollback, a reachable state either way, no extension of a missing entry, the lives of all entries afterwards, and the id a mint returns |
| `Membership.AccountsFromClaimsExact` | shared/membership.ts:155-168 | provider, id and handle of the claims, no more and no fewer, Discord before GitHub before X, claims of one provider in their order; the email hash is that of the first claim of the chosen provider, or none |
| `Membership.FromHex` | shared/membership.ts:106-112 | the loop fills the bytes the string stands for, whatever the string |
| `Membership.DigitMeaning` | shared/membership.ts:109 | a character is a digit of a value iff it is that place of 0-9a-f or of 0-9A-F |
| `Membership.FromHexMeaning` | shared/membership.ts:106-112 | what any two characters stand for: digits of either case, signs, spaces, and what is no number |
| `Membership.BytesRoundTrip` | shared/membership.ts:102-112 | fromHex undoes toHex |
| `Membership.HexRoundTrip` | shared/membership.ts:102-112 | toHex undoes fromHex exactly for an even number of lower-case digits |
| `Attest.RemovalNeedsNoClaim` | worker/src/attest.ts:136-160 | without claims the worker signs a change of an active member iff every account is one it has, a Discord account is left and the email is left out or its own; that is when the app sees nothing added |
| `Attest.AccountsVerdict` | worker/src/attest.ts:98-122 | the four outcomes of the check of accounts, field by field |
| `Attest.MintVerdict` | worker/src/attest.ts:124-134 | when the check of a mint signs, and each refusal |
| `Attest.ChangeVerdict` | worker/src/attest.ts:136-160 | when the check of a change signs, and each refusal, with claims and without |
| `Attest.RecoveryVerdict` | worker/src/attest.ts:162-190 | for an active member the check of a proposal signs iff there are claims, all for the new address, of provider and id of its only account or of two of its accounts; and each refusal |
| `Attest.AttestVerdict` | worker/src/attest.ts:202-233 | an entry is signed iff it is of the worker's key, expires within 120 ledgers, and is a mint, change or proposal the claims support |
| `Attest.ToContractRoundTrip` | dapp/src/routes/profile/Onboarding.tsx:72-77 | a record in the terms of the app is turned back into the record |
| `Attest.ToContractMeaning` | dapp/src/routes/profile/Onboarding.tsx:72-77 | which hashes fit a record, and that the empty one is left out |
| `Attest.OnboardingIsAccepted` | worker/src/attest.ts:98-134 | what the app makes of verified claims fits the contract's record, reads back as what was chosen, email hash through hexadecimal and back, passes the mint check and has distinct providers |
| `Attest.MintedRoleIsOfBoundDiscord` | worker/src/attest.ts:124-134 | with one claim a provider the minted role is the one of the Discord account bound |
| `Attest.MatchingExact` | worker/src/attest.ts:180-186 | the matches are the accounts with provider and id of a claim, in their order and as often as they stand there |
| `System.SigningVouches` | worker/src/attest.ts:202-233 | whatever the worker signs, on reads of any age, its claims and the chain support |
| `System.AccountsChangeByTwoCalls` | contracts/stellar-membership/src/member.rs:47-65 | only an attested mint and an attested change decide a member's accounts |
| `System.Provenance` | worker/src/attest.ts:94-160 | in every run of both, each account and email a member has after a transaction is of a claim issued before it was submitted, for an address that has held the token by then, and a Discord account is always there |
| `System.NoMemberWithoutAccount` | worker/src/attest.ts:176-178 | the worker never meets a member without a verified account |
| `System.RecoveryEvidence` | worker/src/attest.ts:162-190 | every signature on a proposal was made by an action whose claims, issued by then for the new address, prove two accounts on distinct providers, or the only one, in a chain state of that moment or before |
| `System.FinalizedRecoveryHasEvidence` | contracts/stellar-membership/src/keys.rs:72-104 | every finalized recovery carries out an earlier proposal that, before it was submitted, the attester of then had signed on such evidence, and gives the token to the address of that evidence |
| `System.OnboardingMints` | dapp/src/routes/profile/Onboarding.tsx:60-82 | the mint the app builds is signed, and succeeds iff ids are left, the address is free and no account is reserved |
| `Completions.OnboardingCompletes` | dapp/src/routes/profile/Onboarding.tsx:60-82 | from every reachable state of both: claims issued, mint signed and submitted, and the address owns the next id with the accounts of its claims |
| `Completions.ChangeCompletes` | worker/src/attest.ts:136-160 | from every reachable state: a change the claims and the record support is signed, submitted and in the record |
| `Completions.RecoveryCompletes` | contracts/stellar-membership/src/keys.rs:27-104 | from every reachable state: claims for enough accounts of an active member move its token to the new address after seven days, without owner or admin |
| `Pages.PagesCoverAll` | dapp/src/queries/members.ts:49-56 | the pages from the top one down list every id once, newest first, and none of them is empty unless the list is |
| `Pages.ListedOnItsPage` | dapp/src/queries/members.ts:49-56 | an id is listed on its own page iff it was minted, and on no other |
| `Pages.FindInPages` | dapp/src/queries/members.ts:90-96 | the scan with early return gives the member in the first slot with the id, page by page, and nothing iff no slot has it |
| `Pages.MergeIntoPages` | dapp/src/queries/members.ts:224-253 | the loop is the fold of the one-member merge |
| `Pages.SortIsSort` | dapp/src/queries/members.ts:241-246 | the sort is a permutation, descends by id with missing members last, and keeps slots of one key in their order |
| `Pages.MergeMembers` | dapp/src/queries/members.ts:224-253 | a merged member takes the place of its id and no other, or is dropped with its page |
| `Pages.MergeOpens` | dapp/src/queries/members.ts:226-236 | the one page a merge opens is the member's, in front, when newer than all loaded |
| `Pages.MergeRefinesMap` | dapp/src/queries/members.ts:90-96 | merging keeps well-formedness; look-up then gives the last merged record of every id whose page is loaded, and the former answer otherwise |
| `Pages.MergeIdempotent` | dapp/src/queries/members.ts:224-253 | merging the same records again changes nothing |
| `Reads.ReadEntries` | dapp/src/lib/contract.ts:89-106 | the stepping loop gathers the answers of all requests |
| `Reads.ReadAsSingle` | dapp/src/lib/contract.ts:89-106 | a key asked for by one request reads as a single-key read of that request |
| `Reads.GetMembers` | dapp/src/lib/contract.ts:108-132 | the batched read is `Members`, of which `Shown` is the slot; a slot whose id one request reads is made of that request's record and owner alone |
| `Reads.ViewOfMeaning` | dapp/src/lib/contract.ts:116-131 | in a valid state a member is shown iff minted, with its record and owner, and has no owner iff revoked |
| `Reads.MemberFromOneState` | dapp/src/lib/contract.ts:108-132 | for ids in one request, such as distinct ones, each member is as it stands in the state of its request |
| `Reads.DistinctIdsInOneRequest` | dapp/src/lib/contract.ts:92-96 | distinct ids of any number are each read by one request |
| `Reads.AskedTwiceTears` | dapp/src/lib/contract.ts:97-105 | an id read by two requests shows, wherever it stands, as revoked with its former owner if it is revoked in between |
| `Reads.TornInARun` | dapp/src/lib/contract.ts:97-105 | for every such batch, a run of the contract in which that happens |
| `Reads.SnapshotIffOneRequest` | dapp/src/lib/contract.ts:89-132 | no owner iff revoked, in every run and for requests served as it goes on, exactly when one request reads all occurrences |
| `Reads.FetchedPage` | dapp/src/queries/members.ts:78-88 | a page read from the ledger shows each of its ids as it stands in the one state that served it, none missing when the count is no newer, in the order the cache relies on |
| `Reads.LoadedWellFormed` | dapp/src/queries/members.ts:78-88 | the pages loaded from the top down, each from a state of its own, are well-formed |
| `Reads.LookUpInLoaded` | dapp/src/queries/members.ts:90-96 | look-up in them gives every listed id as it stood when its page was read |
| `Utf8.RoundTrip` | shared/membership.ts:44-46 | decoding undoes encoding but for a byte order mark in front |
| `Utf8.RunTruncated` | shared/membership.ts:43-47 | a truncated encoding decodes to the characters that fit, and U+FFFD if one was cut |
| `Utf8.CutThenText` | shared/membership.ts:43-47 | text behind a character cut short is read in full, after one U+FFFD |
| `Utf8.DecoderStrict` | shared/membership.ts:43-47 | bytes are read without U+FFFD iff they are the encoding of a string without one, and then of what was read |
| `Utf8.FitIsLargest` | shared/membership.ts:42-47 | the characters that fit are the most that do |
| `Utf8.ClampFits` | shared/membership.ts:42-47 | the result never takes more than the bytes allowed |
| `Utf8.ClampIsLongestPrefix` | shared/membership.ts:42-47 | without a byte order mark in front: a prefix that drops nothing that fits, but for one genuine U+FFFD ending at the cut |
| `Utf8.ClampIsPrefixIff` | shared/membership.ts:42-47 | for every string, when the result is a prefix, by the bytes of its byte order marks and of the character behind them |
| `Utf8.ClampIsNoPrefix` | shared/membership.ts:42-47 | an input whose result is no prefix |

## Left out

- The class holds settings and persistent entries as one value, `storage`, that the methods rewrite entry by entry, and not as one field a map: nothing outside the object can alias the entries.
- `upgrade`, which replaces the code, and the reads of name, symbol, URIs, role URI and governance score, which are single expressions.
- The time to live of the contract instance and of its code, and the host's cap on extensions; an entry is extended when strictly below the threshold, as `types.rs` words it; entries are taken as live, so archival and restoration are not modelled.
- Two `require_auth` of one address in one call, as when owner and attester are the same: a supplied authorization counts for both.
- Nonces, signature expiry in the host and limits on replaying a signature: the model lets a signature of the worker be used any number of times.
- OAuth exchanges, signing of claims, the expiry of claims and the limit of three claims a request: any issued claim can be sent along, which allows more than the worker does.
- XDR decoding in the worker, and so its refusals of malformed entries, sub-invocations and foreign contracts: it is given typed calls of this contract.
- The conversion between the bytes of Soroban strings and JavaScript strings: ids and handles are compared as bytes on both sides. The clamp is proved on strings of scalar values; lone surrogates, which the encoder replaces, are not modelled.
- The worker's bound on an account id counts UTF-16 units where the contract counts bytes; `System.OnboardingMints` asks for ids within the contract's bound.
- Hashing of emails, IPFS uploads, projects and NQG scores.
- The query client around the page cache: keys, invalidation, refetching; and `getRecoveries`, which reads one key an id.
