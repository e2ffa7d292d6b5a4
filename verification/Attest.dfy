/** What the attester worker checks before it signs an authorization. */
module Attest {
  import opened Types
  import opened Membership
  import M = Model

  /** How many ledgers ahead of the latest a signature may expire. */
  const MAX_VALIDITY_LEDGERS := 120

  datatype Reason =
    | InvalidExpiration
    | NotAnAttesterEntry
    | CannotAttest
    | UnexpectedArguments
    | VerifiedForAnotherAddress
    | NoVerifiedAccount
    | RoleNotGranted
    | AccountNotVerified
    | DiscordRequired
    | EmailNotVerified
    | NotAnActiveMember
    | MemberHasNoAccount
    | ProveMore(required: nat)

  datatype Verdict = Signs | Refuses(reason: Reason)

  function AsAccounts(e: ExternalAccounts): AccountSet {
    AccountSet(e.accounts, if e.emailHash.Some? then Some(ToHex(e.emailHash.value)) else None)
  }

  /** No claim names an address other than this one. */
  predicate ClaimsAreFor(address: Address, claims: seq<Claim>) {
    forall c | c in claims :: c.address == address
  }

  predicate HasDiscord(accounts: seq<SocialAccount>) {
    exists a | a in accounts :: a.provider == Discord
  }

  /** One of the claims, or one of the current accounts, is this account to the letter. */
  predicate Known(account: SocialAccount, claims: seq<Claim>, current: AccountSet) {
    || (exists c | c in claims :: SameAccount(account, AccountOf(c)))
    || (exists had | had in current.accounts :: SameAccount(account, had))
  }

  predicate EmailKnown(emailHash: Option<string>, claims: seq<Claim>, current: AccountSet) {
    || emailHash == None
    || emailHash == current.emailHash
    || exists c | c in claims :: c.emailHash == emailHash
  }

  function CheckAccounts(value: ExternalAccounts, claims: seq<Claim>, current: AccountSet): Verdict {
    var AccountSet(accounts, emailHash) := AsAccounts(value);
    if exists a | a in accounts :: !Known(a, claims, current) then Refuses(AccountNotVerified)
    else if !HasDiscord(accounts) then Refuses(DiscordRequired)
    else if !EmailKnown(emailHash, claims, current) then Refuses(EmailNotVerified)
    else Signs
  }

  const NO_ACCOUNTS := AccountSet([], None)

  /** The role of the first Discord claim, the lowest when it has none. */
  function GrantedRole(claims: seq<Claim>): Role {
    match FindProvider(claims, Discord)
    case Some(c) => if c.role.Some? then c.role.value else Verified
    case None => Verified
  }

  function CheckMint(to: Address, role: Role, external: ExternalAccounts, claims: seq<Claim>): Verdict {
    if claims == [] then Refuses(NoVerifiedAccount)
    else if !ClaimsAreFor(to, claims) then Refuses(VerifiedForAnotherAddress)
    else if role != GrantedRole(claims) then Refuses(RoleNotGranted)
    else CheckAccounts(external, claims, NO_ACCOUNTS)
  }

  /** `owner` and `member` are what the worker read from the chain, if anything. */
  function CheckSetExternalAccounts(external: ExternalAccounts, claims: seq<Claim>,
                                    owner: Option<Address>, member: Option<Member>): Verdict
  {
    if owner.None? || member.None? then Refuses(NotAnActiveMember)
    else if !ClaimsAreFor(owner.value, claims) then Refuses(VerifiedForAnotherAddress)
    else
      var current := AsAccounts(member.value.externalAccounts);
      if AddsAccounts(AsAccounts(external), current) && claims == [] then Refuses(NoVerifiedAccount)
      else CheckAccounts(external, claims, current)
  }

  /** A claim proves an account by provider and id; the handle may have changed. */
  predicate Proves(claims: seq<Claim>, account: SocialAccount) {
    exists c | c in claims :: c.provider == account.provider && c.id == account.id
  }

  /** The accounts the claims prove, in order. */
  function Matching(accounts: seq<SocialAccount>, claims: seq<Claim>): seq<SocialAccount> {
    if accounts == [] then []
    else (if Proves(claims, accounts[0]) then [accounts[0]] else []) + Matching(accounts[1..], claims)
  }

  /** How many accounts a recovery takes: two, less when the record lists fewer. */
  function Required(member: Member): nat {
    var n := |member.externalAccounts.accounts|;
    if n < 2 then n else 2
  }

  function CheckProposeRecovery(newAddress: Address, claims: seq<Claim>, member: Option<Member>): Verdict {
    if claims == [] then Refuses(NoVerifiedAccount)
    else if !ClaimsAreFor(newAddress, claims) then Refuses(VerifiedForAnotherAddress)
    else if member.None? || member.value.status != Active then Refuses(NotAnActiveMember)
    else if Required(member.value) == 0 then Refuses(MemberHasNoAccount)
    else if |Matching(member.value.externalAccounts.accounts, claims)| < Required(member.value) then
      Refuses(ProveMore(Required(member.value)))
    else Signs
  }

  /** A signature request: the entry to sign, its expiration, and the claims sent along. */
  datatype Request = Request(entry: Auth, validUntil: nat, claims: seq<Claim>)

  /** The verdict on an entry: its expiration and its signer first, then what the function named asks for. */
  function Attest(key: Address, latestLedger: nat, request: Request,
                  owner: Option<Address>, member: Option<Member>): Verdict
  {
    var Request(Auth(signer, invocation), validUntil, claims) := request;
    if validUntil <= latestLedger || validUntil > latestLedger + MAX_VALIDITY_LEDGERS then Refuses(InvalidExpiration)
    else if signer != key then Refuses(NotAnAttesterEntry)
    else
      match invocation
      case MintAttestation(to, role, accounts) => CheckMint(to, role, accounts, claims)
      case Whole(SetExternalAccounts(_, accounts)) => CheckSetExternalAccounts(accounts, claims, owner, member)
      case Whole(ProposeRecovery(_, newAddress)) => CheckProposeRecovery(newAddress, claims, member)
      case Whole(Mint(_, _, _, _, _)) => Refuses(UnexpectedArguments)
      case Whole(_) => Refuses(CannotAttest)
  }

  // --------------------------------------------------------------- verdicts

  // When each check signs and why it refuses, field by field.

  /** Each of the accounts is had already, or is the account of a claim, handle included. */
  ghost predicate AllKnown(accounts: seq<SocialAccount>, claims: seq<Claim>, had: seq<SocialAccount>) {
    forall a :: a in accounts ==>
      a in had || exists c :: c in claims && c.provider == a.provider && c.id == a.id && c.handle == a.handle
  }

  /** The hash is left out, had already, or that of a claim. */
  ghost predicate HashKnown(hash: Option<Hash>, claims: seq<Claim>, had: Option<Hash>) {
    hash == None || hash == had || exists c :: c in claims && c.emailHash == Some(ToHex(hash.value))
  }

  /** The role is that of the first Discord claim, the lowest when it has none or there is none. */
  ghost predicate RoleGranted(role: Role, claims: seq<Claim>) {
    && (forall i :: 0 <= i < |claims| && FirstOf(claims, Discord, i) ==>
          role == if claims[i].role.Some? then claims[i].role.value else Verified)
    && ((forall c :: c in claims ==> c.provider != Discord) ==> role == Verified)
  }

  /** There are claims, and all of them were issued for `address`. */
  ghost predicate ClaimedFor(address: Address, claims: seq<Claim>) {
    claims != [] && forall c :: c in claims ==> c.address == address
  }

  /** A claim has provider and id of the account at `i`. */
  ghost predicate ClaimedAt(accounts: seq<SocialAccount>, claims: seq<Claim>, i: nat)
    requires i < |accounts|
  {
    exists c :: c in claims && c.provider == accounts[i].provider && c.id == accounts[i].id
  }

  /** Claims stand for the only account, or for two of them. */
  ghost predicate EnoughClaimed(accounts: seq<SocialAccount>, claims: seq<Claim>) {
    if |accounts| < 2 then |accounts| == 1 && ClaimedAt(accounts, claims, 0)
    else exists i: nat, j: nat :: i < j < |accounts| && ClaimedAt(accounts, claims, i) && ClaimedAt(accounts, claims, j)
  }

  ghost predicate MintSupported(to: Address, role: Role, e: ExternalAccounts, claims: seq<Claim>) {
    && ClaimedFor(to, claims) && RoleGranted(role, claims)
    && AllKnown(e.accounts, claims, [])
    && (exists a :: a in e.accounts && a.provider == Discord)
    && HashKnown(e.emailHash, claims, None)
  }

  ghost predicate ChangeSupported(e: ExternalAccounts, claims: seq<Claim>, owner: Option<Address>,
                                  member: Option<Member>)
  {
    && owner.Some? && member.Some?
    && (forall c :: c in claims ==> c.address == owner.value)
    && AllKnown(e.accounts, claims, member.value.externalAccounts.accounts)
    && (exists a :: a in e.accounts && a.provider == Discord)
    && HashKnown(e.emailHash, claims, member.value.externalAccounts.emailHash)
  }

  ghost predicate RecoverySupported(to: Address, claims: seq<Claim>, member: Option<Member>) {
    && ClaimedFor(to, claims)
    && member.Some? && member.value.status == Active
    && EnoughClaimed(member.value.externalAccounts.accounts, claims)
  }

  lemma HexInjective(a: Hash, b: Hash)
    ensures ToHex(a) == ToHex(b) <==> a == b
  {
    hide ToHex, FromHexBytes;
    BytesRoundTrip(a);
    BytesRoundTrip(b);
  }

  lemma KnownIff(account: SocialAccount, claims: seq<Claim>, current: AccountSet)
    ensures Known(account, claims, current) <==>
            || account in current.accounts
            || exists c :: c in claims && c.provider == account.provider && c.id == account.id
                           && c.handle == account.handle
  {
  }

  lemma EmailKnownIff(e: ExternalAccounts, claims: seq<Claim>, had: ExternalAccounts)
    ensures EmailKnown(AsAccounts(e).emailHash, claims, AsAccounts(had)) <==>
            HashKnown(e.emailHash, claims, had.emailHash)
  {
    hide ToHex;
    if e.emailHash.Some? && had.emailHash.Some? {
      HexInjective(e.emailHash.value, had.emailHash.value);
    }
  }

  /** The check of the accounts, against a record: its four outcomes. */
  lemma AccountsVerdict(e: ExternalAccounts, claims: seq<Claim>, had: ExternalAccounts)
    ensures var verdict := CheckAccounts(e, claims, AsAccounts(had));
            var known := AllKnown(e.accounts, claims, had.accounts);
            var discord := exists a :: a in e.accounts && a.provider == Discord;
            var email := HashKnown(e.emailHash, claims, had.emailHash);
            && (verdict == Signs <==> known && discord && email)
            && (verdict == Refuses(AccountNotVerified) <==> !known)
            && (verdict == Refuses(DiscordRequired) <==> known && !discord)
            && (verdict == Refuses(EmailNotVerified) <==> known && discord && !email)
  {
    hide ToHex, Known, EmailKnown, HashKnown;
    EmailKnownIff(e, claims, had);
    forall a | a in e.accounts
      ensures Known(a, claims, AsAccounts(had)) <==>
              a in had.accounts
              || exists c :: c in claims && c.provider == a.provider && c.id == a.id && c.handle == a.handle
    {
      KnownIff(a, claims, AsAccounts(had));
    }
  }

  lemma GrantedIff(role: Role, claims: seq<Claim>)
    ensures role == GrantedRole(claims) <==> RoleGranted(role, claims)
  {
    FindProviderFirst(claims, Discord);
    FirstExists(claims, Discord);
  }

  /** The check of a mint: when it signs, and each of its refusals. */
  lemma MintVerdict(to: Address, role: Role, e: ExternalAccounts, claims: seq<Claim>)
    ensures var verdict := CheckMint(to, role, e, claims);
            var ready := ClaimedFor(to, claims) && RoleGranted(role, claims);
            var known := AllKnown(e.accounts, claims, []);
            var discord := exists a :: a in e.accounts && a.provider == Discord;
            && (verdict == Signs <==> MintSupported(to, role, e, claims))
            && (verdict == Refuses(NoVerifiedAccount) <==> claims == [])
            && (verdict == Refuses(VerifiedForAnotherAddress) <==> exists c :: c in claims && c.address != to)
            && (verdict == Refuses(RoleNotGranted) <==> ClaimedFor(to, claims) && !RoleGranted(role, claims))
            && (verdict == Refuses(AccountNotVerified) <==> ready && !known)
            && (verdict == Refuses(DiscordRequired) <==> ready && known && !discord)
            && (verdict == Refuses(EmailNotVerified) <==>
                  ready && known && discord && !HashKnown(e.emailHash, claims, None))
  {
    hide CheckAccounts, GrantedRole, RoleGranted, AllKnown, HashKnown;
    AccountsVerdict(e, claims, ExternalAccounts([], None));
    GrantedIff(role, claims);
  }

  lemma AddsIff(e: ExternalAccounts, had: ExternalAccounts)
    ensures AddsAccounts(AsAccounts(e), AsAccounts(had)) <==>
            (exists a :: a in e.accounts && a !in had.accounts) || (e.emailHash.Some? && e.emailHash != had.emailHash)
  {
    hide ToHex;
    if e.emailHash.Some? && had.emailHash.Some? {
      HexInjective(e.emailHash.value, had.emailHash.value);
    }
    if a :| a in e.accounts && a !in had.accounts {
      assert forall b :: b in had.accounts ==> !SameAccount(a, b);
    }
    forall a | a in e.accounts && a in had.accounts
      ensures SameAccount(a, a)
    {
    }
  }

  /** The check of a change: when it signs, and each of its refusals. */
  lemma ChangeVerdict(e: ExternalAccounts, claims: seq<Claim>, owner: Option<Address>, member: Option<Member>)
    ensures CheckSetExternalAccounts(e, claims, owner, member) == Signs <==> ChangeSupported(e, claims, owner, member)
    ensures CheckSetExternalAccounts(e, claims, owner, member) == Refuses(NotAnActiveMember) <==>
            owner.None? || member.None?
    ensures owner.Some? && member.Some? ==>
              var verdict, had := CheckSetExternalAccounts(e, claims, owner, member), member.value.externalAccounts;
              var mine := forall c :: c in claims ==> c.address == owner.value;
              var known := AllKnown(e.accounts, claims, had.accounts);
              var discord := exists a :: a in e.accounts && a.provider == Discord;
              var email := HashKnown(e.emailHash, claims, had.emailHash);
              && (verdict == Refuses(VerifiedForAnotherAddress) <==> !mine)
              && (verdict == Refuses(NoVerifiedAccount) <==> claims == [] && (!known || !email))
              && (verdict == Refuses(AccountNotVerified) <==> mine && claims != [] && !known)
              && (verdict == Refuses(DiscordRequired) <==> mine && known && !discord && (claims != [] || email))
              && (verdict == Refuses(EmailNotVerified) <==> mine && claims != [] && known && discord && !email)
  {
    hide CheckAccounts, AddsAccounts, AsAccounts;
    if owner.Some? && member.Some? {
      var had := member.value.externalAccounts;
      AccountsVerdict(e, claims, had);
      AddsIff(e, had);
    }
  }

  /**
   * A removal needs no claim: without one the worker signs a change of an
   * active member exactly when every account stays as it was, a Discord account
   * is left, and the email is left out or the one it had. That is when the app
   * sees nothing added.
   */
  lemma RemovalNeedsNoClaim(e: ExternalAccounts, owner: Address, member: Member)
    ensures CheckSetExternalAccounts(e, [], Some(owner), Some(member)) == Signs <==>
            && (forall a :: a in e.accounts ==> a in member.externalAccounts.accounts)
            && (exists a :: a in e.accounts && a.provider == Discord)
            && (e.emailHash == None || e.emailHash == member.externalAccounts.emailHash)
    ensures CheckSetExternalAccounts(e, [], Some(owner), Some(member)) == Signs <==>
            && !AddsAccounts(AsAccounts(e), AsAccounts(member.externalAccounts))
            && exists a :: a in e.accounts && a.provider == Discord
  {
    hide CheckSetExternalAccounts, AddsAccounts, AsAccounts;
    ChangeVerdict(e, [], Some(owner), Some(member));
    AddsIff(e, member.externalAccounts);
  }

  // --------------------------------------------------- recovery evidence

  /** The matches of two lists in a row are those of the first, then those of the second. */
  lemma {:induction false} MatchingConcat(a: seq<SocialAccount>, b: seq<SocialAccount>, claims: seq<Claim>)
    ensures Matching(a + b, claims) == Matching(a, claims) + Matching(b, claims)
  {
    hide Proves;
    if a == [] {
      assert a + b == b;
    } else {
      MatchingConcat(a[1..], b, claims);
      assert (a + b)[1..] == a[1..] + b;
    }
  }

  lemma MatchingOne(a: SocialAccount, claims: seq<Claim>)
    ensures Matching([a], claims) == if Proves(claims, a) then [a] else []
  {
  }

  lemma {:induction false} MatchingCounts(accounts: seq<SocialAccount>, claims: seq<Claim>)
    ensures forall a :: multiset(Matching(accounts, claims))[a] ==
                        if Proves(claims, a) then multiset(accounts)[a] else 0
  {
    hide Proves;
    if accounts != [] {
      MatchingCounts(accounts[1..], claims);
      assert accounts == [accounts[0]] + accounts[1..];
    }
  }

  /**
   * The matches are the accounts a claim proves, in their order and as often
   * as they stand there: every account extends the matches of those before it
   * by itself or by nothing.
   */
  lemma MatchingExact(accounts: seq<SocialAccount>, claims: seq<Claim>)
    ensures forall i :: 0 <= i < |accounts| ==>
              Matching(accounts[..i + 1], claims) ==
              Matching(accounts[..i], claims) + if ClaimedAt(accounts, claims, i) then [accounts[i]] else []
    ensures forall a :: multiset(Matching(accounts, claims))[a] ==
                        if exists c :: c in claims && c.provider == a.provider && c.id == a.id
                        then multiset(accounts)[a] else 0
  {
    hide Matching;
    forall i | 0 <= i < |accounts|
      ensures Matching(accounts[..i + 1], claims) ==
              Matching(accounts[..i], claims) + if ClaimedAt(accounts, claims, i) then [accounts[i]] else []
    {
      assert accounts[..i + 1] == accounts[..i] + [accounts[i]];
      MatchingConcat(accounts[..i], [accounts[i]], claims);
      MatchingOne(accounts[i], claims);
    }
    MatchingCounts(accounts, claims);
  }

  /** One account at the front adds itself to the matches, or nothing. */
  lemma MatchingShift(accounts: seq<SocialAccount>, claims: seq<Claim>)
    requires accounts != []
    ensures |Matching(accounts, claims)| ==
            |Matching(accounts[1..], claims)| + if ClaimedAt(accounts, claims, 0) then 1 else 0
  {
  }

  lemma ClaimedShift(accounts: seq<SocialAccount>, claims: seq<Claim>, i: nat)
    requires 0 < i < |accounts|
    ensures ClaimedAt(accounts[1..], claims, i - 1) <==> ClaimedAt(accounts, claims, i)
  {
  }

  lemma {:induction false} OneMatches(accounts: seq<SocialAccount>, claims: seq<Claim>)
    ensures |Matching(accounts, claims)| >= 1 <==>
            exists i: nat :: i < |accounts| && ClaimedAt(accounts, claims, i)
  {
    hide ClaimedAt;
    if accounts != [] {
      var rest := accounts[1..];
      OneMatches(rest, claims);
      MatchingShift(accounts, claims);
      if i: nat :| i < |accounts| && ClaimedAt(accounts, claims, i) && i > 0 {
        ClaimedShift(accounts, claims, i);
      }
      if i: nat :| i < |rest| && ClaimedAt(rest, claims, i) {
        ClaimedShift(accounts, claims, i + 1);
        assert ClaimedAt(accounts, claims, i + 1);
      }
    }
  }

  lemma {:induction false} TwoMatch(accounts: seq<SocialAccount>, claims: seq<Claim>)
    ensures |Matching(accounts, claims)| >= 2 <==>
            exists i: nat, j: nat ::
              i < j < |accounts| && ClaimedAt(accounts, claims, i) && ClaimedAt(accounts, claims, j)
  {
    hide ClaimedAt;
    if accounts != [] {
      var rest := accounts[1..];
      TwoMatch(rest, claims);
      OneMatches(rest, claims);
      MatchingShift(accounts, claims);
      if i: nat, j: nat :| i < j < |accounts| && ClaimedAt(accounts, claims, i) && ClaimedAt(accounts, claims, j) {
        ClaimedShift(accounts, claims, j);
        if i > 0 {
          ClaimedShift(accounts, claims, i);
          assert ClaimedAt(rest, claims, i - 1) && ClaimedAt(rest, claims, j - 1);
        }
      }
      forall i: nat | i < |rest| && ClaimedAt(rest, claims, i)
        ensures ClaimedAt(accounts, claims, i + 1)
      {
        ClaimedShift(accounts, claims, i + 1);
      }
      if |Matching(accounts, claims)| >= 2 {
        if |Matching(rest, claims)| >= 2 {
          var i: nat, j: nat :| i < j < |rest| && ClaimedAt(rest, claims, i) && ClaimedAt(rest, claims, j);
          assert ClaimedAt(accounts, claims, i + 1) && ClaimedAt(accounts, claims, j + 1);
        } else {
          var j: nat :| j < |rest| && ClaimedAt(rest, claims, j);
          assert ClaimedAt(accounts, claims, 0) && ClaimedAt(accounts, claims, j + 1);
        }
      }
    }
  }

  /** The check of a proposal to recover: when it signs, and each of its refusals. */
  lemma RecoveryVerdict(to: Address, claims: seq<Claim>, member: Option<Member>)
    ensures CheckProposeRecovery(to, claims, member) == Signs <==> RecoverySupported(to, claims, member)
    ensures var verdict := CheckProposeRecovery(to, claims, member);
            var ready := ClaimedFor(to, claims) && member.Some? && member.value.status == Active;
            && (verdict == Refuses(NoVerifiedAccount) <==> claims == [])
            && (verdict == Refuses(VerifiedForAnotherAddress) <==> exists c :: c in claims && c.address != to)
            && (verdict == Refuses(NotAnActiveMember) <==> ClaimedFor(to, claims) && !ready)
            && (verdict == Refuses(MemberHasNoAccount) <==>
                  ready && member.value.externalAccounts.accounts == [])
            && (forall k :: verdict == Refuses(ProveMore(k)) <==>
                  && ready
                  && var accounts := member.value.externalAccounts.accounts;
                  && k == (if |accounts| < 2 then 1 else 2)
                  && accounts != [] && !EnoughClaimed(accounts, claims))
  {
    hide Matching, ClaimedAt;
    if member.Some? {
      OneMatches(member.value.externalAccounts.accounts, claims);
      TwoMatch(member.value.externalAccounts.accounts, claims);
    }
  }

  // ---------------------------------------------------------- the whole check

  /** No check refuses for what `Attest` itself looks at. */
  lemma MintReasons(to: Address, role: Role, e: ExternalAccounts, claims: seq<Claim>)
    ensures CheckMint(to, role, e, claims) !in
            {Refuses(InvalidExpiration), Refuses(NotAnAttesterEntry), Refuses(UnexpectedArguments),
             Refuses(CannotAttest)}
  {
  }

  lemma ChangeReasons(e: ExternalAccounts, claims: seq<Claim>, owner: Option<Address>, member: Option<Member>)
    ensures CheckSetExternalAccounts(e, claims, owner, member) !in
            {Refuses(InvalidExpiration), Refuses(NotAnAttesterEntry), Refuses(UnexpectedArguments),
             Refuses(CannotAttest)}
  {
  }

  lemma RecoveryReasons(to: Address, claims: seq<Claim>, member: Option<Member>)
    ensures CheckProposeRecovery(to, claims, member) !in
            {Refuses(InvalidExpiration), Refuses(NotAnAttesterEntry), Refuses(UnexpectedArguments),
             Refuses(CannotAttest)}
  {
  }

  /**
   * The worker signs an entry of its own key, due to expire within 120
   * ledgers, for the arguments of a mint, a change of accounts or a proposal
   * to recover that the claims support, and nothing else.
   */
  lemma AttestVerdict(key: Address, latestLedger: nat, request: Request, owner: Option<Address>,
                      member: Option<Member>)
    ensures var Request(Auth(signer, invocation), validUntil, claims) := request;
            var verdict := Attest(key, latestLedger, request, owner, member);
            var timely := latestLedger < validUntil <= latestLedger + 120;
            && (verdict == Signs <==>
                  && timely && signer == key
                  && match invocation
                     case MintAttestation(to, role, e) => MintSupported(to, role, e, claims)
                     case Whole(SetExternalAccounts(_, e)) => ChangeSupported(e, claims, owner, member)
                     case Whole(ProposeRecovery(_, to)) => RecoverySupported(to, claims, member)
                     case Whole(_) => false)
            && (verdict == Refuses(InvalidExpiration) <==> !timely)
            && (verdict == Refuses(NotAnAttesterEntry) <==> timely && signer != key)
            && (verdict == Refuses(UnexpectedArguments) <==>
                  timely && signer == key && invocation.Whole? && invocation.call.Mint?)
            && (verdict == Refuses(CannotAttest) <==>
                  timely && signer == key && invocation.Whole?
                  && !invocation.call.Mint? && !invocation.call.SetExternalAccounts?
                  && !invocation.call.ProposeRecovery?)
  {
    hide CheckMint, CheckSetExternalAccounts, CheckProposeRecovery, MintSupported, ChangeSupported,
      RecoverySupported;
    var claims := request.claims;
    match request.entry.invocation
    case MintAttestation(to, role, e) =>
      MintVerdict(to, role, e, claims);
      MintReasons(to, role, e, claims);
    case Whole(SetExternalAccounts(_, e)) =>
      ChangeVerdict(e, claims, owner, member);
      ChangeReasons(e, claims, owner, member);
    case Whole(ProposeRecovery(_, to)) =>
      RecoveryVerdict(to, claims, member);
      RecoveryReasons(to, claims, member);
    case _ =>
  }

  // ------------------------------------------- the app and the attester agree

  /**
   * The record of accounts the app sends: an email hash that is empty is left
   * out, and one that does not stand for 32 bytes fits no record.
   */
  function ToContract(accounts: AccountSet): Option<ExternalAccounts> {
    var hash := if accounts.emailHash.Some? then FromHexBytes(accounts.emailHash.value) else [];
    if accounts.emailHash.None? || accounts.emailHash.value == "" then Some(ExternalAccounts(accounts.accounts, None))
    else if |hash| == 32 then Some(ExternalAccounts(accounts.accounts, Some(hash)))
    else None
  }

  /** What a record says, in the terms of the app, is turned back into the record. */
  lemma ToContractRoundTrip(e: ExternalAccounts)
    ensures ToContract(AsAccounts(e)) == Some(e)
  {
    hide ToHex, FromHexBytes;
    if e.emailHash.Some? {
      BytesRoundTrip(e.emailHash.value);
      ToHexShape(e.emailHash.value);
    }
  }

  /** A hash of 32 bytes, written in hexadecimal. */
  predicate IsHashHex(hex: string) {
    IsHex(hex) && |hex| == 64
  }

  /** A hash survives the way into a record and back. */
  lemma HashRoundTrip(hex: string)
    requires IsHashHex(hex)
    ensures |FromHexBytes(hex)| == 32 && ToHex(FromHexBytes(hex)) == hex
  {
    hide ToHex, HexByte;
    HexRoundTrip(hex);
  }

  /** Which hashes there is a record for, and which one is left out of it. */
  lemma ToContractMeaning(accounts: seq<SocialAccount>, hash: string)
    ensures ToContract(AccountSet(accounts, Some(""))) == Some(ExternalAccounts(accounts, None))
    ensures hash != "" ==> (ToContract(AccountSet(accounts, Some(hash))).Some? <==> |hash| == 64 || |hash| == 65)
    ensures IsHashHex(hash) ==>
              exists h: Hash :: ToHex(h) == hash
                                && ToContract(AccountSet(accounts, Some(hash))) ==
                                   Some(ExternalAccounts(accounts, Some(h)))
  {
    hide ToHex, HexByte, IsHex;
    if IsHashHex(hash) {
      HashRoundTrip(hash);
      var h: Hash := FromHexBytes(hash);
    }
  }

  /** What OAuth gives: claims of one address, one a provider, hashes in hexadecimal. */
  predicate VerifiedFor(to: Address, claims: seq<Claim>) {
    && ClaimsAreFor(to, claims)
    && OnePerProvider(claims)
    && (forall c :: c in claims && c.emailHash.Some? ==> IsHashHex(c.emailHash.value))
  }

  /** The email hash the app puts in a record is the one of a claim. */
  lemma HashIsClaimed(claims: seq<Claim>, emailFrom: Option<Provider>)
    ensures var hash := AccountsFromClaims(claims, emailFrom).emailHash;
            hash.Some? ==> exists c :: c in claims && c.emailHash == hash
  {
    if emailFrom.Some? {
      FindProviderMeaning(claims, emailFrom.value);
    }
  }

  /**
   * For claims of the minting address, Discord among them, the app has
   * something to send, the worker accepts it, the contract finds no provider
   * twice in it, and the email of the chosen provider is the one sent.
   */
  lemma OnboardingIsAccepted(to: Address, claims: seq<Claim>, emailFrom: Option<Provider>)
    requires VerifiedFor(to, claims)
    requires FindProvider(claims, Discord).Some?
    ensures var external := ToContract(AccountsFromClaims(claims, emailFrom));
            && external.Some?
            && CheckMint(to, GrantedRole(claims), external.value, claims) == Signs
            && external.value.accounts == AccountsFromClaims(claims, emailFrom).accounts
            && AsAccounts(external.value) == AccountsFromClaims(claims, emailFrom)
            && M.DistinctProviders(external.value.accounts)
  {
    hide ToHex, FromHexBytes, IsHex, SortByProvider, MapAccounts, OnePerProvider;
    var chosen := AccountsFromClaims(claims, emailFrom);
    AccountsFromClaimsExact(claims, emailFrom);
    HashIsClaimed(claims, emailFrom);
    if chosen.emailHash.Some? {
      HashRoundTrip(chosen.emailHash.value);
    }
    var external := ToContract(chosen).value;
    FindProviderMeaning(claims, Discord);
    var discord := FindProvider(claims, Discord).value;
    assert SocialAccount(discord.provider, discord.id, discord.handle) in external.accounts;
    forall a | a in external.accounts
      ensures Known(a, claims, NO_ACCOUNTS)
    {
      var c :| c in claims && a == SocialAccount(c.provider, c.id, c.handle);
      assert SameAccount(a, AccountOf(c));
    }
  }

  /**
   * With one claim a provider, the role that is minted is the one of the
   * Discord account that is bound.
   */
  lemma MintedRoleIsOfBoundDiscord(to: Address, role: Role, external: ExternalAccounts, claims: seq<Claim>,
                                   a: SocialAccount)
    requires CheckMint(to, role, external, claims) == Signs
    requires OnePerProvider(claims)
    requires a in external.accounts && a.provider == Discord
    ensures exists c :: && c in claims && c.address == to && a == SocialAccount(c.provider, c.id, c.handle)
                        && role == (if c.role.Some? then c.role.value else Verified)
  {
    hide ToHex;
    assert Known(a, claims, NO_ACCOUNTS);
    var c :| c in claims && SameAccount(a, AccountOf(c));
    FindProviderMeaning(claims, Discord);
    var d := FindProvider(claims, Discord).value;
    var i :| 0 <= i < |claims| && claims[i] == c;
    var j :| 0 <= j < |claims| && claims[j] == d;
    assert i == j;
  }
}
