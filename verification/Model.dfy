/**
 * The contract as a transition function over its storage. Every entry point
 * is a function from the storage before and the transaction to either an
 * error, in which case the host restores storage and events, or the storage
 * after and the events published.
 */
module Model {
  import opened Types

  /** The instance settings and the five linked persistent maps. */
  datatype State = State(
    admin: Address,
    attester: Address,
    nqgContract: Address,
    nextTokenId: U32,
    owner: map<TokenId, Address>,
    tokenOf: map<Address, TokenId>,
    member: map<TokenId, Member>,
    account: map<AccountKey, TokenId>,
    recovery: map<TokenId, RecoveryRequest>)

  datatype Effect = Effect(state: State, events: seq<Event>, returned: Option<TokenId>)

  /** Storage as `__constructor` leaves it. */
  function Constructed(admin: Address, attester: Address, nqgContract: Address): State {
    State(admin, attester, nqgContract, 0, map[], map[], map[], map[], map[])
  }

  // ---------------------------------------------------------------- reads

  function OwnerOf(s: State, t: TokenId): Result<Address> {
    if t in s.owner then Ok(s.owner[t])
    else if t in s.member then Err(TokenRevoked)
    else Err(NonExistentToken)
  }

  function MemberOf(s: State, t: TokenId): Result<Member> {
    if t in s.member then Ok(s.member[t]) else Err(NonExistentToken)
  }

  // ----------------------------------------------------------- validation

  /** The first error of `validate_accounts`, in the order the loop meets them. */
  function CheckAccounts(accounts: seq<SocialAccount>): Check {
    if accounts == [] then Pass
    else
      var a := accounts[0];
      if a.id == [] || |a.id| > MAX_ACCOUNT_LEN || |a.handle| > MAX_ACCOUNT_LEN then Fail(InvalidLength)
      else if exists o | o in accounts[1..] :: o.provider == a.provider then Fail(DuplicateProvider)
      else CheckAccounts(accounts[1..])
  }

  predicate ValidAccount(a: SocialAccount) {
    0 < |a.id| <= MAX_ACCOUNT_LEN && |a.handle| <= MAX_ACCOUNT_LEN
  }

  predicate DistinctProviders(accounts: seq<SocialAccount>) {
    forall i, j :: 0 <= i < j < |accounts| ==> accounts[i].provider != accounts[j].provider
  }

  predicate ValidAccounts(e: ExternalAccounts) {
    (forall i :: 0 <= i < |e.accounts| ==> ValidAccount(e.accounts[i])) && DistinctProviders(e.accounts)
  }

  /** A first account and the rest: valid together when valid apart and of different providers. */
  lemma ValidAccountsCons(a: SocialAccount, rest: seq<SocialAccount>)
    ensures ValidAccounts(ExternalAccounts([a] + rest, None)) <==>
            && ValidAccount(a)
            && (forall o :: o in rest ==> o.provider != a.provider)
            && ValidAccounts(ExternalAccounts(rest, None))
  {
    hide ValidAccount;
    var all := [a] + rest;
    assert all[0] == a && forall i :: 0 <= i < |rest| ==> all[i + 1] == rest[i];
    if ValidAccounts(ExternalAccounts(all, None)) {
      forall i, j | 0 <= i < j < |rest|
        ensures rest[i].provider != rest[j].provider
      {
        assert all[i + 1].provider != all[j + 1].provider;
      }
      forall i | 0 <= i < |rest|
        ensures ValidAccount(rest[i]) && rest[i].provider != a.provider
      {
        assert ValidAccount(all[i + 1]) && all[0].provider != all[i + 1].provider;
      }
    }
  }

  lemma NoAccountsValid()
    ensures ValidAccounts(ExternalAccounts([], None))
  {
  }

  /** A validated set has bounded fields and at most one account a provider. */
  lemma {:induction false} CheckAccountsMeaning(accounts: seq<SocialAccount>)
    ensures CheckAccounts(accounts).Pass? <==> ValidAccounts(ExternalAccounts(accounts, None))
  {
    hide ValidAccounts;
    if accounts == [] {
      NoAccountsValid();
    } else {
      CheckAccountsMeaning(accounts[1..]);
      ValidAccountsCons(accounts[0], accounts[1..]);
      assert accounts == [accounts[0]] + accounts[1..];
    }
  }

  predicate ValidProjects(projects: seq<Text>) {
    |projects| <= MAX_PROJECTS && forall i :: 0 <= i < |projects| ==> 0 < |projects[i]| <= MAX_PROJECT_LEN
  }

  function CheckProjects(projects: seq<Text>): Check {
    if |projects| > MAX_PROJECTS then Fail(TooManyProjects)
    else Need(ValidProjects(projects), InvalidLength)
  }

  function CheckBio(bio: Text): Check {
    Need(|bio| <= MAX_BIO_LEN, InvalidLength)
  }

  // -------------------------------------------------------------- helpers

  /** `set_owner`: give `t` to an address holding nothing, releasing the previous one. */
  function SetOwner(s: State, t: TokenId, from: Option<Address>, to: Address): Result<State> {
    if to in s.tokenOf then Err(MemberAlreadyExist)
    else
      var released := if from.Some? then s.tokenOf - {from.value} else s.tokenOf;
      Ok(s.(owner := s.owner[t := to], tokenOf := released[to := t]))
  }

  function RemoveOwner(s: State, t: TokenId, from: Address): State {
    s.(owner := s.owner - {t}, tokenOf := s.tokenOf - {from})
  }

  function DropRecovery(s: State, t: TokenId): State {
    s.(recovery := s.recovery - {t})
  }

  /** `cancel_recovery` publishes only when a request was pending. */
  function Cancellation(s: State, t: TokenId): seq<Event> {
    if t in s.recovery then [RecoveryCancelled(t)] else []
  }

  /** Whether every account can be bound: free, and named once. */
  predicate Bindable(bound: map<AccountKey, TokenId>, e: ExternalAccounts) {
    && (forall i :: 0 <= i < |e.accounts| ==> KeyOf(e.accounts[i]) !in bound)
    && (forall i, j :: 0 <= i < j < |e.accounts| ==> KeyOf(e.accounts[i]) != KeyOf(e.accounts[j]))
  }

  function Bind(bound: map<AccountKey, TokenId>, t: TokenId, e: ExternalAccounts): map<AccountKey, TokenId> {
    bound + map k | k in KeysOf(e) :: t
  }

  function SaveMember(s: State, t: TokenId, m: Member): State {
    s.(member := s.member[t := m])
  }

  /** `auth_owner_or_admin` */
  function AuthOwnerOrAdmin(s: State, tx: Tx, caller: Address, t: TokenId): Result<Address> {
    if !tx.Signed(caller) then Err(MissingAuth)
    else
      var owner :- OwnerOf(s, t);
      if caller != owner && caller != s.admin then Err(UnauthorizedSigner) else Ok(caller)
  }

  // --------------------------------------------------------- entry points

  function MintStep(s: State, tx: Tx): Result<Effect>
    requires tx.call.Mint?
  {
    var Mint(to, role, accounts, bio, projects) := tx.call;
    :- Need(tx.Signed(to), MissingAuth);
    :- Need(tx.Attested(s.attester), MissingAuth);
    :- CheckAccounts(accounts.accounts);
    :- CheckBio(bio);
    :- CheckProjects(projects);
    :- Need(s.nextTokenId < U32_MAX, Overflow);
    var t := s.nextTokenId;
    var owned :- SetOwner(s.(nextTokenId := t + 1), t, None, to);
    :- Need(Bindable(s.account, accounts), AccountAlreadyBound);
    var bound := owned.(account := Bind(s.account, t, accounts));
    Ok(Effect(SaveMember(bound, t, Member(Active, role, accounts, bio, projects)),
              [Minted(t, to, role, accounts, bio, projects)],
              Some(t)))
  }

  function RevokeStep(s: State, tx: Tx): Result<Effect>
    requires tx.call.Revoke?
  {
    var t := tx.call.token;
    :- Need(tx.Signed(s.admin), MissingAuth);
    var from :- OwnerOf(s, t);
    var m :- MemberOf(s, t);
    var released := RemoveOwner(DropRecovery(s, t), t, from);
    Ok(Effect(SaveMember(released, t, m.(status := Revoked)),
              Cancellation(s, t) + [RevokedEvent(t, from)],
              None))
  }

  function SetRoleStep(s: State, tx: Tx): Result<Effect>
    requires tx.call.SetRole?
  {
    var t, role := tx.call.token, tx.call.role;
    :- Need(tx.Signed(s.admin), MissingAuth);
    var _ :- OwnerOf(s, t);
    var m :- MemberOf(s, t);
    Ok(Effect(SaveMember(s, t, m.(role := role)), [RoleSet(t, role)], None))
  }

  function SetExternalAccountsStep(s: State, tx: Tx): Result<Effect>
    requires tx.call.SetExternalAccounts?
  {
    var t, accounts := tx.call.token, tx.call.accounts;
    var owner :- OwnerOf(s, t);
    :- Need(tx.Signed(owner), MissingAuth);
    :- Need(tx.Signed(s.attester), MissingAuth);
    :- CheckAccounts(accounts.accounts);
    var m :- MemberOf(s, t);
    var freed := s.account - KeysOf(m.externalAccounts);
    :- Need(Bindable(freed, accounts), AccountAlreadyBound);
    Ok(Effect(SaveMember(s.(account := Bind(freed, t, accounts)), t, m.(externalAccounts := accounts)),
              [ExternalAccountsSet(t, accounts)],
              None))
  }

  function SetBioStep(s: State, tx: Tx): Result<Effect>
    requires tx.call.SetBio?
  {
    var SetBio(caller, t, bio) := tx.call;
    var _ :- AuthOwnerOrAdmin(s, tx, caller, t);
    :- CheckBio(bio);
    var m :- MemberOf(s, t);
    Ok(Effect(SaveMember(s, t, m.(bio := bio)), [BioSet(t, bio)], None))
  }

  function SetProjectsStep(s: State, tx: Tx): Result<Effect>
    requires tx.call.SetProjects?
  {
    var SetProjects(caller, t, projects) := tx.call;
    var _ :- AuthOwnerOrAdmin(s, tx, caller, t);
    :- CheckProjects(projects);
    var m :- MemberOf(s, t);
    Ok(Effect(SaveMember(s, t, m.(projects := projects)), [ProjectsSet(t, projects)], None))
  }

  function ExtendMemberStep(s: State, tx: Tx): Result<Effect>
    requires tx.call.ExtendMember?
  {
    var _ :- MemberOf(s, tx.call.token);
    Ok(Effect(s, [], None))
  }

  function RotateKeyStep(s: State, tx: Tx): Result<Effect>
    requires tx.call.RotateKey?
  {
    var t, to := tx.call.token, tx.call.newAddress;
    var from :- OwnerOf(s, t);
    :- Need(tx.Signed(from), MissingAuth);
    :- Need(tx.Signed(to), MissingAuth);
    var s' :- SetOwner(DropRecovery(s, t), t, Some(from), to);
    var _ :- MemberOf(s', t);
    Ok(Effect(s', Cancellation(s, t) + [KeyRotated(t, from, to)], None))
  }

  function ProposeRecoveryStep(s: State, tx: Tx): Result<Effect>
    requires tx.call.ProposeRecovery?
  {
    var t, to := tx.call.token, tx.call.newAddress;
    var _ :- OwnerOf(s, t);
    :- Need(tx.Signed(s.attester), MissingAuth);
    :- Need(tx.Signed(to), MissingAuth);
    :- Need(t !in s.recovery, RecoveryPending);
    :- Need(to !in s.tokenOf, MemberAlreadyExist);
    :- Need(tx.timestamp + RECOVERY_DELAY <= U64_MAX, Overflow);
    var executableAt := tx.timestamp + RECOVERY_DELAY;
    Ok(Effect(s.(recovery := s.recovery[t := RecoveryRequest(s.attester, to, executableAt)]),
              [RecoveryProposed(t, to, executableAt)],
              None))
  }

  function CancelRecoveryStep(s: State, tx: Tx): Result<Effect>
    requires tx.call.CancelRecovery?
  {
    var CancelRecovery(caller, t) := tx.call;
    var _ :- AuthOwnerOrAdmin(s, tx, caller, t);
    :- Need(t in s.recovery, NoRecovery);
    Ok(Effect(DropRecovery(s, t), Cancellation(s, t), None))
  }

  function FinalizeRecoveryStep(s: State, tx: Tx): Result<Effect>
    requires tx.call.FinalizeRecovery?
  {
    var t := tx.call.token;
    if t !in s.recovery then Err(NoRecovery) else
      var request := s.recovery[t];
      :- Need(request.executableAt <= tx.timestamp || tx.Signed(s.admin), MissingAuth);
      :- Need(request.attester == s.attester, AttesterChanged);
      :- Need(request.executableAt + RECOVERY_DELAY <= U64_MAX, Overflow);
      :- Need(tx.timestamp < request.executableAt + RECOVERY_DELAY, RecoveryExpired);
      var from :- OwnerOf(s, t);
      var s' :- SetOwner(DropRecovery(s, t), t, Some(from), request.newAddress);
      var _ :- MemberOf(s', t);
      Ok(Effect(s', [Recovered(t, from, request.newAddress)], None))
  }

  function RecoverStep(s: State, tx: Tx): Result<Effect>
    requires tx.call.Recover?
  {
    var t, to := tx.call.token, tx.call.newAddress;
    :- Need(tx.Signed(s.admin), MissingAuth);
    var m :- MemberOf(s, t);
    var from := if t in s.owner then Some(s.owner[t]) else None;
    var s' :- SetOwner(DropRecovery(s, t), t, from, to);
    Ok(Effect(SaveMember(s', t, m.(status := Active)),
              Cancellation(s, t) + [AdminRecovered(t, from, to)],
              None))
  }

  function SetAdminStep(s: State, tx: Tx): Result<Effect>
    requires tx.call.SetAdmin?
  {
    var admin := tx.call.admin;
    :- Need(tx.Signed(s.admin), MissingAuth);
    Ok(Effect(s.(admin := admin), [AdminSet(s.admin, admin)], None))
  }

  function SetAttesterStep(s: State, tx: Tx): Result<Effect>
    requires tx.call.SetAttester?
  {
    var attester := tx.call.attester;
    :- Need(tx.Signed(s.admin), MissingAuth);
    Ok(Effect(s.(attester := attester), [AttesterSet(s.attester, attester)], None))
  }

  function SetNqgContractStep(s: State, tx: Tx): Result<Effect>
    requires tx.call.SetNqgContract?
  {
    var nqgContract := tx.call.nqgContract;
    :- Need(tx.Signed(s.admin), MissingAuth);
    Ok(Effect(s.(nqgContract := nqgContract), [NqgContractSet(s.nqgContract, nqgContract)], None))
  }

  function Step(s: State, tx: Tx): Result<Effect> {
    match tx.call
    case Mint(_, _, _, _, _) => MintStep(s, tx)
    case Revoke(_) => RevokeStep(s, tx)
    case SetRole(_, _) => SetRoleStep(s, tx)
    case SetExternalAccounts(_, _) => SetExternalAccountsStep(s, tx)
    case SetBio(_, _, _) => SetBioStep(s, tx)
    case SetProjects(_, _, _) => SetProjectsStep(s, tx)
    case ExtendMember(_) => ExtendMemberStep(s, tx)
    case RotateKey(_, _) => RotateKeyStep(s, tx)
    case ProposeRecovery(_, _) => ProposeRecoveryStep(s, tx)
    case CancelRecovery(_, _) => CancelRecoveryStep(s, tx)
    case FinalizeRecovery(_) => FinalizeRecoveryStep(s, tx)
    case Recover(_, _) => RecoverStep(s, tx)
    case SetAdmin(_) => SetAdminStep(s, tx)
    case SetAttester(_) => SetAttesterStep(s, tx)
    case SetNqgContract(_) => SetNqgContractStep(s, tx)
  }
}
