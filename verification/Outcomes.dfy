/**
 * What comes of every call in a storage that satisfies the invariants: when
 * exactly it succeeds, which error it stops with otherwise, what it returns
 * and when it announces a cancellation. All of it is put in terms of the
 * records, the links and the signatures themselves, with the bounds as numbers.
 */
module Outcomes {
  import opened Types
  import opened Model
  import opened Effects
  import opened Invariants
  import opened Calls

  /** `a` signed the call with all of its arguments. */
  predicate HasSigned(tx: Tx, a: Address) {
    Auth(a, Whole(tx.call)) in tx.auths
  }

  /** `a` signed a mint of these accounts, in this role, to this address. */
  predicate HasAttested(tx: Tx, a: Address)
    requires tx.call.Mint?
  {
    Auth(a, MintAttestation(tx.call.to, tx.call.role, tx.call.accounts)) in tx.auths
  }

  lemma OwnedIsStored(s: State, t: TokenId)
    requires Inv(s)
    ensures t in s.owner ==> t in s.member
  {
  }

  // -------------------------------------------------------------- validation

  /** An id of 1 to 64 bytes, a handle of at most 64. */
  predicate AccountFits(a: SocialAccount) {
    1 <= |a.id| <= 64 && |a.handle| <= 64
  }

  /** The account at `i` is out of bounds, or a later one is of the same provider. */
  predicate Faulty(accounts: seq<SocialAccount>, i: nat)
    requires i < |accounts|
  {
    || !AccountFits(accounts[i])
    || exists j :: i < j < |accounts| && accounts[j].provider == accounts[i].provider
  }

  predicate AccountsFit(accounts: seq<SocialAccount>) {
    && (forall i :: 0 <= i < |accounts| ==> AccountFits(accounts[i]))
    && (forall i, j :: 0 <= i < j < |accounts| ==> accounts[i].provider != accounts[j].provider)
  }

  predicate ProjectsFit(projects: seq<Text>) {
    |projects| <= 10 && forall i :: 0 <= i < |projects| ==> 1 <= |projects[i]| <= 128
  }

  lemma ProjectsFitIff(projects: seq<Text>)
    ensures ProjectsFit(projects) <==> ValidProjects(projects)
  {
  }

  lemma AccountsFitIff(accounts: seq<SocialAccount>)
    ensures CheckAccounts(accounts).Pass? <==> AccountsFit(accounts)
  {
    hide CheckAccounts;
    CheckAccountsMeaning(accounts);
  }

  lemma FaultyLater(accounts: seq<SocialAccount>, i: nat)
    requires 0 < i < |accounts|
    ensures Faulty(accounts[1..], i - 1) <==> Faulty(accounts, i)
  {
    var rest := accounts[1..];
    forall j | i < j < |accounts| && accounts[j].provider == accounts[i].provider
      ensures Faulty(rest, i - 1)
    {
      assert rest[j - 1] == accounts[j];
    }
    forall j | i - 1 < j < |rest| && rest[j].provider == rest[i - 1].provider
      ensures Faulty(accounts, i)
    {
      assert accounts[j + 1] == rest[j];
    }
  }

  lemma FaultyFirst(accounts: seq<SocialAccount>)
    requires accounts != []
    ensures Faulty(accounts, 0) ==>
              CheckAccounts(accounts) ==
              Fail(if AccountFits(accounts[0]) then DuplicateProvider else InvalidLength)
    ensures !Faulty(accounts, 0) ==> CheckAccounts(accounts) == CheckAccounts(accounts[1..])
  {
    var rest := accounts[1..];
    assert forall j :: 0 <= j < |rest| ==> rest[j] == accounts[j + 1];
    if o :| o in rest && o.provider == accounts[0].provider {
      var j :| 0 <= j < |rest| && rest[j] == o;
      assert accounts[j + 1].provider == accounts[0].provider;
    }
  }

  /** Validation stops at the first faulty account, with the error of its fault, the bounds ahead of the provider. */
  lemma {:induction false} FirstFault(accounts: seq<SocialAccount>, i: nat)
    requires i < |accounts| && Faulty(accounts, i)
    requires forall j: nat :: j < i ==> !Faulty(accounts, j)
    ensures CheckAccounts(accounts) == Fail(if AccountFits(accounts[i]) then DuplicateProvider else InvalidLength)
  {
    hide CheckAccounts, Faulty, AccountFits;
    FaultyFirst(accounts);
    if i > 0 {
      assert !Faulty(accounts, 0);
      FaultyLater(accounts, i);
      forall j: nat | j < i - 1
        ensures !Faulty(accounts[1..], j)
      {
        FaultyLater(accounts, j + 1);
      }
      FirstFault(accounts[1..], i - 1);
    }
  }

  // -------------------------------------------------------- external accounts

  /** A record other than that of `t`, revoked or not, has an account with provider and id of one of these. */
  lemma TakenMeansNotBindable(s: State, t: TokenId, e: ExternalAccounts)
    requires Inv(s) && AccountsFit(e.accounts)
    ensures Bindable(Freed(s, t), e) <==> !TakenElsewhere(s, t, e)
  {
    hide Inv, Freed, Bindable, TakenElsewhere, KeysOf, AccountsMatch;
    InvClauses(s);
    BindableIffFree(Freed(s, t), e);
    FreedIsRest(s, t);
    TakenByKey(s, t, e);
    if k :| k in KeysOf(e) && k in Freed(s, t) {
      assert Get(Freed(s, t), k).Some?;
    }
    if k :| k in KeysOf(e) && k in s.account && s.account[k] != t {
      assert Get(Freed(s, t), k) == Get(s.account, k);
    }
  }

  // ------------------------------------------------------------------- calls

  lemma RotateKeyOutcome(s: State, tx: Tx)
    requires Inv(s) && tx.call.RotateKey?
    ensures var t, to, r := tx.call.token, tx.call.newAddress, Step(s, tx);
            var signed := t in s.owner && HasSigned(tx, s.owner[t]) && HasSigned(tx, to);
            && (r.Ok? <==> signed && to !in s.tokenOf)
            && (r == Err(NonExistentToken) <==> t !in s.member)
            && (r == Err(TokenRevoked) <==> t in s.member && t !in s.owner)
            && (r == Err(MissingAuth) <==> t in s.owner && !signed)
            && (r == Err(MemberAlreadyExist) <==> signed && to in s.tokenOf)
  {
    hide Inv;
    OwnedIsStored(s, tx.call.token);
  }

  lemma RevokeOutcome(s: State, tx: Tx)
    requires Inv(s) && tx.call.Revoke?
    ensures var t, r := tx.call.token, Step(s, tx);
            && (r.Ok? <==> HasSigned(tx, s.admin) && t in s.owner)
            && (r == Err(MissingAuth) <==> !HasSigned(tx, s.admin))
            && (r == Err(NonExistentToken) <==> HasSigned(tx, s.admin) && t !in s.member)
            && (r == Err(TokenRevoked) <==> HasSigned(tx, s.admin) && t in s.member && t !in s.owner)
  {
    hide Inv;
    OwnedIsStored(s, tx.call.token);
  }

  lemma RecoverOutcome(s: State, tx: Tx)
    requires tx.call.Recover?
    ensures var t, to, r := tx.call.token, tx.call.newAddress, Step(s, tx);
            && (r.Ok? <==> HasSigned(tx, s.admin) && t in s.member && to !in s.tokenOf)
            && (r == Err(MissingAuth) <==> !HasSigned(tx, s.admin))
            && (r == Err(NonExistentToken) <==> HasSigned(tx, s.admin) && t !in s.member)
            && (r == Err(MemberAlreadyExist) <==> HasSigned(tx, s.admin) && t in s.member && to in s.tokenOf)
  {
  }

  lemma SetRoleOutcome(s: State, tx: Tx)
    requires Inv(s) && tx.call.SetRole?
    ensures var t, r := tx.call.token, Step(s, tx);
            && (r.Ok? <==> HasSigned(tx, s.admin) && t in s.owner)
            && (r == Err(MissingAuth) <==> !HasSigned(tx, s.admin))
            && (r == Err(NonExistentToken) <==> HasSigned(tx, s.admin) && t !in s.member)
            && (r == Err(TokenRevoked) <==> HasSigned(tx, s.admin) && t in s.member && t !in s.owner)
  {
    hide Inv;
    OwnedIsStored(s, tx.call.token);
  }

  /** The calls an owner or the admin makes in its own name: bio, projects, cancelling a recovery. */
  predicate NamesCaller(call: Call) {
    call.SetBio? || call.SetProjects? || call.CancelRecovery?
  }

  /** Why such a call is refused before its arguments are looked at. */
  predicate CallerMay(s: State, tx: Tx)
    requires NamesCaller(tx.call)
  {
    && HasSigned(tx, tx.call.caller)
    && tx.call.token in s.owner
    && (tx.call.caller == s.owner[tx.call.token] || tx.call.caller == s.admin)
  }

  lemma CallerRefused(s: State, tx: Tx)
    requires Inv(s) && NamesCaller(tx.call)
    ensures var t, r := tx.call.token, Step(s, tx);
            && (r == Err(MissingAuth) <==> !HasSigned(tx, tx.call.caller))
            && (r == Err(NonExistentToken) <==> HasSigned(tx, tx.call.caller) && t !in s.member)
            && (r == Err(TokenRevoked) <==> HasSigned(tx, tx.call.caller) && t in s.member && t !in s.owner)
            && (r == Err(UnauthorizedSigner) <==>
                  HasSigned(tx, tx.call.caller) && t in s.owner && !CallerMay(s, tx))
  {
    hide Inv;
    OwnedIsStored(s, tx.call.token);
  }

  lemma SetBioOutcome(s: State, tx: Tx)
    requires Inv(s) && tx.call.SetBio?
    ensures Step(s, tx).Ok? <==> CallerMay(s, tx) && |tx.call.bio| <= 128
    ensures Step(s, tx) == Err(InvalidLength) <==> CallerMay(s, tx) && |tx.call.bio| > 128
  {
    hide Inv;
    OwnedIsStored(s, tx.call.token);
  }

  lemma SetProjectsOutcome(s: State, tx: Tx)
    requires Inv(s) && tx.call.SetProjects?
    ensures var projects, r := tx.call.projects, Step(s, tx);
            && (r.Ok? <==> CallerMay(s, tx) && ProjectsFit(projects))
            && (r == Err(TooManyProjects) <==> CallerMay(s, tx) && |projects| > 10)
            && (r == Err(InvalidLength) <==> CallerMay(s, tx) && |projects| <= 10 && !ProjectsFit(projects))
  {
    hide Inv;
    OwnedIsStored(s, tx.call.token);
  }

  lemma CancelRecoveryOutcome(s: State, tx: Tx)
    requires Inv(s) && tx.call.CancelRecovery?
    ensures Step(s, tx).Ok? <==> CallerMay(s, tx) && tx.call.token in s.recovery
    ensures Step(s, tx) == Err(NoRecovery) <==> CallerMay(s, tx) && tx.call.token !in s.recovery
  {
    hide Inv;
  }

  lemma ExtendMemberOutcome(s: State, tx: Tx)
    requires tx.call.ExtendMember?
    ensures Step(s, tx).Ok? <==> tx.call.token in s.member
    ensures Step(s, tx) == Err(NonExistentToken) <==> tx.call.token !in s.member
  {
  }

  lemma SettingsOutcome(s: State, tx: Tx)
    requires tx.call.SetAdmin? || tx.call.SetAttester? || tx.call.SetNqgContract?
    ensures Step(s, tx).Ok? <==> HasSigned(tx, s.admin)
    ensures Step(s, tx) == Err(MissingAuth) <==> !HasSigned(tx, s.admin)
  {
  }

  /** The delay is seven days. */
  lemma ProposeRecoveryOutcome(s: State, tx: Tx)
    requires Inv(s) && tx.call.ProposeRecovery?
    ensures var t, to, r := tx.call.token, tx.call.newAddress, Step(s, tx);
            var signed := t in s.owner && HasSigned(tx, s.attester) && HasSigned(tx, to);
            var executableAt := tx.timestamp + 7 * 86_400;
            && (r.Ok? <==> signed && t !in s.recovery && to !in s.tokenOf && executableAt < 0x1_0000_0000_0000_0000)
            && (r == Err(NonExistentToken) <==> t !in s.member)
            && (r == Err(TokenRevoked) <==> t in s.member && t !in s.owner)
            && (r == Err(MissingAuth) <==> t in s.owner && !signed)
            && (r == Err(RecoveryPending) <==> signed && t in s.recovery)
            && (r == Err(MemberAlreadyExist) <==> signed && t !in s.recovery && to in s.tokenOf)
            && (r == Err(Overflow) <==>
                  signed && t !in s.recovery && to !in s.tokenOf && executableAt >= 0x1_0000_0000_0000_0000)
            && (r.Ok? ==> r.value.state.recovery == s.recovery[t := RecoveryRequest(s.attester, to, executableAt)])
  {
    hide Inv;
    OwnedIsStored(s, tx.call.token);
  }

  /** The window lasts seven days. */
  lemma FinalizeRecoveryOutcome(s: State, tx: Tx)
    requires Inv(s) && tx.call.FinalizeRecovery? && tx.call.token in s.recovery
    ensures var request, r := s.recovery[tx.call.token], Step(s, tx);
            var due := request.executableAt <= tx.timestamp || HasSigned(tx, s.admin);
            var valid := due && request.attester == s.attester;
            var end := request.executableAt + 7 * 86_400;
            && (r.Ok? <==> valid && tx.timestamp < end < 0x1_0000_0000_0000_0000 && request.newAddress !in s.tokenOf)
            && (r == Err(MissingAuth) <==> !due)
            && (r == Err(AttesterChanged) <==> due && request.attester != s.attester)
            && (r == Err(Overflow) <==> valid && end >= 0x1_0000_0000_0000_0000)
            && (r == Err(RecoveryExpired) <==> valid && end <= tx.timestamp && end < 0x1_0000_0000_0000_0000)
            && (r == Err(MemberAlreadyExist) <==>
                  valid && tx.timestamp < end < 0x1_0000_0000_0000_0000 && request.newAddress in s.tokenOf)
  {
    hide Inv;
    PendingIsActive(s, tx.call.token);
  }

  lemma NothingToFinalize(s: State, tx: Tx)
    requires tx.call.FinalizeRecovery?
    ensures Step(s, tx) == Err(NoRecovery) <==> tx.call.token !in s.recovery
  {
  }

  /** Validation has two errors. */
  lemma {:induction false} AccountErrors(accounts: seq<SocialAccount>)
    ensures CheckAccounts(accounts).Fail? ==> CheckAccounts(accounts).error in {InvalidLength, DuplicateProvider}
  {
    if accounts != [] {
      AccountErrors(accounts[1..]);
    }
  }

  lemma SetExternalAccountsOutcome(s: State, tx: Tx)
    requires Inv(s) && tx.call.SetExternalAccounts?
    ensures var t, e, r := tx.call.token, tx.call.accounts, Step(s, tx);
            var signed := t in s.owner && HasSigned(tx, s.owner[t]) && HasSigned(tx, s.attester);
            && (r.Ok? <==> signed && AccountsFit(e.accounts) && !TakenElsewhere(s, t, e))
            && (r == Err(NonExistentToken) <==> t !in s.member)
            && (r == Err(TokenRevoked) <==> t in s.member && t !in s.owner)
            && (r == Err(MissingAuth) <==> t in s.owner && !signed)
            && (forall x :: signed && CheckAccounts(e.accounts) == Fail(x) ==> r == Err(x))
            && (r == Err(AccountAlreadyBound) <==> signed && AccountsFit(e.accounts) && TakenElsewhere(s, t, e))
  {
    hide Inv, TakenElsewhere, Bindable, Bind, CheckAccounts, KeysOf, AccountsFit;
    var t, e := tx.call.token, tx.call.accounts;
    OwnedIsStored(s, t);
    AccountsFitIff(e.accounts);
    AccountErrors(e.accounts);
    if AccountsFit(e.accounts) {
      TakenMeansNotBindable(s, t, e);
    }
  }

  /** All that a mint validates. */
  predicate MintFits(call: Call)
    requires call.Mint?
  {
    AccountsFit(call.accounts.accounts) && |call.bio| <= 128 && ProjectsFit(call.projects)
  }

  lemma MintOutcome(s: State, tx: Tx)
    requires Inv(s) && tx.call.Mint?
    ensures var Mint(to, _, e, bio, projects) := tx.call;
            var t, r := s.nextTokenId, Step(s, tx);
            var signed := HasSigned(tx, to) && HasAttested(tx, s.attester);
            var ready := signed && MintFits(tx.call) && t < 0xFFFF_FFFF;
            && (r.Ok? <==> ready && to !in s.tokenOf && !TakenElsewhere(s, t, e))
            && (r == Err(MissingAuth) <==> !signed)
            && (r == Err(Overflow) <==> signed && MintFits(tx.call) && t == 0xFFFF_FFFF)
            && (r == Err(MemberAlreadyExist) <==> ready && to in s.tokenOf)
            && (r == Err(AccountAlreadyBound) <==> ready && to !in s.tokenOf && TakenElsewhere(s, t, e))
  {
    hide Inv, TakenElsewhere, Bindable, Bind, CheckAccounts, KeysOf, AccountsFit;
    var e := tx.call.accounts;
    NextIsFresh(s);
    AccountsFitIff(e.accounts);
    AccountErrors(e.accounts);
    if AccountsFit(e.accounts) {
      TakenMeansNotBindable(s, s.nextTokenId, e);
    }
  }

  /** What a signed mint is refused for: accounts first, then bio, then projects. */
  lemma MintInvalid(s: State, tx: Tx)
    requires tx.call.Mint? && HasSigned(tx, tx.call.to) && HasAttested(tx, s.attester)
    requires !MintFits(tx.call)
    ensures var accounts := tx.call.accounts.accounts;
            && (forall x :: CheckAccounts(accounts) == Fail(x) ==> Step(s, tx) == Err(x))
            && (AccountsFit(accounts) ==>
                  Step(s, tx) ==
                  Err(if |tx.call.bio| <= 128 && |tx.call.projects| > 10 then TooManyProjects else InvalidLength))
  {
    hide Bindable, Bind, CheckAccounts, KeysOf, AccountsFit;
    AccountsFitIff(tx.call.accounts.accounts);
  }

  // -------------------------------------------------- results and cancellations

  /** A mint returns the id it gave, of which there was no record; no other call returns anything. */
  lemma Returned(s: State, tx: Tx)
    requires Inv(s) && Step(s, tx).Ok?
    ensures tx.call.Mint? ==>
              var r := Step(s, tx).value;
              && r.returned == Some(s.nextTokenId)
              && s.nextTokenId !in s.member && Get(s.owner, s.nextTokenId) == None
              && Get(r.state.owner, s.nextTokenId) == Some(tx.call.to)
              && Get(r.state.tokenOf, tx.call.to) == Some(s.nextTokenId)
    ensures !tx.call.Mint? ==> Step(s, tx).value.returned == None
  {
    hide Inv, Bind, Bindable, CheckAccounts, KeysOf;
    NextIsFresh(s);
  }

  /** A cancellation is announced by exactly the calls that drop a pending request without carrying it out. */
  lemma CancellationsAnnounced(s: State, tx: Tx, t: TokenId)
    requires Inv(s) && Step(s, tx).Ok?
    ensures RecoveryCancelled(t) in Step(s, tx).value.events <==>
            t in s.recovery && t !in Step(s, tx).value.state.recovery && tx.call != FinalizeRecovery(t)
  {
    hide Step, Inv, Rewritten, Bind, Bindable, KeysOf;
    match tx.call
    case Mint(_, _, _, _, _) =>
      NextIsFresh(s);
      MintEffect(s, tx);
      assert s.recovery - {s.nextTokenId} == s.recovery;
    case SetExternalAccounts(_, _) => SetExternalAccountsEffect(s, tx);
    case Revoke(_) => RevokeEffect(s, tx);
    case RotateKey(_, _) => RotateKeyEffect(s, tx);
    case FinalizeRecovery(_) => FinalizeRecoveryEffect(s, tx);
    case Recover(_, _) => RecoverEffect(s, tx);
    case ProposeRecovery(_, _) => ProposeRecoveryEffect(s, tx);
    case CancelRecovery(_, _) => CancelRecoveryEffect(s, tx);
    case SetRole(_, _) => RewriteEffect(s, tx);
    case SetBio(_, _, _) => RewriteEffect(s, tx);
    case SetProjects(_, _, _) => RewriteEffect(s, tx);
    case _ => SettingsEffect(s, tx);
  }
}
