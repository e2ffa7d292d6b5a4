/**
 * What one call can and cannot do in a state that satisfies the invariants:
 * which tokens it touches, who must have signed for an owner to change, when
 * an account change is refused, and which calls undo each other.
 */
module Calls {
  import opened Types
  import opened Model
  import opened Effects
  import opened Invariants

  function Get<K, V>(m: map<K, V>, k: K): Option<V> {
    if k in m then Some(m[k]) else None
  }

  // ------------------------------------------------------ non-interference

  /** The token a call is about; a mint is about the id it is going to take. */
  function Subject(s: State, call: Call): Option<TokenId> {
    match call
    case Mint(_, _, _, _, _) => Some(s.nextTokenId)
    case SetAdmin(_) => None
    case SetAttester(_) => None
    case SetNqgContract(_) => None
    case _ => Some(call.token)
  }

  /** Record, owner, address link, reserved accounts and recovery of `t` are the same. */
  ghost predicate Untouched(s: State, s': State, t: TokenId) {
    && Get(s'.member, t) == Get(s.member, t)
    && Get(s'.owner, t) == Get(s.owner, t)
    && Get(s'.recovery, t) == Get(s.recovery, t)
    && (forall a :: Get(s'.tokenOf, a) == Some(t) <==> Get(s.tokenOf, a) == Some(t))
    && (forall k :: Get(s'.account, k) == Some(t) <==> Get(s.account, k) == Some(t))
  }

  lemma MovedUntouched(s: State, t: TokenId, to: Address, u: TokenId)
    requires OwnersInverse(s.owner, s.tokenOf)
    requires to !in s.tokenOf && u != t
    ensures Untouched(s, Moved(s, t, to), u)
  {
  }

  lemma ReleasedUntouched(s: State, t: TokenId, m: Member, u: TokenId)
    requires OwnersInverse(s.owner, s.tokenOf)
    requires t in s.owner && u != t
    ensures Untouched(s, s.(owner := s.owner - {t}, tokenOf := s.tokenOf - {s.owner[t]},
                            member := s.member[t := m], recovery := s.recovery - {t}), u)
  {
  }

  lemma RecordedUntouched(s: State, t: TokenId, m: Member, u: TokenId)
    requires AccountsMatch(s.account, s.member)
    requires Bindable(Freed(s, t), m.externalAccounts) && u != t
    ensures Untouched(s, Recorded(s, t, m), u)
  {
    hide KeysOf, Bindable;
    BindableFree(Freed(s, t), m.externalAccounts);
    var account' := Recorded(s, t, m).account;
    forall k
      ensures Get(account', k) == Some(u) <==> Get(s.account, k) == Some(u)
    {
      if k in KeysOf(m.externalAccounts) {
        assert k in s.account ==> k in KeysOf(s.member[s.account[k]].externalAccounts);
      } else {
        assert t in s.member && k in KeysOf(s.member[t].externalAccounts) ==> s.account[k] == t;
      }
    }
  }

  lemma UntouchedTransitive(s0: State, s1: State, s2: State, t: TokenId)
    requires Untouched(s0, s1, t) && Untouched(s1, s2, t)
    ensures Untouched(s0, s2, t)
  {
  }

  /** The clauses of the invariant, one by one. */
  lemma InvClauses(s: State)
    requires Inv(s)
    ensures OwnersInverse(s.owner, s.tokenOf) && OwnedIffActive(s.owner, s.member)
    ensures AccountsMatch(s.account, s.member) && RecoveriesActive(s.recovery, s.owner)
    ensures MembersBelowNext(s.member, s.nextTokenId) && RecordsValid(s.member)
  {
  }

  lemma CounterUntouched(s: State, s': State, n: U32, t: TokenId)
    requires Untouched(s, s', t)
    ensures Untouched(s, s'.(nextTokenId := n), t)
  {
  }

  lemma MintUntouched(s: State, tx: Tx, t: TokenId)
    requires Inv(s) && tx.call.Mint? && Step(s, tx).Ok? && t != s.nextTokenId
    ensures Untouched(s, Step(s, tx).value.state, t)
  {
    hide Step, Inv, Bindable, Bind, AccountsMatch, OwnersInverse, Get, Untouched, KeysOf;
    InvClauses(s);
    NextIsFresh(s);
    MintEffect(s, tx);
    var s1 := Moved(s, s.nextTokenId, tx.call.to);
    var s2 := Recorded(s1, s.nextTokenId, NewMember(tx.call));
    MovedUntouched(s, s.nextTokenId, tx.call.to, t);
    RecordedUntouched(s1, s.nextTokenId, NewMember(tx.call), t);
    UntouchedTransitive(s, s1, s2, t);
    CounterUntouched(s, s2, s.nextTokenId + 1, t);
  }

  lemma RecoverUntouched(s: State, tx: Tx, t: TokenId)
    requires Inv(s) && tx.call.Recover? && Step(s, tx).Ok? && t != tx.call.token
    ensures Untouched(s, Step(s, tx).value.state, t)
  {
    hide Step, Inv, OwnersInverse;
    InvClauses(s);
    RecoverEffect(s, tx);
    MovedUntouched(s, tx.call.token, tx.call.newAddress, t);
  }

  lemma RecordsUntouched(s: State, tx: Tx, t: TokenId)
    requires RewritesRecord(tx.call) && Step(s, tx).Ok? && tx.call.token != t
    ensures Untouched(s, Step(s, tx).value.state, t)
  {
  }

  lemma RecoveryStepsUntouched(s: State, tx: Tx, t: TokenId)
    requires tx.call.ProposeRecovery? || tx.call.CancelRecovery?
    requires Step(s, tx).Ok? && tx.call.token != t
    ensures Untouched(s, Step(s, tx).value.state, t)
  {
    hide Step;
    if tx.call.ProposeRecovery? {
      ProposeRecoveryEffect(s, tx);
    } else {
      CancelRecoveryEffect(s, tx);
    }
  }

  lemma SettingsUntouched(s: State, tx: Tx, t: TokenId)
    requires LeavesMaps(tx.call) && Step(s, tx).Ok?
    ensures Untouched(s, Step(s, tx).value.state, t)
  {
    hide Step;
    SettingsEffect(s, tx);
  }

  lemma OtherStepsUntouched(s: State, tx: Tx, t: TokenId)
    requires Inv(s) && Step(s, tx).Ok?
    requires tx.call.RotateKey? || tx.call.FinalizeRecovery? || tx.call.Revoke? || tx.call.SetExternalAccounts?
    requires tx.call.token != t
    ensures Untouched(s, Step(s, tx).value.state, t)
  {
    hide *;
    InvClauses(s);
    var u := tx.call.token;
    match tx.call
    case RotateKey(_, to) =>
      RotateKeyEffect(s, tx);
      MovedUntouched(s, u, to, t);
    case FinalizeRecovery(_) =>
      FinalizeRecoveryEffect(s, tx);
      MovedUntouched(s, u, s.recovery[u].newAddress, t);
    case Revoke(_) =>
      RevokeEffect(s, tx);
      ReleasedUntouched(s, u, s.member[u].(status := Revoked), t);
    case SetExternalAccounts(_, e) =>
      SetExternalAccountsEffect(s, tx);
      RecordedUntouched(s, u, s.member[u].(externalAccounts := e), t);
  }

  /** A call about one token leaves every other token alone. */
  lemma NonInterference(s: State, tx: Tx, t: TokenId)
    requires Inv(s) && Step(s, tx).Ok?
    requires Subject(s, tx.call) != Some(t)
    ensures Untouched(s, Step(s, tx).value.state, t)
  {
    hide Step, Inv, Untouched;
    match tx.call
    case Mint(_, _, _, _, _) => MintUntouched(s, tx, t);
    case Recover(_, _) => RecoverUntouched(s, tx, t);
    case SetRole(_, _) => RecordsUntouched(s, tx, t);
    case SetBio(_, _, _) => RecordsUntouched(s, tx, t);
    case SetProjects(_, _, _) => RecordsUntouched(s, tx, t);
    case ProposeRecovery(_, _) => RecoveryStepsUntouched(s, tx, t);
    case CancelRecovery(_, _) => RecoveryStepsUntouched(s, tx, t);
    case ExtendMember(_) => SettingsUntouched(s, tx, t);
    case SetAdmin(_) => SettingsUntouched(s, tx, t);
    case SetAttester(_) => SettingsUntouched(s, tx, t);
    case SetNqgContract(_) => SettingsUntouched(s, tx, t);
    case _ => OtherStepsUntouched(s, tx, t);
  }

  // ---------------------------------------------------------- conservation

  /** The revoked members: a record, and no address. */
  function RevokedTokens(s: State): set<TokenId> {
    set t | t in s.member && s.member[t].status == Revoked
  }

  lemma {:induction false} TokensBelow(n: U32, tokens: set<TokenId>)
    requires forall t: TokenId :: t in tokens <==> t < n
    ensures |tokens| == n
  {
    if n == 0 {
      assert tokens == {};
    } else {
      TokensBelow(n - 1, tokens - {n - 1});
    }
  }

  /** Maps that are each other's inverse have as many entries. */
  lemma {:induction false} InverseSameSize(owner: map<TokenId, Address>, tokenOf: map<Address, TokenId>)
    requires OwnersInverse(owner, tokenOf)
    ensures |owner| == |tokenOf|
    decreases |owner|
  {
    if owner == map[] {
      assert tokenOf == map[];
    } else {
      var t :| t in owner;
      var a := owner[t];
      ReleasedInverse(owner, tokenOf, t);
      InverseSameSize(owner - {t}, tokenOf - {a});
      assert owner == (owner - {t})[t := a];
      assert tokenOf == (tokenOf - {a})[a := t];
    }
  }

  lemma OwnedAreTheRest(s: State)
    requires OwnedIffActive(s.owner, s.member)
    ensures RevokedTokens(s) <= s.member.Keys && s.owner.Keys == s.member.Keys - RevokedTokens(s)
  {
  }

  lemma MintedCount(s: State)
    requires MembersBelowNext(s.member, s.nextTokenId)
    ensures |s.member.Keys| == s.nextTokenId
  {
    TokensBelow(s.nextTokenId, s.member.Keys);
  }

  lemma SizeOfRest(all: set<TokenId>, some: set<TokenId>)
    requires some <= all
    ensures |all - some| == |all| - |some|
  {
  }

  /** As many addresses hold a token as tokens were minted and are not revoked. */
  lemma Conservation(s: State)
    requires Inv(s)
    ensures |s.owner| == |s.tokenOf| == s.nextTokenId - |RevokedTokens(s)|
  {
    hide *;
    InvClauses(s);
    MintedCount(s);
    InverseSameSize(s.owner, s.tokenOf);
    OwnedAreTheRest(s);
    SizeOfRest(s.member.Keys, RevokedTokens(s));
    assert |s.owner.Keys| == |s.owner|;
  }

  /** Only a mint adds a record, its own, and no record ever disappears. */
  lemma RecordsPersist(s: State, tx: Tx)
    requires Inv(s) && Step(s, tx).Ok?
    ensures var s' := Step(s, tx).value.state;
            && s'.member.Keys == s.member.Keys + (if tx.call.Mint? then {s.nextTokenId} else {})
            && s'.nextTokenId == s.nextTokenId + (if tx.call.Mint? then 1 else 0)
  {
    hide Step, Inv, Rewritten, Bind, Bindable;
    match tx.call
    case Mint(_, _, _, _, _) =>
      NextIsFresh(s);
      MintEffect(s, tx);
    case SetExternalAccounts(_, _) => SetExternalAccountsEffect(s, tx);
    case Revoke(_) => RevokeEffect(s, tx);
    case RotateKey(_, _) => RotateKeyEffect(s, tx);
    case FinalizeRecovery(_) => FinalizeRecoveryEffect(s, tx);
    case Recover(_, _) => RecoverEffect(s, tx);
    case ProposeRecovery(_, _) => ProposeRecoveryEffect(s, tx);
    case CancelRecovery(_, _) => CancelRecoveryEffect(s, tx);
    case SetRole(_, _) => RewriteEffect(s, tx);
    case SetBio(_, _, _) => RewriteEffect(s, tx);
    case SetProjects(_, _, _) => RewriteEffect(s, tx);
    case _ => SettingsEffect(s, tx);
  }

  // --------------------------------------------------------- owner changes

  /** The token is minted to an address that signed, with the attester's consent. */
  predicate ByMint(s: State, tx: Tx, t: TokenId, a: Option<Address>, b: Option<Address>) {
    && tx.call.Mint? && t == s.nextTokenId
    && a == None && b == Some(tx.call.to)
    && tx.Signed(tx.call.to) && tx.Attested(s.attester)
  }

  /** The owner and the new address both sign. */
  predicate ByRotation(s: State, tx: Tx, t: TokenId, a: Option<Address>, b: Option<Address>) {
    && a.Some? && b.Some?
    && tx.call == RotateKey(t, b.value)
    && tx.Signed(a.value) && tx.Signed(b.value)
  }

  /** The admin alone releases the address, or moves the token. */
  predicate ByAdmin(s: State, tx: Tx, t: TokenId, a: Option<Address>, b: Option<Address>) {
    && tx.Signed(s.admin)
    && (|| (tx.call == Revoke(t) && a.Some? && b == None)
        || (b.Some? && tx.call == Recover(t, b.value)))
  }

  /** A pending request of the current attester is carried out within its window. */
  predicate ByRecovery(s: State, tx: Tx, t: TokenId, a: Option<Address>, b: Option<Address>) {
    && tx.call == FinalizeRecovery(t)
    && a.Some? && t in s.recovery
    && b == Some(s.recovery[t].newAddress)
    && s.recovery[t].attester == s.attester
    && (s.recovery[t].executableAt <= tx.timestamp || tx.Signed(s.admin))
    && tx.timestamp < s.recovery[t].executableAt + RECOVERY_DELAY
  }

  /** Every change of the owner of a token is one of the four kinds. */
  lemma OwnerChangeKinds(s: State, tx: Tx, t: TokenId)
    requires Inv(s) && Step(s, tx).Ok?
    requires Get(s.owner, t) != Get(Step(s, tx).value.state.owner, t)
    ensures var a, b := Get(s.owner, t), Get(Step(s, tx).value.state.owner, t);
            || ByMint(s, tx, t, a, b)
            || ByRotation(s, tx, t, a, b)
            || ByAdmin(s, tx, t, a, b)
            || ByRecovery(s, tx, t, a, b)
  {
    hide Step, Inv, Rewritten, Bind, Bindable;
    match tx.call
    case Mint(_, _, _, _, _) =>
      NextIsFresh(s);
      MintEffect(s, tx);
    case SetExternalAccounts(_, _) => SetExternalAccountsEffect(s, tx);
    case Revoke(_) => RevokeEffect(s, tx);
    case RotateKey(_, _) => RotateKeyEffect(s, tx);
    case FinalizeRecovery(_) => FinalizeRecoveryEffect(s, tx);
    case Recover(_, _) => RecoverEffect(s, tx);
    case ProposeRecovery(_, _) => ProposeRecoveryEffect(s, tx);
    case CancelRecovery(_, _) => CancelRecoveryEffect(s, tx);
    case SetRole(_, _) => RewriteEffect(s, tx);
    case SetBio(_, _, _) => RewriteEffect(s, tx);
    case SetProjects(_, _, _) => RewriteEffect(s, tx);
    case _ => SettingsEffect(s, tx);
  }

  lemma HoldsWhatItOwns(s: State, t: TokenId, a: Address)
    requires Inv(s)
    ensures Get(s.owner, t) == Some(a) <==> Get(s.tokenOf, a) == Some(t)
  {
  }

  /** The token an address holds changes only because the owner of a token does. */
  lemma HoldingChangesWithOwner(s: State, tx: Tx, a: Address)
    requires Inv(s) && Step(s, tx).Ok?
    requires Get(s.tokenOf, a) != Get(Step(s, tx).value.state.tokenOf, a)
    ensures exists t: TokenId ::
              && Get(s.owner, t) != Get(Step(s, tx).value.state.owner, t)
              && (Get(s.owner, t) == Some(a) || Get(Step(s, tx).value.state.owner, t) == Some(a))
  {
    hide Step, Inv;
    var s' := Step(s, tx).value.state;
    StepKeepsInv(s, tx);
    var t := if a in s.tokenOf then s.tokenOf[a] else s'.tokenOf[a];
    HoldsWhatItOwns(s, t, a);
    HoldsWhatItOwns(s', t, a);
    assert Get(s.owner, t) != Get(s'.owner, t);
  }

  // --------------------------------------------------- external accounts

  /** Accounts whose providers differ can be bound exactly when none of them is taken. */
  lemma BindableIffFree(bound: map<AccountKey, TokenId>, e: ExternalAccounts)
    requires ValidAccounts(e)
    ensures Bindable(bound, e) <==> forall k :: k in KeysOf(e) ==> k !in bound
  {
  }

  /** In a matching map, freeing the accounts of `t` removes exactly what maps to `t`. */
  lemma FreedIsRest(s: State, t: TokenId)
    requires AccountsMatch(s.account, s.member)
    ensures forall k :: Get(Freed(s, t), k) == if Get(s.account, k) == Some(t) then None else Get(s.account, k)
  {
  }

  /** A token other than `t`, revoked or not, has an account with provider and id of one of these. */
  ghost predicate TakenElsewhere(s: State, t: TokenId, e: ExternalAccounts) {
    exists u, a, b ::
      && a in e.accounts && u in s.member && u != t && b in s.member[u].externalAccounts.accounts
      && a.provider == b.provider && a.id == b.id
  }

  /** The account map shows it. */
  lemma TakenByKey(s: State, t: TokenId, e: ExternalAccounts)
    requires Inv(s)
    ensures TakenElsewhere(s, t, e) <==> exists k :: k in KeysOf(e) && k in s.account && s.account[k] != t
  {
    hide Inv, KeysOf;
    KeysAreNamed(e);
    if TakenElsewhere(s, t, e) {
      var u, a, b :| && a in e.accounts && u in s.member && u != t && b in s.member[u].externalAccounts.accounts
                     && a.provider == b.provider && a.id == b.id;
      var k := AccountKey(a.provider, a.id);
      AccountEntryIff(s, k, u);
      assert Names(e, k);
    }
    if k :| k in KeysOf(e) && k in s.account && s.account[k] != t {
      AccountEntryIff(s, k, s.account[k]);
      assert Names(e, k);
    }
  }

  /** `after` is `before` minus what mapped to `t`, plus the accounts of `e` mapped to `t`. */
  ghost predicate Rebound(before: map<AccountKey, TokenId>, after: map<AccountKey, TokenId>, t: TokenId,
                          e: ExternalAccounts)
  {
    forall k :: Get(after, k) ==
                if Names(e, k) then Some(t)
                else if Get(before, k) == Some(t) then None
                else Get(before, k)
  }

  lemma RecordedRebound(s: State, t: TokenId, m: Member)
    requires AccountsMatch(s.account, s.member)
    ensures Rebound(s.account, Recorded(s, t, m).account, t, m.externalAccounts)
  {
    hide Names, KeysOf;
    KeysAreNamed(m.externalAccounts);
    FreedIsRest(s, t);
  }

  /** The only way `set_external_accounts` fails once signed and validated. */
  lemma SignedChangeOutcome(s: State, tx: Tx)
    requires tx.call.SetExternalAccounts?
    requires tx.call.token in s.owner && tx.call.token in s.member
    requires tx.Signed(s.owner[tx.call.token]) && tx.Signed(s.attester)
    requires CheckAccounts(tx.call.accounts.accounts).Pass?
    ensures Step(s, tx).Ok? <==> Bindable(Freed(s, tx.call.token), tx.call.accounts)
    ensures Step(s, tx).Err? ==> Step(s, tx) == Err(AccountAlreadyBound)
  {
  }

  lemma OwnedHasRecord(s: State, t: TokenId)
    requires Inv(s) && t in s.owner
    ensures t in s.member && s.member[t].status == Active
  {
  }

  lemma ValidPasses(e: ExternalAccounts)
    requires ValidAccounts(e)
    ensures CheckAccounts(e.accounts).Pass?
  {
    CheckAccountsMeaning(e.accounts);
  }

  /**
   * With the signatures and a validated set, replacing the accounts of `t`
   * fails exactly when one of them is bound to another token. Otherwise the
   * account map loses what `t` had, gains what it now has, and nothing else.
   */
  lemma SetExternalAccountsExact(s: State, tx: Tx)
    requires Inv(s) && tx.call.SetExternalAccounts?
    requires tx.call.token in s.owner
    requires tx.Signed(s.owner[tx.call.token]) && tx.Signed(s.attester)
    requires ValidAccounts(tx.call.accounts)
    ensures Step(s, tx) == Err(AccountAlreadyBound) <==> TakenElsewhere(s, tx.call.token, tx.call.accounts)
    ensures Step(s, tx).Err? ==> Step(s, tx) == Err(AccountAlreadyBound)
    ensures Step(s, tx).Ok? ==>
              Rebound(s.account, Step(s, tx).value.state.account, tx.call.token, tx.call.accounts)
  {
    hide Step, Inv, CheckAccounts, ValidAccounts, Bindable, KeysOf, AccountsMatch, Recorded, Freed, TakenElsewhere;
    var t, e := tx.call.token, tx.call.accounts;
    InvClauses(s);
    assert t in s.member by {
      OwnedHasRecord(s, t);
    }
    ValidPasses(e);
    SignedChangeOutcome(s, tx);
    FreedIsRest(s, t);
    TakenByKey(s, t, e);
    BindableIffFree(Freed(s, t), e);
    if Step(s, tx).Ok? {
      SetExternalAccountsEffect(s, tx);
      RecordedRebound(s, t, s.member[t].(externalAccounts := e));
    } else {
      var k :| k in KeysOf(e) && k in Freed(s, t);
      assert Get(Freed(s, t), k).Some?;
    }
    if TakenElsewhere(s, t, e) {
      var k :| k in KeysOf(e) && k in s.account && s.account[k] != t;
      assert Get(Freed(s, t), k) == Get(s.account, k);
    }
  }

  /** A pending token is active and has its record. */
  lemma PendingIsActive(s: State, t: TokenId)
    requires Inv(s) && t in s.recovery
    ensures t in s.owner && t in s.member
  {
  }

  // ------------------------------------------------- reinstate and revoke

  lemma RecoverSucceeds(s: State, tx: Tx)
    requires tx.call.Recover? && tx.Signed(s.admin)
    requires tx.call.token in s.member && tx.call.newAddress !in s.tokenOf
    ensures Step(s, tx).Ok?
  {
  }

  lemma RevokeSucceeds(s: State, tx: Tx)
    requires tx.call.Revoke? && tx.Signed(s.admin)
    requires tx.call.token in s.owner && tx.call.token in s.member
    ensures Step(s, tx).Ok?
  {
  }

  lemma RevokedHasNoLinks(s: State, t: TokenId)
    requires Inv(s) && t in RevokedTokens(s)
    ensures t in s.member && s.member[t].status == Revoked
    ensures t !in s.owner && t !in s.recovery
  {
  }

  /**
   * Reinstating a revoked token to an address that holds nothing succeeds,
   * and revoking it again gives back the very same storage.
   */
  lemma RevokeUndoesReinstate(s: State, reinstate: Tx, revoke: Tx)
    requires Inv(s)
    requires reinstate.call.Recover? && reinstate.Signed(s.admin)
    requires revoke.call == Revoke(reinstate.call.token) && revoke.Signed(s.admin)
    requires reinstate.call.token in RevokedTokens(s)
    requires reinstate.call.newAddress !in s.tokenOf
    ensures Step(s, reinstate).Ok?
    ensures Step(Step(s, reinstate).value.state, revoke).Ok?
    ensures Step(Step(s, reinstate).value.state, revoke).value.state == s
  {
    hide Step, Inv, RevokedTokens;
    var t := reinstate.call.token;
    RevokedHasNoLinks(s, t);
    RecoverSucceeds(s, reinstate);
    RecoverEffect(s, reinstate);
    var s1 := Step(s, reinstate).value.state;
    RevokeSucceeds(s1, revoke);
    RevokeEffect(s1, revoke);
    assert s1.owner - {t} == s.owner;
    assert s1.tokenOf - {reinstate.call.newAddress} == s.tokenOf;
    assert s1.member[t := s.member[t]] == s.member;
    assert s1.recovery - {t} == s.recovery;
  }

  /** Revoking a token and reinstating its owner drops a pending recovery and nothing else. */
  lemma ReinstateUndoesRevoke(s: State, revoke: Tx, reinstate: Tx)
    requires Inv(s)
    requires revoke.call.Revoke? && revoke.Signed(s.admin) && revoke.call.token in s.owner
    requires reinstate.call == Recover(revoke.call.token, s.owner[revoke.call.token]) && reinstate.Signed(s.admin)
    ensures Step(s, revoke).Ok?
    ensures Step(Step(s, revoke).value.state, reinstate).Ok?
    ensures Step(Step(s, revoke).value.state, reinstate).value.state ==
            s.(recovery := s.recovery - {revoke.call.token})
  {
    hide Step, Inv;
    var t := revoke.call.token;
    var a := s.owner[t];
    OwnedHasRecord(s, t);
    HoldsWhatItOwns(s, t, a);
    RevokeSucceeds(s, revoke);
    RevokeEffect(s, revoke);
    var s1 := Step(s, revoke).value.state;
    RecoverSucceeds(s1, reinstate);
    RecoverEffect(s1, reinstate);
    assert s1.owner[t := a] == s.owner;
    assert s1.tokenOf[a := t] == s.tokenOf;
    assert s1.member[t := s.member[t]] == s.member;
    assert s1.recovery - {t} == s.recovery - {t};
  }

  /**
   * The three calls that clear the accounts of a revoked member: reinstate,
   * replace the accounts, revoke. Only the accounts of the token and what they
   * reserve differ; the accounts that were dropped are free.
   */
  lemma ReplaceAccountsOfRevoked(s: State, reinstate: Tx, replace: Tx, revoke: Tx)
    requires Inv(s)
    requires reinstate.call.Recover? && reinstate.Signed(s.admin)
    requires revoke.call == Revoke(reinstate.call.token) && revoke.Signed(s.admin)
    requires replace.call.SetExternalAccounts? && replace.call.token == reinstate.call.token
    requires replace.Signed(reinstate.call.newAddress) && replace.Signed(s.attester)
    requires ValidAccounts(replace.call.accounts)
    requires reinstate.call.token in RevokedTokens(s)
    requires reinstate.call.newAddress !in s.tokenOf
    requires !TakenElsewhere(s, reinstate.call.token, replace.call.accounts)
    ensures Step(s, reinstate).Ok?
    ensures var s1 := Step(s, reinstate).value.state;
            && Step(s1, replace).Ok?
            && var s2 := Step(s1, replace).value.state;
            && Step(s2, revoke).Ok?
            && var s3, t, e := Step(s2, revoke).value.state, reinstate.call.token, replace.call.accounts;
            && t in s.member
            && s3 == s.(member := s.member[t := s.member[t].(externalAccounts := e)], account := s3.account)
            && Rebound(s.account, s3.account, t, e)
  {
    hide Step, Inv, RevokedTokens, ValidAccounts, Bind, KeysOf, Rebound, Freed;
    var t, e := reinstate.call.token, replace.call.accounts;
    RevokedHasNoLinks(s, t);
    RecoverSucceeds(s, reinstate);
    RecoverEffect(s, reinstate);
    var s1 := Step(s, reinstate).value.state;
    StepKeepsInv(s, reinstate);
    SetExternalAccountsExact(s1, replace);
    SetExternalAccountsEffect(s1, replace);
    var s2 := Step(s1, replace).value.state;
    RevokeSucceeds(s2, revoke);
    RevokeEffect(s2, revoke);
    assert s2.owner - {t} == s.owner;
    assert s2.tokenOf - {reinstate.call.newAddress} == s.tokenOf;
    assert s2.recovery - {t} == s.recovery;
    assert s2.member[t := s.member[t].(externalAccounts := e)] == s.member[t := s.member[t].(externalAccounts := e)];
  }
}
