/**
 * The storage invariants: what each clause says, that every entry point keeps
 * them on every path, and what follows from them about single calls.
 */
module Invariants {
  import opened Types
  import opened Model
  import opened Effects

  // Each clause is a predicate of just the maps it relates, so that a call
  // that leaves those maps alone keeps the clause without further ado.

  /** The two maps are each other's inverse: following one and then the other leads back. */
  ghost predicate OwnersInverse(owner: map<TokenId, Address>, tokenOf: map<Address, TokenId>) {
    && (forall t :: t in owner ==> owner[t] in tokenOf && tokenOf[owner[t]] == t)
    && (forall a :: a in tokenOf ==> tokenOf[a] in owner && owner[tokenOf[a]] == a)
  }

  /** The ids with an owner are those of the records that are not revoked. */
  ghost predicate OwnedIffActive(owner: map<TokenId, Address>, member: map<TokenId, Member>) {
    forall t :: t in owner <==> t in member && member[t].status == Active
  }

  /** The account map lists the accounts of all records, each under the one token that has it. */
  ghost predicate AccountsMatch(account: map<AccountKey, TokenId>, member: map<TokenId, Member>) {
    && (forall k :: k in account ==> account[k] in member && k in KeysOf(member[account[k]].externalAccounts))
    && (forall t, k :: t in member && k in KeysOf(member[t].externalAccounts) ==> k in account && account[k] == t)
  }

  /** Whatever awaits a recovery has an owner. */
  ghost predicate RecoveriesActive(recovery: map<TokenId, RecoveryRequest>, owner: map<TokenId, Address>) {
    forall t :: t in recovery ==> t in owner
  }

  /** Records exist for exactly the ids minted so far. */
  ghost predicate MembersBelowNext(member: map<TokenId, Member>, nextTokenId: U32) {
    forall t: TokenId :: t in member <==> t < nextTokenId
  }

  /** A record within bounds, with at most one account a provider. */
  ghost predicate RecordValid(m: Member) {
    ValidAccounts(m.externalAccounts) && |m.bio| <= MAX_BIO_LEN && ValidProjects(m.projects)
  }

  ghost predicate RecordsValid(member: map<TokenId, Member>) {
    forall t :: t in member ==> RecordValid(member[t])
  }

  ghost predicate Inv(s: State) {
    && OwnersInverse(s.owner, s.tokenOf)
    && OwnedIffActive(s.owner, s.member)
    && AccountsMatch(s.account, s.member)
    && RecoveriesActive(s.recovery, s.owner)
    && MembersBelowNext(s.member, s.nextTokenId)
    && RecordsValid(s.member)
  }

  lemma ConstructedInv(admin: Address, attester: Address, nqgContract: Address)
    ensures Inv(Constructed(admin, attester, nqgContract))
  {
  }

  // ------------------------------------------- what each kind of change keeps

  lemma KeysOfHas(e: ExternalAccounts, i: nat)
    requires i < |e.accounts|
    ensures KeyOf(e.accounts[i]) in KeysOf(e)
  {
  }

  /** One of the accounts has the provider and the id of the key. */
  ghost predicate Names(e: ExternalAccounts, k: AccountKey) {
    exists a :: a in e.accounts && a.provider == k.provider && a.id == k.id
  }

  /** What a set of accounts reserves, by provider and id; handles play no part. */
  lemma KeysAreNamed(e: ExternalAccounts)
    ensures forall k :: k in KeysOf(e) <==> Names(e, k)
  {
    forall k | Names(e, k)
      ensures k in KeysOf(e)
    {
      var a :| a in e.accounts && a.provider == k.provider && a.id == k.id;
      assert KeyOf(a) == k;
    }
  }

  /** An entry of the account map is an account of the record it points to, by provider and id, and conversely. */
  lemma AccountEntryIff(s: State, k: AccountKey, t: TokenId)
    requires Inv(s)
    ensures (k in s.account && s.account[k] == t) <==>
            t in s.member && exists a :: a in s.member[t].externalAccounts.accounts
                                         && a.provider == k.provider && a.id == k.id
  {
    hide KeysOf;
    if t in s.member {
      KeysAreNamed(s.member[t].externalAccounts);
    }
    if k in s.account && s.account[k] == t {
      assert Names(s.member[t].externalAccounts, k);
    }
    if t in s.member && Names(s.member[t].externalAccounts, k) {
      assert k in KeysOf(s.member[t].externalAccounts);
    }
  }

  /** No two records, revoked or not, have an account of the same provider and id, whatever its handles. */
  lemma OneMemberPerAccount(s: State, t: TokenId, u: TokenId, a: SocialAccount, b: SocialAccount)
    requires Inv(s) && t in s.member && u in s.member
    requires a in s.member[t].externalAccounts.accounts && b in s.member[u].externalAccounts.accounts
    requires a.provider == b.provider && a.id == b.id
    ensures t == u && a == b
  {
    hide KeysOf;
    AccountEntryIff(s, AccountKey(a.provider, a.id), t);
    AccountEntryIff(s, AccountKey(a.provider, a.id), u);
    assert RecordValid(s.member[t]);
  }

  /** Accounts that can all be bound are free, every one of them. */
  lemma BindableFree(bound: map<AccountKey, TokenId>, e: ExternalAccounts)
    requires Bindable(bound, e)
    ensures forall k :: k in KeysOf(e) ==> k !in bound
  {
  }

  /** Replacing what `t` reserves by free accounts keeps the account map exact. */
  lemma RecordedMatch(s: State, t: TokenId, m: Member)
    requires AccountsMatch(s.account, s.member)
    requires Bindable(Freed(s, t), m.externalAccounts)
    ensures AccountsMatch(Recorded(s, t, m).account, Recorded(s, t, m).member)
  {
    hide KeysOf;
    var e, freed := m.externalAccounts, Freed(s, t);
    var account', member' := Recorded(s, t, m).account, Recorded(s, t, m).member;
    BindableFree(freed, e);
    forall u, k | u in member' && k in KeysOf(member'[u].externalAccounts)
      ensures k in account' && account'[k] == u
    {
      if u != t {
        assert k in s.account && s.account[k] == u;
        assert k in freed;
      }
    }
    forall k | k in account'
      ensures account'[k] in member' && k in KeysOf(member'[account'[k]].externalAccounts)
    {
      if k !in KeysOf(e) {
        assert k in freed && s.account[k] != t;
      }
    }
  }

  lemma SameAccountsMatch(account: map<AccountKey, TokenId>, member: map<TokenId, Member>, t: TokenId, m: Member)
    requires AccountsMatch(account, member)
    requires t in member && m.externalAccounts == member[t].externalAccounts
    ensures AccountsMatch(account, member[t := m])
  {
  }

  /** Giving `t` to an address that holds nothing, whether or not it had an owner. */
  lemma MovedInverse(s: State, t: TokenId, to: Address)
    requires OwnersInverse(s.owner, s.tokenOf)
    requires to !in s.tokenOf
    ensures OwnersInverse(Moved(s, t, to).owner, Moved(s, t, to).tokenOf)
  {
  }

  lemma ReleasedInverse(owner: map<TokenId, Address>, tokenOf: map<Address, TokenId>, t: TokenId)
    requires OwnersInverse(owner, tokenOf)
    requires t in owner
    ensures OwnersInverse(owner - {t}, tokenOf - {owner[t]})
  {
  }

  lemma MintKeeps(s: State, to: Address, m: Member)
    requires Inv(s)
    requires s.nextTokenId < U32_MAX && to !in s.tokenOf
    requires m.status == Active && RecordValid(m)
    requires Bindable(Freed(s, s.nextTokenId), m.externalAccounts)
    ensures Inv(Recorded(Moved(s, s.nextTokenId, to), s.nextTokenId, m).(nextTokenId := s.nextTokenId + 1))
  {
    hide OwnersInverse, AccountsMatch, RecordValid, Bindable, Bind;
    MovedInverse(s, s.nextTokenId, to);
    RecordedMatch(Moved(s, s.nextTokenId, to), s.nextTokenId, m);
  }

  lemma RecordKeeps(s: State, t: TokenId, m: Member)
    requires Inv(s)
    requires t in s.member && m.status == s.member[t].status && RecordValid(m)
    requires Bindable(Freed(s, t), m.externalAccounts)
    ensures Inv(Recorded(s, t, m))
  {
    hide OwnersInverse, AccountsMatch, RecordValid, Bindable, Bind;
    RecordedMatch(s, t, m);
  }

  lemma RewriteKeeps(s: State, t: TokenId, m: Member)
    requires Inv(s)
    requires t in s.member && m.status == s.member[t].status && RecordValid(m)
    requires m.externalAccounts == s.member[t].externalAccounts
    ensures Inv(s.(member := s.member[t := m]))
  {
    hide OwnersInverse, AccountsMatch, RecordValid;
    SameAccountsMatch(s.account, s.member, t, m);
  }

  lemma MoveKeeps(s: State, t: TokenId, to: Address)
    requires Inv(s) && t in s.owner && to !in s.tokenOf
    ensures Inv(Moved(s, t, to))
  {
  }

  lemma RecoverKeeps(s: State, t: TokenId, to: Address)
    requires Inv(s) && t in s.member && to !in s.tokenOf
    ensures Inv(Moved(s, t, to).(member := s.member[t := s.member[t].(status := Active)]))
  {
    hide OwnersInverse, AccountsMatch, ValidAccounts, ValidProjects;
    MovedInverse(s, t, to);
    SameAccountsMatch(s.account, s.member, t, s.member[t].(status := Active));
    assert RecordValid(s.member[t]);
  }

  lemma RevokeKeeps(s: State, t: TokenId)
    requires Inv(s) && t in s.owner && t in s.member
    ensures Inv(s.(owner := s.owner - {t},
                   tokenOf := s.tokenOf - {s.owner[t]},
                   member := s.member[t := s.member[t].(status := Revoked)],
                   recovery := s.recovery - {t}))
  {
    hide OwnersInverse, AccountsMatch, ValidAccounts, ValidProjects;
    ReleasedInverse(s.owner, s.tokenOf, t);
    SameAccountsMatch(s.account, s.member, t, s.member[t].(status := Revoked));
    assert RecordValid(s.member[t]);
  }

  lemma RecoveryKeeps(s: State, recovery: map<TokenId, RecoveryRequest>)
    requires Inv(s) && RecoveriesActive(recovery, s.owner)
    ensures Inv(s.(recovery := recovery))
  {
  }

  lemma SettingsKeep(s: State, admin: Address, attester: Address, nqgContract: Address)
    requires Inv(s)
    ensures Inv(s.(admin := admin, attester := attester, nqgContract := nqgContract))
  {
  }

  /** The next id to mint is unused. */
  lemma NextIsFresh(s: State)
    requires Inv(s)
    ensures s.nextTokenId !in s.member && s.nextTokenId !in s.owner && s.nextTokenId !in s.recovery
  {
  }

  /** Whoever owns a token has a valid record, and a record is valid either way. */
  lemma StoredRecordValid(s: State, t: TokenId)
    requires Inv(s) && t in s.member
    ensures RecordValid(s.member[t])
    ensures t in s.owner <==> s.member[t].status == Active
  {
  }

  lemma CheckedRecordValid(m: Member)
    requires CheckAccounts(m.externalAccounts.accounts).Pass?
    requires |m.bio| <= MAX_BIO_LEN && ValidProjects(m.projects)
    ensures RecordValid(m)
  {
    CheckAccountsMeaning(m.externalAccounts.accounts);
  }

  lemma RecordValidParts(m: Member)
    requires RecordValid(m)
    ensures |m.bio| <= MAX_BIO_LEN && ValidProjects(m.projects)
    ensures forall bio: Text :: |bio| <= MAX_BIO_LEN ==> RecordValid(m.(bio := bio))
    ensures forall projects :: ValidProjects(projects) ==> RecordValid(m.(projects := projects))
    ensures forall role :: RecordValid(m.(role := role))
  {
  }

  // ------------------------------------------------------ every entry point

  lemma MintStepKeeps(s: State, tx: Tx)
    requires Inv(s) && tx.call.Mint? && Step(s, tx).Ok?
    ensures Inv(Step(s, tx).value.state)
  {
    hide Step, Inv, Moved, Recorded, Freed, Bindable, Bind, CheckAccounts, ValidProjects, RecordValid;
    NextIsFresh(s);
    MintEffect(s, tx);
    CheckedRecordValid(NewMember(tx.call));
    MintKeeps(s, tx.call.to, NewMember(tx.call));
  }

  lemma SetExternalAccountsKeeps(s: State, tx: Tx)
    requires Inv(s) && tx.call.SetExternalAccounts? && Step(s, tx).Ok?
    ensures Inv(Step(s, tx).value.state)
  {
    hide *;
    SetExternalAccountsEffect(s, tx);
    var m := s.member[tx.call.token].(externalAccounts := tx.call.accounts);
    StoredRecordValid(s, tx.call.token);
    RecordValidParts(s.member[tx.call.token]);
    CheckedRecordValid(m);
    RecordKeeps(s, tx.call.token, m);
  }

  lemma RewriteStepKeeps(s: State, tx: Tx)
    requires Inv(s) && RewritesRecord(tx.call) && Step(s, tx).Ok?
    ensures Inv(Step(s, tx).value.state)
  {
    hide Step, Inv, RecordValid;
    RewriteEffect(s, tx);
    var t := tx.call.token;
    StoredRecordValid(s, t);
    RecordValidParts(s.member[t]);
    RewriteKeeps(s, t, Rewritten(s.member[t], tx.call));
  }

  lemma RecoveryStepsKeep(s: State, tx: Tx)
    requires Inv(s) && (tx.call.ProposeRecovery? || tx.call.CancelRecovery?) && Step(s, tx).Ok?
    ensures Inv(Step(s, tx).value.state)
  {
    hide Step, OwnersInverse, OwnedIffActive, AccountsMatch, MembersBelowNext, RecordsValid;
    if tx.call.ProposeRecovery? {
      ProposeRecoveryEffect(s, tx);
    } else {
      CancelRecoveryEffect(s, tx);
    }
    RecoveryKeeps(s, Step(s, tx).value.state.recovery);
  }

  lemma SettingsStepKeeps(s: State, tx: Tx)
    requires Inv(s) && LeavesMaps(tx.call) && Step(s, tx).Ok?
    ensures Inv(Step(s, tx).value.state)
  {
    hide *;
    SettingsEffect(s, tx);
    var s' := Step(s, tx).value.state;
    SettingsKeep(s, s'.admin, s'.attester, s'.nqgContract);
  }

  lemma MoveStepsKeep(s: State, tx: Tx)
    requires Inv(s) && Step(s, tx).Ok?
    requires tx.call.RotateKey? || tx.call.FinalizeRecovery? || tx.call.Recover? || tx.call.Revoke?
    ensures Inv(Step(s, tx).value.state)
  {
    hide *;
    var t := tx.call.token;
    match tx.call
    case RotateKey(_, to) => RotateKeyEffect(s, tx); MoveKeeps(s, t, to);
    case FinalizeRecovery(_) => FinalizeRecoveryEffect(s, tx); MoveKeeps(s, t, s.recovery[t].newAddress);
    case Recover(_, to) => RecoverEffect(s, tx); RecoverKeeps(s, t, to);
    case Revoke(_) => RevokeEffect(s, tx); RevokeKeeps(s, t);
  }

  /**
   * The four invariants, with the two they rest on, are inductive: every
   * successful call keeps them. A call that fails changes nothing.
   */
  lemma StepKeepsInv(s: State, tx: Tx)
    requires Inv(s) && Step(s, tx).Ok?
    ensures Inv(Step(s, tx).value.state)
  {
    hide Step, Inv;
    match tx.call
    case Mint(_, _, _, _, _) => MintStepKeeps(s, tx);
    case SetExternalAccounts(_, _) => SetExternalAccountsKeeps(s, tx);
    case SetRole(_, _) => RewriteStepKeeps(s, tx);
    case SetBio(_, _, _) => RewriteStepKeeps(s, tx);
    case SetProjects(_, _, _) => RewriteStepKeeps(s, tx);
    case ProposeRecovery(_, _) => RecoveryStepsKeep(s, tx);
    case CancelRecovery(_, _) => RecoveryStepsKeep(s, tx);
    case RotateKey(_, _) => MoveStepsKeep(s, tx);
    case FinalizeRecovery(_) => MoveStepsKeep(s, tx);
    case Recover(_, _) => MoveStepsKeep(s, tx);
    case Revoke(_) => MoveStepsKeep(s, tx);
    case _ => SettingsStepKeeps(s, tx);
  }
}
