/**
 * The successful outcome of each entry point in closed form: what must have
 * held before, and the storage after. Later proofs use these and leave the
 * step-by-step definitions alone.
 */
module Effects {
  import opened Types
  import opened Model

  /** The storage after `t` moved to `to`, its pending recovery gone. */
  function Moved(s: State, t: TokenId, to: Address): State {
    s.(owner := s.owner[t := to],
       tokenOf := (if t in s.owner then s.tokenOf - {s.owner[t]} else s.tokenOf)[to := t],
       recovery := s.recovery - {t})
  }

  /** What is left to the other tokens once `t` has given its accounts up. */
  function Freed(s: State, t: TokenId): map<AccountKey, TokenId> {
    if t in s.member then s.account - KeysOf(s.member[t].externalAccounts) else s.account
  }

  /** The storage after the record of `t` became `m`, accounts included. */
  function Recorded(s: State, t: TokenId, m: Member): State {
    s.(member := s.member[t := m], account := Bind(Freed(s, t), t, m.externalAccounts))
  }

  function NewMember(call: Call): Member
    requires call.Mint?
  {
    Member(Active, call.role, call.accounts, call.bio, call.projects)
  }

  lemma MintEffect(s: State, tx: Tx)
    requires tx.call.Mint? && Step(s, tx).Ok?
    requires s.nextTokenId !in s.member && s.nextTokenId !in s.owner && s.nextTokenId !in s.recovery
    ensures tx.Signed(tx.call.to) && tx.Attested(s.attester)
    ensures CheckAccounts(tx.call.accounts.accounts).Pass?
    ensures |tx.call.bio| <= MAX_BIO_LEN && ValidProjects(tx.call.projects)
    ensures s.nextTokenId < U32_MAX && tx.call.to !in s.tokenOf
    ensures Bindable(Freed(s, s.nextTokenId), tx.call.accounts)
    ensures Step(s, tx).value.state ==
            Recorded(Moved(s, s.nextTokenId, tx.call.to), s.nextTokenId, NewMember(tx.call))
              .(nextTokenId := s.nextTokenId + 1)
    ensures Step(s, tx).value.events ==
            [Minted(s.nextTokenId, tx.call.to, tx.call.role, tx.call.accounts, tx.call.bio, tx.call.projects)]
  {
    hide KeysOf, CheckAccounts;
    assert s.recovery - {s.nextTokenId} == s.recovery;
  }

  lemma MintSucceeds(s: State, tx: Tx)
    requires tx.call.Mint?
    requires tx.Signed(tx.call.to) && tx.Attested(s.attester)
    requires CheckAccounts(tx.call.accounts.accounts).Pass?
    requires |tx.call.bio| <= MAX_BIO_LEN && ValidProjects(tx.call.projects)
    requires s.nextTokenId < U32_MAX && tx.call.to !in s.tokenOf
    requires Bindable(s.account, tx.call.accounts)
    ensures Step(s, tx).Ok?
  {
  }

  lemma MintGuards(s: State, tx: Tx)
    requires tx.call.Mint? && Step(s, tx).Ok?
    ensures s.nextTokenId < U32_MAX && tx.call.to !in s.tokenOf && Bindable(s.account, tx.call.accounts)
  {
  }

  lemma RevokeEffect(s: State, tx: Tx)
    requires tx.call.Revoke? && Step(s, tx).Ok?
    ensures tx.Signed(s.admin)
    ensures tx.call.token in s.owner && tx.call.token in s.member
    ensures var t := tx.call.token;
            && Step(s, tx).value.state == s.(
               owner := s.owner - {t},
               tokenOf := s.tokenOf - {s.owner[t]},
               member := s.member[t := s.member[t].(status := Revoked)],
               recovery := s.recovery - {t})
            && Step(s, tx).value.events == Cancellation(s, t) + [RevokedEvent(t, s.owner[t])]
  {
  }

  /** Role, bio and projects: the record of an active token, rewritten in place. */
  function Rewritten(m: Member, call: Call): Member {
    match call
    case SetRole(_, role) => m.(role := role)
    case SetBio(_, _, bio) => m.(bio := bio)
    case SetProjects(_, _, projects) => m.(projects := projects)
    case _ => m
  }

  predicate RewritesRecord(call: Call) {
    call.SetRole? || call.SetBio? || call.SetProjects?
  }

  lemma RewriteEffect(s: State, tx: Tx)
    requires RewritesRecord(tx.call) && Step(s, tx).Ok?
    ensures tx.call.token in s.owner && tx.call.token in s.member
    ensures tx.call.SetRole? ==> tx.Signed(s.admin)
    ensures !tx.call.SetRole? ==>
              tx.Signed(tx.call.caller) && (tx.call.caller == s.owner[tx.call.token] || tx.call.caller == s.admin)
    ensures tx.call.SetBio? ==> |tx.call.bio| <= MAX_BIO_LEN
    ensures tx.call.SetProjects? ==> ValidProjects(tx.call.projects)
    ensures Step(s, tx).value.state ==
            s.(member := s.member[tx.call.token := Rewritten(s.member[tx.call.token], tx.call)])
    ensures Step(s, tx).value.events == [
              if tx.call.SetRole? then RoleSet(tx.call.token, tx.call.role)
              else if tx.call.SetBio? then BioSet(tx.call.token, tx.call.bio)
              else ProjectsSet(tx.call.token, tx.call.projects)]
  {
  }

  lemma SetExternalAccountsEffect(s: State, tx: Tx)
    requires tx.call.SetExternalAccounts? && Step(s, tx).Ok?
    ensures tx.call.token in s.owner && tx.call.token in s.member
    ensures tx.Signed(s.owner[tx.call.token]) && tx.Signed(s.attester)
    ensures CheckAccounts(tx.call.accounts.accounts).Pass?
    ensures Bindable(Freed(s, tx.call.token), tx.call.accounts)
    ensures Step(s, tx).value.state ==
            Recorded(s, tx.call.token, s.member[tx.call.token].(externalAccounts := tx.call.accounts))
    ensures Step(s, tx).value.events == [ExternalAccountsSet(tx.call.token, tx.call.accounts)]
  {
  }

  lemma RotateKeyEffect(s: State, tx: Tx)
    requires tx.call.RotateKey? && Step(s, tx).Ok?
    ensures tx.call.token in s.owner && tx.call.newAddress !in s.tokenOf
    ensures tx.Signed(s.owner[tx.call.token]) && tx.Signed(tx.call.newAddress)
    ensures Step(s, tx).value.state == Moved(s, tx.call.token, tx.call.newAddress)
    ensures Step(s, tx).value.events ==
            Cancellation(s, tx.call.token) + [KeyRotated(tx.call.token, s.owner[tx.call.token], tx.call.newAddress)]
  {
  }

  lemma ProposeRecoveryEffect(s: State, tx: Tx)
    requires tx.call.ProposeRecovery? && Step(s, tx).Ok?
    ensures tx.call.token in s.owner && tx.call.token !in s.recovery && tx.call.newAddress !in s.tokenOf
    ensures tx.Signed(s.attester) && tx.Signed(tx.call.newAddress)
    ensures tx.timestamp + RECOVERY_DELAY <= U64_MAX
    ensures Step(s, tx).value.state == s.(recovery := s.recovery[tx.call.token :=
            RecoveryRequest(s.attester, tx.call.newAddress, tx.timestamp + RECOVERY_DELAY)])
    ensures Step(s, tx).value.events ==
            [RecoveryProposed(tx.call.token, tx.call.newAddress, tx.timestamp + RECOVERY_DELAY)]
  {
  }

  lemma CancelRecoveryEffect(s: State, tx: Tx)
    requires tx.call.CancelRecovery? && Step(s, tx).Ok?
    ensures tx.call.token in s.owner && tx.call.token in s.recovery
    ensures tx.Signed(tx.call.caller) && (tx.call.caller == s.owner[tx.call.token] || tx.call.caller == s.admin)
    ensures Step(s, tx).value.state == s.(recovery := s.recovery - {tx.call.token})
    ensures Step(s, tx).value.events == [RecoveryCancelled(tx.call.token)]
  {
  }

  lemma FinalizeRecoveryEffect(s: State, tx: Tx)
    requires tx.call.FinalizeRecovery? && Step(s, tx).Ok?
    ensures tx.call.token in s.recovery && tx.call.token in s.owner
    ensures s.recovery[tx.call.token].newAddress !in s.tokenOf
    ensures s.recovery[tx.call.token].attester == s.attester
    ensures s.recovery[tx.call.token].executableAt <= tx.timestamp || tx.Signed(s.admin)
    ensures tx.timestamp < s.recovery[tx.call.token].executableAt + RECOVERY_DELAY
    ensures Step(s, tx).value.state == Moved(s, tx.call.token, s.recovery[tx.call.token].newAddress)
    ensures Step(s, tx).value.events ==
            [Recovered(tx.call.token, s.owner[tx.call.token], s.recovery[tx.call.token].newAddress)]
  {
  }

  lemma RecoverEffect(s: State, tx: Tx)
    requires tx.call.Recover? && Step(s, tx).Ok?
    ensures tx.Signed(s.admin)
    ensures tx.call.token in s.member && tx.call.newAddress !in s.tokenOf
    ensures var t, to := tx.call.token, tx.call.newAddress;
            && Step(s, tx).value.state == Moved(s, t, to).(member := s.member[t := s.member[t].(status := Active)])
            && Step(s, tx).value.events ==
               Cancellation(s, t) + [AdminRecovered(t, if t in s.owner then Some(s.owner[t]) else None, to)]
  {
  }

  /** Calls that leave the five maps alone: settings, and carrying entries forward. */
  predicate LeavesMaps(call: Call) {
    call.ExtendMember? || call.SetAdmin? || call.SetAttester? || call.SetNqgContract?
  }

  lemma SettingsEffect(s: State, tx: Tx)
    requires LeavesMaps(tx.call) && Step(s, tx).Ok?
    ensures tx.call.ExtendMember? ==> tx.call.token in s.member
    ensures !tx.call.ExtendMember? ==> tx.Signed(s.admin)
    ensures Step(s, tx).value.state == s.(
              admin := if tx.call.SetAdmin? then tx.call.admin else s.admin,
              attester := if tx.call.SetAttester? then tx.call.attester else s.attester,
              nqgContract := if tx.call.SetNqgContract? then tx.call.nqgContract else s.nqgContract)
    ensures Step(s, tx).value.events ==
            if tx.call.SetAdmin? then [AdminSet(s.admin, tx.call.admin)]
            else if tx.call.SetAttester? then [AttesterSet(s.attester, tx.call.attester)]
            else if tx.call.SetNqgContract? then [NqgContractSet(s.nqgContract, tx.call.nqgContract)]
            else []
  {
  }
}
