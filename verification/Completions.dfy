/**
 * What contract and worker let a member do: from every state the two can
 * reach, a member with the claims it takes is minted, changes its accounts, or
 * moves its token to a new address, by the steps listed here.
 */
module Completions {
  import opened Types
  import opened Model
  import opened Effects
  import opened Invariants
  import opened Calls
  import opened Outcomes
  import opened Runs
  import opened Membership
  import opened System
  import A = Attest

  /** The system after more actions. */
  function After(sys: Sys, actions: seq<Action>): Sys
    decreases |actions|
  {
    if actions == [] then sys else After(Apply(sys, actions[0]), actions[1..])
  }

  lemma {:induction false} SysAtPrefix(init: State, actions: seq<Action>, more: seq<Action>, n: nat)
    requires n <= |actions|
    ensures SysAt(init, actions + more, n) == SysAt(init, actions, n)
  {
    hide Apply;
    if n > 0 {
      SysAtPrefix(init, actions, more, n - 1);
      assert (actions + more)[n - 1] == actions[n - 1];
    }
  }

  /** More actions of a run continue from where it got. */
  lemma {:induction false} AfterContinues(init: State, actions: seq<Action>, more: seq<Action>)
    ensures SysAt(init, actions + more, |actions + more|) == After(SysAt(init, actions, |actions|), more)
    decreases |more|
  {
    hide Apply;
    if more == [] {
      assert actions + more == actions;
    } else {
      var longer := actions + [more[0]];
      AfterContinues(init, longer, more[1..]);
      assert longer + more[1..] == actions + more;
      SysAtPrefix(init, actions, [more[0]], |actions|);
      assert longer[|actions|] == more[0];
    }
  }

  lemma {:induction false} AfterConcat(sys: Sys, a: seq<Action>, b: seq<Action>)
    ensures After(sys, a + b) == After(After(sys, a), b)
    decreases |a|
  {
    hide Apply;
    if a == [] {
      assert a + b == b;
    } else {
      AfterConcat(Apply(sys, a[0]), a[1..], b);
      assert (a + b)[1..] == a[1..] + b;
    }
  }

  /** Each claim is issued, in order. */
  function Issues(claims: seq<Claim>): seq<Action> {
    seq(|claims|, i requires 0 <= i < |claims| => Issue(claims[i]))
  }

  lemma {:induction false} AfterIssues(sys: Sys, claims: seq<Claim>)
    ensures After(sys, Issues(claims)) == sys.(issued := sys.issued + set c | c in claims)
    decreases |claims|
  {
    if claims == [] {
      assert sys.issued + (set c | c in claims) == sys.issued;
    } else {
      var first := Apply(sys, Issue(claims[0]));
      assert Issues(claims)[1..] == Issues(claims[1..]);
      AfterIssues(first, claims[1..]);
      assert claims == [claims[0]] + claims[1..];
      assert first.issued + (set c | c in claims[1..]) == sys.issued + set c | c in claims;
    }
  }

  /** The key of the attester is asked to sign an entry, on these claims and the latest state. */
  function Asks(key: Address, invocation: Invocation, claims: seq<Claim>, latestLedger: nat, latest: nat): Action {
    Sign(key, A.Request(Auth(key, invocation), latestLedger + 120, claims), latestLedger, Some(latest), Some(latest))
  }

  /** The claims are issued, the worker is asked, and the call is submitted with the signatures it needs. */
  function Steps(claims: seq<Claim>, ask: Action, tx: Tx): seq<Action> {
    Issues(claims) + [ask, Submit(tx)]
  }

  /** When the worker would sign, the steps put the transaction on the chain. */
  lemma StepsSubmit(sys: Sys, key: Address, invocation: Invocation, claims: seq<Claim>, latestLedger: nat, tx: Tx)
    requires var n, t := |sys.txs|, TokenOf(invocation);
             var owner := if t.Some? then Get(Chain(sys, n).owner, t.value) else None;
             var member := if t.Some? then Get(Chain(sys, n).member, t.value) else None;
             var request := A.Request(Auth(key, invocation), latestLedger + 120, claims);
             A.Attest(key, latestLedger, request, owner, member) == A.Signs
    requires key == Chain(sys, |sys.txs|).attester
    requires forall a :: a in tx.auths && a.signer == key && Attestable(a.invocation) ==> a.invocation == invocation
    ensures var after := After(sys, Steps(claims, Asks(key, invocation, claims, latestLedger, |sys.txs|), tx));
            && after.init == sys.init && after.txs == sys.txs + [tx]
            && after.issued == sys.issued + (set c | c in claims)
            && after.signed == sys.signed + {Auth(key, invocation)}
  {
    hide StateAt, A.Attest, Attestable;
    var ask := Asks(key, invocation, claims, latestLedger, |sys.txs|);
    AfterConcat(sys, Issues(claims), [ask, Submit(tx)]);
    AfterIssues(sys, claims);
    var issued := After(sys, Issues(claims));
    assert Chain(issued, |sys.txs|) == Chain(sys, |sys.txs|);
    var signed := Apply(issued, ask);
    assert signed == issued.(signed := sys.signed + {Auth(key, invocation)});
    assert Justified(Chain(signed, |sys.txs|), tx, signed.signed);
    assert [ask, Submit(tx)][1..] == [Submit(tx)] && [Submit(tx)][1..] == [];
    assert After(signed, [Submit(tx)]) == Apply(signed, Submit(tx));
  }

  /** The state of the chain once `tx` was added, if it succeeds. */
  lemma AddedTo(sys: Sys, after: Sys, tx: Tx)
    requires after.init == sys.init && after.txs == sys.txs + [tx]
    requires Step(Chain(sys, |sys.txs|), tx).Ok?
    ensures Chain(after, |after.txs|) == Step(Chain(sys, |sys.txs|), tx).value.state
  {
    hide Step, StateAt;
    StateAtSnoc(sys.init, sys.txs, tx);
  }

  /** Once `more` followed `actions`, the chain is in state `s`. */
  ghost predicate LeadsTo(init: State, actions: seq<Action>, more: seq<Action>, s: State) {
    var sys := SysAt(init, actions + more, |actions + more|);
    Chain(sys, |sys.txs|) == s
  }

  // ------------------------------------------------------------- onboarding

  function MintTx(to: Address, key: Address, role: Role, e: ExternalAccounts, bio: Text, projects: seq<Text>,
                  timestamp: U64): Tx
  {
    var call := Mint(to, role, e, bio, projects);
    Tx(call, timestamp, {Auth(to, Whole(call)), Auth(key, MintAttestation(to, role, e))})
  }

  lemma MintIsSigned(key: Address, to: Address, role: Role, e: ExternalAccounts, claims: seq<Claim>, latestLedger: nat)
    requires A.CheckMint(to, role, e, claims) == A.Signs
    ensures var request := A.Request(Auth(key, MintAttestation(to, role, e)), latestLedger + 120, claims);
            A.Attest(key, latestLedger, request, None, None) == A.Signs
  {
    hide A.CheckMint, A.Attest, A.MintSupported;
    A.MintVerdict(to, role, e, claims);
    A.AttestVerdict(key, latestLedger,
                    A.Request(Auth(key, MintAttestation(to, role, e)), latestLedger + 120, claims), None, None);
  }

  lemma MintedWith(s: State, tx: Tx, claims: seq<Claim>, emailFrom: Option<Provider>)
    requires Inv(s) && tx.call.Mint?
    requires A.VerifiedFor(tx.call.to, claims) && Normalized(claims) && FindProvider(claims, Discord).Some?
    requires tx.call.role == A.GrantedRole(claims)
    requires A.ToContract(AccountsFromClaims(claims, emailFrom)) == Some(tx.call.accounts)
    requires |tx.call.bio| <= 128 && ProjectsFit(tx.call.projects)
    requires tx.Signed(tx.call.to) && tx.Attested(s.attester)
    requires s.nextTokenId < 0xFFFF_FFFF && tx.call.to !in s.tokenOf
    requires forall c :: c in claims ==> AccountKey(c.provider, c.id) !in s.account
    ensures Step(s, tx).Ok?
    ensures Step(s, tx).value.state ==
            Recorded(Moved(s, s.nextTokenId, tx.call.to), s.nextTokenId, NewMember(tx.call))
              .(nextTokenId := s.nextTokenId + 1)
  {
    hide Step, Inv, A.VerifiedFor, Normalized, FindProvider, A.GrantedRole, A.ToContract, AccountsFromClaims,
      ProjectsFit, Moved, Recorded;
    ProjectsFitIff(tx.call.projects);
    OnboardingMints(s, tx, claims, emailFrom);
    NextIsFresh(s);
    MintEffect(s, tx);
  }

  /**
   * Onboarding from start to end: in every reachable state, an address that
   * holds no token, with verified claims of accounts no member has, Discord
   * among them, becomes the owner of the next id, and its record has the
   * accounts of the claims and the role of the Discord claim.
   */
  lemma OnboardingCompletes(init: State, actions: seq<Action>, to: Address, claims: seq<Claim>,
                            emailFrom: Option<Provider>, bio: Text, projects: seq<Text>, timestamp: U64,
                            latestLedger: nat) returns (more: seq<Action>, e: ExternalAccounts)
    requires IsGenesis(init)
    requires A.VerifiedFor(to, claims) && Normalized(claims) && FindProvider(claims, Discord).Some?
    requires |bio| <= 128 && ProjectsFit(projects)
    requires var sys := SysAt(init, actions, |actions|);
             var s := Chain(sys, |sys.txs|);
             && s.nextTokenId < 0xFFFF_FFFF && to !in s.tokenOf
             && forall c :: c in claims ==> AccountKey(c.provider, c.id) !in s.account
    ensures A.ToContract(AccountsFromClaims(claims, emailFrom)) == Some(e)
    ensures var sys := SysAt(init, actions, |actions|);
            var s := Chain(sys, |sys.txs|);
            var m := Member(Active, A.GrantedRole(claims), e, bio, projects);
            LeadsTo(init, actions, more,
                    Recorded(Moved(s, s.nextTokenId, to), s.nextTokenId, m).(nextTokenId := s.nextTokenId + 1))
  {
    hide IsGenesis, SysAt, After, Step, Inv, A.VerifiedFor, A.ToContract, A.Attest, StateAt, Steps, FindProvider,
      Normalized, AccountsFromClaims, A.GrantedRole, A.CheckMint, A.AsAccounts, DistinctProviders, ProjectsFit,
      Moved, Recorded;
    var sys := SysAt(init, actions, |actions|);
    var s, key, role := Chain(sys, |sys.txs|), Chain(sys, |sys.txs|).attester, A.GrantedRole(claims);
    A.OnboardingIsAccepted(to, claims, emailFrom);
    e := A.ToContract(AccountsFromClaims(claims, emailFrom)).value;
    var tx := MintTx(to, key, role, e, bio, projects, timestamp);
    var ask := Asks(key, MintAttestation(to, role, e), claims, latestLedger, |sys.txs|);
    more := Steps(claims, ask, tx);
    MintIsSigned(key, to, role, e, claims, latestLedger);
    StepsSubmit(sys, key, MintAttestation(to, role, e), claims, latestLedger, tx);
    StartsWith(init, actions, |actions|);
    ReachableInv(init, sys.txs, |sys.txs|);
    MintedWith(s, tx, claims, emailFrom);
    AfterContinues(init, actions, more);
    AddedTo(sys, After(sys, more), tx);
  }

  // ------------------------------------------------------ changing accounts

  function ChangeTx(t: TokenId, e: ExternalAccounts, owner: Address, key: Address, timestamp: U64): Tx {
    var call := SetExternalAccounts(t, e);
    Tx(call, timestamp, {Auth(owner, Whole(call)), Auth(key, Whole(call))})
  }

  /**
   * A change of accounts from start to end: in every reachable state the owner
   * of a token replaces its accounts by any that the claims and the record
   * support, that fit, and that no other member has.
   */
  lemma ChangeCompletes(init: State, actions: seq<Action>, t: TokenId, e: ExternalAccounts, claims: seq<Claim>,
                        timestamp: U64, latestLedger: nat) returns (more: seq<Action>)
    requires IsGenesis(init)
    requires var sys := SysAt(init, actions, |actions|);
             var s := Chain(sys, |sys.txs|);
             && A.ChangeSupported(e, claims, Get(s.owner, t), Get(s.member, t))
             && AccountsFit(e.accounts) && !TakenElsewhere(s, t, e)
    ensures var sys := SysAt(init, actions, |actions|);
            var s := Chain(sys, |sys.txs|);
            && t in s.member
            && LeadsTo(init, actions, more, Recorded(s, t, s.member[t].(externalAccounts := e)))
  {
    hide IsGenesis, SysAt, After, Step, Inv, A.Attest, StateAt, Steps, AccountsFit, TakenElsewhere, A.AllKnown,
      A.HashKnown, Recorded;
    var sys := SysAt(init, actions, |actions|);
    var s := Chain(sys, |sys.txs|);
    var owner, key := s.owner[t], s.attester;
    var tx := ChangeTx(t, e, owner, key, timestamp);
    var ask := Asks(key, Whole(tx.call), claims, latestLedger, |sys.txs|);
    more := Steps(claims, ask, tx);
    A.AttestVerdict(key, latestLedger, ask.request, Get(s.owner, t), Get(s.member, t));
    StepsSubmit(sys, key, Whole(tx.call), claims, latestLedger, tx);
    StartsWith(init, actions, |actions|);
    ReachableInv(init, sys.txs, |sys.txs|);
    Outcomes.SetExternalAccountsOutcome(s, tx);
    SetExternalAccountsEffect(s, tx);
    AfterContinues(init, actions, more);
    AddedTo(sys, After(sys, more), tx);
  }

  // --------------------------------------------------------------- recovery

  function ProposalTx(t: TokenId, to: Address, key: Address, timestamp: U64): Tx {
    var call := ProposeRecovery(t, to);
    Tx(call, timestamp, {Auth(key, Whole(call)), Auth(to, Whole(call))})
  }

  /** Seven days later, signed by no one. */
  function FinalizationTx(t: TokenId, timestamp: U64): Tx
    requires timestamp + 7 * 86_400 <= U64_MAX
  {
    Tx(FinalizeRecovery(t), timestamp + 7 * 86_400, {})
  }

  lemma ProposalThenFinalization(s: State, t: TokenId, to: Address, timestamp: U64)
    requires Inv(s) && t in s.owner && t !in s.recovery && to !in s.tokenOf
    requires timestamp + 14 * 86_400 <= U64_MAX
    ensures var propose, finalize := ProposalTx(t, to, s.attester, timestamp), FinalizationTx(t, timestamp);
            && Step(s, propose).Ok?
            && Step(Step(s, propose).value.state, finalize).Ok?
            && Step(Step(s, propose).value.state, finalize).value.state == Moved(s, t, to)
  {
    hide Step, Inv;
    var propose, finalize := ProposalTx(t, to, s.attester, timestamp), FinalizationTx(t, timestamp);
    ProposeRecoveryOutcome(s, propose);
    ProposeRecoveryEffect(s, propose);
    StepKeepsInv(s, propose);
    var s1 := Step(s, propose).value.state;
    FinalizeRecoveryOutcome(s1, finalize);
    FinalizeRecoveryEffect(s1, finalize);
    assert s1.recovery - {t} == s.recovery - {t};
  }

  lemma AfterOne(sys: Sys, action: Action)
    ensures After(sys, [action]) == Apply(sys, action)
  {
    assert [action][1..] == [];
  }

  /**
   * A recovery from start to end: in every reachable state, claims for a new
   * address that stand for the accounts of an active member, with no recovery
   * pending, move the token there after seven days, without its owner or the
   * admin doing anything.
   */
  lemma RecoveryCompletes(init: State, actions: seq<Action>, t: TokenId, to: Address, claims: seq<Claim>,
                          timestamp: U64, latestLedger: nat) returns (more: seq<Action>)
    requires IsGenesis(init) && timestamp + 14 * 86_400 <= U64_MAX
    requires var sys := SysAt(init, actions, |actions|);
             var s := Chain(sys, |sys.txs|);
             && t in s.owner && t !in s.recovery && to !in s.tokenOf
             && A.RecoverySupported(to, claims, Get(s.member, t))
    ensures var sys := SysAt(init, actions, |actions|);
            LeadsTo(init, actions, more, Moved(Chain(sys, |sys.txs|), t, to))
  {
    hide IsGenesis, SysAt, Step, Inv, A.Attest, StateAt, Steps, A.RecoverySupported, Moved;
    var sys := SysAt(init, actions, |actions|);
    var s, n := Chain(sys, |sys.txs|), |sys.txs|;
    var propose, finalize := ProposalTx(t, to, s.attester, timestamp), FinalizationTx(t, timestamp);
    var ask := Asks(s.attester, Whole(propose.call), claims, latestLedger, n);
    more := Steps(claims, ask, propose) + [Submit(finalize)];
    A.AttestVerdict(s.attester, latestLedger, ask.request, Get(s.owner, t), Get(s.member, t));
    StepsSubmit(sys, s.attester, Whole(propose.call), claims, latestLedger, propose);
    StartsWith(init, actions, |actions|);
    ReachableInv(init, sys.txs, n);
    ProposalThenFinalization(s, t, to, timestamp);
    var proposed := After(sys, Steps(claims, ask, propose));
    AddedTo(sys, proposed, propose);
    AfterConcat(sys, Steps(claims, ask, propose), [Submit(finalize)]);
    AfterOne(proposed, Submit(finalize));
    assert Justified(Chain(proposed, |proposed.txs|), finalize, proposed.signed);
    AddedTo(proposed, Apply(proposed, Submit(finalize)), finalize);
    AfterContinues(init, actions, more);
  }
}
