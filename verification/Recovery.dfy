/**
 * The timed recovery protocol over whole runs: where a finalized recovery
 * comes from, and what replacing the attester does to a pending one.
 */
module Recovery {
  import opened Types
  import opened Model
  import opened Effects
  import opened Invariants
  import opened Calls
  import opened Runs

  /** Calls that, when they succeed, end or start the recovery of `t`. */
  predicate Settles(call: Call, t: TokenId) {
    match call
    case CancelRecovery(_, u) => u == t
    case RotateKey(u, _) => u == t
    case Revoke(u) => u == t
    case Recover(u, _) => u == t
    case FinalizeRecovery(u) => u == t
    case ProposeRecovery(u, _) => u == t
    case _ => false
  }

  /** Recording a member leaves owners and recoveries alone. */
  lemma RecordedLinks()
    ensures forall s: State, t, m :: Recorded(s, t, m).owner == s.owner && Recorded(s, t, m).recovery == s.recovery
  {
  }

  /** A successful call that does not settle the recovery of `t` keeps it, and its owner. */
  lemma PendingKept(s: State, tx: Tx, t: TokenId)
    requires Inv(s) && Step(s, tx).Ok?
    requires !Settles(tx.call, t)
    ensures var s' := Step(s, tx).value.state;
            && Get(s'.recovery, t) == Get(s.recovery, t)
            && (t in s.recovery ==> Get(s'.owner, t) == Get(s.owner, t))
  {
    hide Step, Inv, Rewritten, Bind, Bindable, Recorded;
    if Subject(s, tx.call) != Some(t) {
      NonInterference(s, tx, t);
    } else {
      match tx.call
      case Mint(_, _, _, _, _) => NextIsFresh(s); MintEffect(s, tx); RecordedLinks();
      case SetExternalAccounts(_, _) => SetExternalAccountsEffect(s, tx); RecordedLinks();
      case SetRole(_, _) => RewriteEffect(s, tx);
      case SetBio(_, _, _) => RewriteEffect(s, tx);
      case SetProjects(_, _, _) => RewriteEffect(s, tx);
      case _ => SettingsEffect(s, tx);
    }
  }

  /** Calls that settle the recovery of `t` leave nothing pending, except a proposal. */
  lemma SettledGone(s: State, tx: Tx, t: TokenId)
    requires Step(s, tx).Ok?
    requires Settles(tx.call, t) && !tx.call.ProposeRecovery?
    ensures t !in Step(s, tx).value.state.recovery
  {
  }

  /**
   * Transaction `j` successfully proposed `request` for `t`: the new address
   * and the attester of that moment both signed, and the delay starts there.
   */
  ghost predicate Proposed(init: State, txs: seq<Tx>, j: nat, t: TokenId, request: RecoveryRequest) {
    && Succeeds(init, txs, j)
    && txs[j].call == ProposeRecovery(t, request.newAddress)
    && txs[j].Signed(request.newAddress)
    && txs[j].Signed(request.attester)
    && request.attester == StateAt(init, txs, j).attester
    && request.executableAt == txs[j].timestamp + RECOVERY_DELAY
  }

  /** Between the proposal at `j` and transaction `n` nothing settled the recovery of `t`. */
  ghost predicate Unsettled(init: State, txs: seq<Tx>, j: nat, n: nat, t: TokenId)
    requires j < n <= |txs|
  {
    forall k: nat :: j < k < n ==> !(Succeeds(init, txs, k) && Settles(txs[k].call, t))
  }

  /** Nothing settled it, nor moved the token. */
  ghost predicate Undisturbed(init: State, txs: seq<Tx>, j: nat, n: nat, t: TokenId)
    requires j < n <= |txs|
  {
    && Unsettled(init, txs, j, n, t)
    && (forall k: nat :: j <= k < n ==> Get(StateAt(init, txs, k).owner, t) == Get(StateAt(init, txs, n).owner, t))
  }

  lemma SettlesToken(call: Call, t: TokenId)
    ensures call.ProposeRecovery? ==> (Settles(call, t) <==> call.token == t)
  {
  }

  /** The proposal a pending request comes from. */
  lemma {:induction false} PendingOrigin(init: State, txs: seq<Tx>, n: nat, t: TokenId) returns (j: nat)
    requires IsGenesis(init) && n <= |txs|
    requires t in StateAt(init, txs, n).recovery
    ensures j < n
    ensures Proposed(init, txs, j, t, StateAt(init, txs, n).recovery[t])
    ensures Undisturbed(init, txs, j, n, t)
  {
    hide Step, Inv, Settles;
    if n == 0 {
      assert false;
    } else {
      var s, tx := StateAt(init, txs, n - 1), txs[n - 1];
      var s' := StateAt(init, txs, n);
      ReachableInv(init, txs, n - 1);
      if !Step(s, tx).Ok? {
        j := PendingOrigin(init, txs, n - 1, t);
      } else if !Settles(tx.call, t) {
        PendingKept(s, tx, t);
        j := PendingOrigin(init, txs, n - 1, t);
      } else {
        if !tx.call.ProposeRecovery? {
          SettledGone(s, tx, t);
        }
        SettlesToken(tx.call, t);
        ProposeRecoveryEffect(s, tx);
        j := n - 1;
      }
    }
  }

  /** A request that was proposed, and that nothing has settled since, is pending. */
  lemma {:induction false} ProposedStays(init: State, txs: seq<Tx>, j: nat, n: nat, t: TokenId,
                                         request: RecoveryRequest)
    requires IsGenesis(init) && j < n <= |txs|
    requires Proposed(init, txs, j, t, request) && Unsettled(init, txs, j, n, t)
    ensures Get(StateAt(init, txs, n).recovery, t) == Some(request)
  {
    hide Step, Inv, Settles;
    var s, tx := StateAt(init, txs, n - 1), txs[n - 1];
    ReachableInv(init, txs, n - 1);
    if n == j + 1 {
      ProposeRecoveryEffect(s, tx);
    } else {
      ProposedStays(init, txs, j, n - 1, t, request);
      if Step(s, tx).Ok? {
        assert Succeeds(init, txs, n - 1);
        PendingKept(s, tx, t);
      }
    }
  }

  /**
   * Exactly what is pending: in every run a request is pending for `t` if and
   * only if it was proposed and nothing has settled the recovery of `t` since.
   */
  lemma PendingIff(init: State, txs: seq<Tx>, n: nat, t: TokenId, request: RecoveryRequest)
    requires IsGenesis(init) && n <= |txs|
    ensures Get(StateAt(init, txs, n).recovery, t) == Some(request) <==>
            exists j: nat :: j < n && Proposed(init, txs, j, t, request) && Unsettled(init, txs, j, n, t)
  {
    hide IsGenesis, StateAt, Proposed, Unsettled;
    if Get(StateAt(init, txs, n).recovery, t) == Some(request) {
      var j := PendingOrigin(init, txs, n, t);
    }
    if j: nat :| j < n && Proposed(init, txs, j, t, request) && Unsettled(init, txs, j, n, t) {
      ProposedStays(init, txs, j, n, t, request);
    }
  }

  /** Transaction `i` carries out, for `t`, the request proposed at `j`. */
  ghost predicate CarriesOut(init: State, txs: seq<Tx>, j: nat, i: nat, t: TokenId)
    requires j < i < |txs|
  {
    var before, after := StateAt(init, txs, j), StateAt(init, txs, i);
    && t in after.recovery
    && var request := after.recovery[t];
    && Proposed(init, txs, j, t, request)
    // the attester is the same then and now
    && before.attester == request.attester == after.attester
    // not before the delay unless the admin signs, and not past the window
    && (txs[j].timestamp + RECOVERY_DELAY <= txs[i].timestamp || txs[i].Signed(after.admin))
    && txs[i].timestamp < txs[j].timestamp + 2 * RECOVERY_DELAY
    // nothing happened to the token in between: it was held by the same address
    && Undisturbed(init, txs, j, i, t)
    && t in before.owner && t in after.owner && before.owner[t] == after.owner[t]
    // and it is the proposed address that now holds it
    && Get(StateAt(init, txs, i + 1).owner, t) == Some(request.newAddress)
  }

  lemma UndisturbedFrom(init: State, txs: seq<Tx>, j: nat, n: nat, t: TokenId)
    requires j < n <= |txs| && Undisturbed(init, txs, j, n, t)
    ensures Get(StateAt(init, txs, j).owner, t) == Get(StateAt(init, txs, n).owner, t)
  {
  }

  /** Recovery safety: every finalized recovery in every run carries out a proposal made in that run. */
  lemma RecoverySafety(init: State, txs: seq<Tx>, i: nat, t: TokenId)
    requires IsGenesis(init) && Succeeds(init, txs, i)
    requires txs[i].call == FinalizeRecovery(t)
    ensures exists j: nat :: j < i && CarriesOut(init, txs, j, i, t)
  {
    hide Step, Inv, Undisturbed;
    FinalizeRecoveryEffect(StateAt(init, txs, i), txs[i]);
    var j := PendingOrigin(init, txs, i, t);
    UndisturbedFrom(init, txs, j, i, t);
    assert CarriesOut(init, txs, j, i, t);
  }

  /**
   * Every change of the owner of a token, in every run, is a mint, a rotation
   * both keys signed, an admin move, or a recovery that carries out a proposal
   * of that run.
   */
  lemma EveryOwnerChange(init: State, txs: seq<Tx>, i: nat, t: TokenId)
    requires IsGenesis(init) && i < |txs|
    requires Get(StateAt(init, txs, i).owner, t) != Get(StateAt(init, txs, i + 1).owner, t)
    ensures var s := StateAt(init, txs, i);
            var a, b := Get(s.owner, t), Get(StateAt(init, txs, i + 1).owner, t);
            && Succeeds(init, txs, i)
            && (|| ByMint(s, txs[i], t, a, b)
                || ByRotation(s, txs[i], t, a, b)
                || ByAdmin(s, txs[i], t, a, b)
                || (txs[i].call == FinalizeRecovery(t) && exists j: nat :: j < i && CarriesOut(init, txs, j, i, t)))
  {
    hide Step, Inv, CarriesOut;
    ReachableInv(init, txs, i);
    OwnerChangeKinds(StateAt(init, txs, i), txs[i], t);
    if txs[i].call == FinalizeRecovery(t) {
      RecoverySafety(init, txs, i, t);
    }
  }

  // ------------------------------------------------- replacing the attester

  /** Only `set_attester` changes the attester. */
  lemma AttesterChangesBySetting(s: State, tx: Tx)
    requires Inv(s) && Step(s, tx).Ok?
    ensures Step(s, tx).value.state.attester == if tx.call.SetAttester? then tx.call.attester else s.attester
  {
    hide Step, Inv, Rewritten, Bind, Bindable;
    match tx.call
    case Mint(_, _, _, _, _) => NextIsFresh(s); MintEffect(s, tx);
    case SetExternalAccounts(_, _) => SetExternalAccountsEffect(s, tx);
    case Revoke(_) => RevokeEffect(s, tx);
    case RotateKey(_, _) => RotateKeyEffect(s, tx);
    case FinalizeRecovery(_) => FinalizeRecoveryEffect(s, tx);
    case Recover(_, _) => RecoverEffect(s, tx);
    case ProposeRecovery(_, _) => ProposeRecoveryEffect(s, tx);
    case CancelRecovery(_, _) => CancelRecoveryEffect(s, tx);
    case SetRole(_, _) => RewriteEffect(s, tx);
    case SetBio(_, _, _) => RewriteEffect(s, tx);
    case SetProjects(_, _, _) => RewriteEffect(s, tx);
    case _ => SettingsEffect(s, tx);
  }

  /** From transaction `k` up to `n`, no call made `a` the attester. */
  ghost predicate NotSetAgain(init: State, txs: seq<Tx>, k: nat, n: nat, a: Address)
    requires k <= n <= |txs|
  {
    forall m: nat :: k <= m < n && Succeeds(init, txs, m) ==> txs[m].call != SetAttester(a)
  }

  lemma {:induction false} AttesterStaysReplaced(init: State, txs: seq<Tx>, k: nat, n: nat, a: Address)
    requires IsGenesis(init) && k <= n <= |txs|
    requires StateAt(init, txs, k).attester != a
    requires NotSetAgain(init, txs, k, n, a)
    ensures StateAt(init, txs, n).attester != a
  {
    hide Step, Inv;
    if k < n {
      AttesterStaysReplaced(init, txs, k, n - 1, a);
      ReachableInv(init, txs, n - 1);
      if Step(StateAt(init, txs, n - 1), txs[n - 1]).Ok? {
        assert Succeeds(init, txs, n - 1);
        AttesterChangesBySetting(StateAt(init, txs, n - 1), txs[n - 1]);
      }
    }
  }

  /**
   * Once attester `a` is replaced, and for as long as it is not set again, no
   * request proposed under `a` is finalized, whoever signs: a finalization that
   * succeeds carries out a proposal that another attester signed.
   */
  lemma ReplacedAttesterFinalizesNothing(init: State, txs: seq<Tx>, k: nat, i: nat, t: TokenId, a: Address)
    requires IsGenesis(init) && k <= i && Succeeds(init, txs, i)
    requires StateAt(init, txs, k).attester != a
    requires NotSetAgain(init, txs, k, i, a)
    requires txs[i].call == FinalizeRecovery(t)
    ensures exists j: nat :: j < i && CarriesOut(init, txs, j, i, t) && StateAt(init, txs, j).attester != a
  {
    hide Step;
    AttesterStaysReplaced(init, txs, k, i, a);
    RecoverySafety(init, txs, i, t);
    var j: nat :| j < i && CarriesOut(init, txs, j, i, t);
  }

  /** When a pending recovery can be finalized: the exact condition. */
  lemma FinalizeSucceedsIff(s: State, tx: Tx)
    requires Inv(s) && tx.call.FinalizeRecovery?
    ensures Step(s, tx).Ok? <==>
            && tx.call.token in s.recovery
            && var request := s.recovery[tx.call.token];
            && request.attester == s.attester
            && (request.executableAt <= tx.timestamp || tx.Signed(s.admin))
            && tx.timestamp < request.executableAt + RECOVERY_DELAY <= U64_MAX
            && request.newAddress !in s.tokenOf
  {
    hide Inv;
    if tx.call.token in s.recovery {
      PendingIsActive(s, tx.call.token);
    }
  }

  /** Past its delay, or with the admin, a request of another attester is refused with an error of its own. */
  lemma ChangedAttesterRefuses(s: State, tx: Tx)
    requires tx.call.FinalizeRecovery? && tx.call.token in s.recovery
    requires s.recovery[tx.call.token].executableAt <= tx.timestamp || tx.Signed(s.admin)
    requires s.recovery[tx.call.token].attester != s.attester
    ensures Step(s, tx) == Err(AttesterChanged)
  {
  }

  lemma CancelSucceeds(s: State, tx: Tx)
    requires tx.call.CancelRecovery? && tx.call.token in s.recovery && tx.call.token in s.owner
    requires tx.Signed(tx.call.caller)
    requires tx.call.caller == s.owner[tx.call.token] || tx.call.caller == s.admin
    ensures Step(s, tx).Ok?
  {
  }

  lemma ProposeSucceeds(s: State, tx: Tx)
    requires tx.call.ProposeRecovery? && tx.call.token in s.owner && tx.call.token !in s.recovery
    requires tx.Signed(s.attester) && tx.Signed(tx.call.newAddress) && tx.call.newAddress !in s.tokenOf
    requires tx.timestamp + RECOVERY_DELAY <= U64_MAX
    ensures Step(s, tx).Ok?
  {
  }

  /**
   * A pending request, stale or not, can be cancelled by the owner or by the
   * admin, and the attester can then propose any address that holds no token.
   */
  lemma StaleRequestReplaceable(s: State, cancel: Tx, propose: Tx)
    requires Inv(s)
    requires cancel.call.CancelRecovery? && cancel.call.token in s.recovery
    requires cancel.Signed(cancel.call.caller)
    requires Some(cancel.call.caller) == Get(s.owner, cancel.call.token) || cancel.call.caller == s.admin
    requires propose.call.ProposeRecovery? && propose.call.token == cancel.call.token
    requires propose.Signed(s.attester) && propose.Signed(propose.call.newAddress)
    requires propose.call.newAddress !in s.tokenOf
    requires propose.timestamp + RECOVERY_DELAY <= U64_MAX
    ensures Step(s, cancel).Ok?
    ensures var s1 := Step(s, cancel).value.state;
            && Step(s1, propose).Ok?
            && Step(s1, propose).value.state == s.(recovery := s.recovery[cancel.call.token :=
                 RecoveryRequest(s.attester, propose.call.newAddress, propose.timestamp + RECOVERY_DELAY)])
  {
    hide Step, Inv;
    var t := cancel.call.token;
    PendingIsActive(s, t);
    CancelSucceeds(s, cancel);
    CancelRecoveryEffect(s, cancel);
    var s1 := Step(s, cancel).value.state;
    ProposeSucceeds(s1, propose);
    ProposeRecoveryEffect(s1, propose);
    var request := RecoveryRequest(s.attester, propose.call.newAddress, propose.timestamp + RECOVERY_DELAY);
    assert (s.recovery - {t})[t := request] == s.recovery[t := request];
  }

  lemma SetAttesterSucceeds(s: State, tx: Tx)
    requires tx.call.SetAttester? && tx.Signed(s.admin)
    ensures Step(s, tx).Ok? && Step(s, tx).value.state == s.(attester := tx.call.attester)
  {
  }

  /**
   * Replacing the attester does not void a request for good, although the
   * documentation of the record says so: in every storage, setting another
   * attester and then the former one leaves the storage as it was, so a
   * request that could be finalized before can be finalized after.
   */
  lemma ReinstatedAttesterRevives(s: State, away: Tx, back: Tx, finalize: Tx)
    requires away.call.SetAttester? && away.Signed(s.admin)
    requires back.call == SetAttester(s.attester) && back.Signed(s.admin)
    requires finalize.call.FinalizeRecovery? && Step(s, finalize).Ok?
    requires away.call.attester != s.attester
    ensures Step(s, away).Ok?
    ensures var s1 := Step(s, away).value.state;
            && Step(s1, finalize).Err?
            && Step(s1, back).Ok?
            && Step(Step(s1, back).value.state, finalize) == Step(s, finalize)
  {
    hide Step;
    SetAttesterSucceeds(s, away);
    var s1 := s.(attester := away.call.attester);
    SetAttesterSucceeds(s1, back);
    FinalizeRecoveryEffect(s, finalize);
    if Step(s1, finalize).Ok? {
      FinalizeRecoveryEffect(s1, finalize);
    }
    assert s1.(attester := s.attester) == s;
  }
}
