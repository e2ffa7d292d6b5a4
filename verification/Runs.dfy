/**
 * Runs: the storage and the published log after any sequence of transactions,
 * and the event-sourcing claim that folding the log gives the storage back.
 */
module Runs {
  import opened Types
  import opened Model
  import opened Effects
  import opened Invariants

  /** A failing call restores the storage it started from. */
  function Advance(s: State, tx: Tx): State {
    if Step(s, tx).Ok? then Step(s, tx).value.state else s
  }

  /** A failing call publishes nothing. */
  function Published(s: State, tx: Tx): seq<Event> {
    if Step(s, tx).Ok? then Step(s, tx).value.events else []
  }

  /** The storage before transaction `n`. */
  function StateAt(init: State, txs: seq<Tx>, n: nat): State
    requires n <= |txs|
  {
    if n == 0 then init else Advance(StateAt(init, txs, n - 1), txs[n - 1])
  }

  /** The events published before transaction `n`. */
  function LogAt(init: State, txs: seq<Tx>, n: nat): seq<Event>
    requires n <= |txs|
  {
    if n == 0 then [] else LogAt(init, txs, n - 1) + Published(StateAt(init, txs, n - 1), txs[n - 1])
  }

  /** Storage just constructed: no member, no link, no recovery. */
  predicate IsGenesis(s: State) {
    s == Constructed(s.admin, s.attester, s.nqgContract)
  }

  ghost predicate Succeeds(init: State, txs: seq<Tx>, k: nat) {
    k < |txs| && Step(StateAt(init, txs, k), txs[k]).Ok?
  }

  lemma AdvanceKeepsInv(s: State, tx: Tx)
    requires Inv(s)
    ensures Inv(Advance(s, tx))
  {
    hide Step, Inv;
    if Step(s, tx).Ok? {
      StepKeepsInv(s, tx);
    }
  }

  /** Every reachable storage satisfies the invariants. */
  lemma {:induction false} ReachableInv(init: State, txs: seq<Tx>, n: nat)
    requires IsGenesis(init) && n <= |txs|
    ensures Inv(StateAt(init, txs, n))
  {
    hide Advance;
    if n == 0 {
      ConstructedInv(init.admin, init.attester, init.nqgContract);
    } else {
      ReachableInv(init, txs, n - 1);
      AdvanceKeepsInv(StateAt(init, txs, n - 1), txs[n - 1]);
    }
  }

  /** Later transactions do not change what happened earlier. */
  lemma {:induction false} StateAtPrefix(init: State, txs: seq<Tx>, more: seq<Tx>, n: nat)
    requires n <= |txs|
    ensures StateAt(init, txs + more, n) == StateAt(init, txs, n)
    ensures LogAt(init, txs + more, n) == LogAt(init, txs, n)
  {
    hide Advance, Published;
    if n > 0 {
      StateAtPrefix(init, txs, more, n - 1);
      assert (txs + more)[n - 1] == txs[n - 1];
    }
  }

  /** One more transaction. */
  lemma StateAtSnoc(init: State, txs: seq<Tx>, tx: Tx)
    ensures var all, n := txs + [tx], |txs|;
            && StateAt(init, all, n + 1) == Advance(StateAt(init, txs, n), tx)
            && LogAt(init, all, n + 1) == LogAt(init, txs, n) + Published(StateAt(init, txs, n), tx)
  {
    hide Advance, Published;
    StateAtPrefix(init, txs, [tx], |txs|);
    assert (txs + [tx])[|txs|] == tx;
  }

  // ---------------------------------------------------------------- replay

  /** What an observer of the events makes of one event. */
  function Fold(s: State, e: Event): State {
    match e
    case Minted(t, to, role, accounts, bio, projects) =>
      s.(owner := s.owner[t := to],
         tokenOf := s.tokenOf[to := t],
         member := s.member[t := Member(Active, role, accounts, bio, projects)],
         account := Bind(s.account, t, accounts),
         nextTokenId := if t < U32_MAX then t + 1 else t)
    case RevokedEvent(t, from) =>
      s.(owner := s.owner - {t},
         tokenOf := s.tokenOf - {from},
         member := if t in s.member then s.member[t := s.member[t].(status := Revoked)] else s.member)
    case KeyRotated(t, from, to) =>
      s.(owner := s.owner[t := to], tokenOf := (s.tokenOf - {from})[to := t])
    case RecoveryProposed(t, newAddress, executableAt) =>
      // the event does not carry the attester: it is the last one set
      s.(recovery := s.recovery[t := RecoveryRequest(s.attester, newAddress, executableAt)])
    case RecoveryCancelled(t) =>
      s.(recovery := s.recovery - {t})
    case Recovered(t, from, to) =>
      // alone among the moves this one announces no cancellation, so it has to drop the request itself
      s.(owner := s.owner[t := to], tokenOf := (s.tokenOf - {from})[to := t], recovery := s.recovery - {t})
    case AdminRecovered(t, from, to) =>
      s.(owner := s.owner[t := to],
         tokenOf := (if from.Some? then s.tokenOf - {from.value} else s.tokenOf)[to := t],
         member := if t in s.member then s.member[t := s.member[t].(status := Active)] else s.member)
    case RoleSet(t, role) =>
      s.(member := if t in s.member then s.member[t := s.member[t].(role := role)] else s.member)
    case ExternalAccountsSet(t, accounts) =>
      if t in s.member then Recorded(s, t, s.member[t].(externalAccounts := accounts)) else s
    case BioSet(t, bio) =>
      s.(member := if t in s.member then s.member[t := s.member[t].(bio := bio)] else s.member)
    case ProjectsSet(t, projects) =>
      s.(member := if t in s.member then s.member[t := s.member[t].(projects := projects)] else s.member)
    case AdminSet(_, admin) => s.(admin := admin)
    case AttesterSet(_, attester) => s.(attester := attester)
    case NqgContractSet(_, nqgContract) => s.(nqgContract := nqgContract)
  }

  /** The storage an observer rebuilds from a log. */
  function Replay(s: State, log: seq<Event>): State {
    if log == [] then s else Fold(Replay(s, log[..|log| - 1]), log[|log| - 1])
  }

  lemma {:induction false} ReplayConcat(s: State, a: seq<Event>, b: seq<Event>)
    ensures Replay(s, a + b) == Replay(Replay(s, a), b)
    decreases |b|
  {
    hide Fold;
    if b == [] {
      assert a + b == a;
    } else {
      var b' := b[..|b| - 1];
      ReplayConcat(s, a, b');
      assert (a + b)[..|a + b| - 1] == a + b';
      assert (a + b)[|a + b| - 1] == b[|b| - 1];
    }
  }

  lemma ReplayOne(s: State, e: Event)
    ensures Replay(s, [e]) == Fold(s, e)
  {
  }

  lemma FoldCancelled(s: State, t: TokenId)
    ensures Fold(s, RecoveryCancelled(t)) == s.(recovery := s.recovery - {t})
  {
  }

  /** A move is published behind the cancellation of the request it drops. */
  lemma ReplayMove(s: State, t: TokenId, e: Event)
    ensures Replay(s, Cancellation(s, t) + [e]) == Fold(s.(recovery := s.recovery - {t}), e)
  {
    hide Fold;
    ReplayConcat(s, Cancellation(s, t), [e]);
    if t in s.recovery {
      ReplayOne(s, RecoveryCancelled(t));
      assert Fold(s, RecoveryCancelled(t)) == s.(recovery := s.recovery - {t}) by {
        FoldCancelled(s, t);
      }
      ReplayOne(s.(recovery := s.recovery - {t}), e);
    } else {
      assert s.recovery - {t} == s.recovery;
      ReplayOne(s, e);
    }
  }

  lemma ReplayMoves(s: State, tx: Tx)
    requires Inv(s) && Step(s, tx).Ok?
    requires tx.call.RotateKey? || tx.call.Recover? || tx.call.Revoke?
    ensures Replay(s, Step(s, tx).value.events) == Step(s, tx).value.state
  {
    hide Step, Inv, Replay;
    var t := tx.call.token;
    match tx.call
    case RotateKey(_, to) =>
      RotateKeyEffect(s, tx);
      ReplayMove(s, t, KeyRotated(t, s.owner[t], to));
    case Recover(_, to) =>
      RecoverEffect(s, tx);
      ReplayMove(s, t, AdminRecovered(t, if t in s.owner then Some(s.owner[t]) else None, to));
    case Revoke(_) =>
      RevokeEffect(s, tx);
      ReplayMove(s, t, RevokedEvent(t, s.owner[t]));
  }

  lemma ReplaySingle(s: State, tx: Tx)
    requires Inv(s) && Step(s, tx).Ok?
    requires !tx.call.RotateKey? && !tx.call.Recover? && !tx.call.Revoke? && !tx.call.ExtendMember?
    ensures |Step(s, tx).value.events| == 1
    ensures Fold(s, Step(s, tx).value.events[0]) == Step(s, tx).value.state
  {
    hide Step, Inv, Replay, Bind, Bindable;
    match tx.call
    case Mint(_, _, _, _, _) =>
      NextIsFresh(s);
      MintEffect(s, tx);
      assert s.recovery - {s.nextTokenId} == s.recovery;
    case SetExternalAccounts(_, _) => SetExternalAccountsEffect(s, tx);
    case SetRole(_, _) => RewriteEffect(s, tx);
    case SetBio(_, _, _) => RewriteEffect(s, tx);
    case SetProjects(_, _, _) => RewriteEffect(s, tx);
    case ProposeRecovery(_, _) => ProposeRecoveryEffect(s, tx);
    case CancelRecovery(_, _) => CancelRecoveryEffect(s, tx);
    case FinalizeRecovery(_) => FinalizeRecoveryEffect(s, tx);
    case _ => SettingsEffect(s, tx);
  }

  lemma ReplayEmpty(s: State)
    ensures Replay(s, []) == s
  {
  }

  /** The events of one call account for the whole change of storage it made. */
  lemma ReplayStep(s: State, tx: Tx)
    requires Inv(s)
    ensures Replay(s, Published(s, tx)) == Advance(s, tx)
  {
    hide Step, Inv, Fold, Replay;
    if Step(s, tx).Ok? {
      if tx.call.RotateKey? || tx.call.Recover? || tx.call.Revoke? {
        ReplayMoves(s, tx);
      } else if tx.call.ExtendMember? {
        SettingsEffect(s, tx);
        ReplayEmpty(s);
      } else {
        ReplaySingle(s, tx);
        ReplayOne(s, Published(s, tx)[0]);
        assert Published(s, tx) == [Published(s, tx)[0]];
      }
    } else {
      ReplayEmpty(s);
    }
  }

  /**
   * Event sourcing: in every run, folding the published log over the
   * constructor arguments yields the storage of the contract, map by map.
   */
  lemma {:induction false} StateRebuiltFromEvents(init: State, txs: seq<Tx>, n: nat)
    requires IsGenesis(init) && n <= |txs|
    ensures Replay(init, LogAt(init, txs, n)) == StateAt(init, txs, n)
  {
    hide Advance, Published, IsGenesis, Fold, Inv;
    if n == 0 {
    } else {
      StateRebuiltFromEvents(init, txs, n - 1);
      var s, tx := StateAt(init, txs, n - 1), txs[n - 1];
      ReachableInv(init, txs, n - 1);
      ReplayStep(s, tx);
      ReplayConcat(init, LogAt(init, txs, n - 1), Published(s, tx));
    }
  }
}
