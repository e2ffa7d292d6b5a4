/**
 * Two runs that show what the documentation does not lead one to expect, step
 * by step from a construction.
 */
module Scenarios {
  import opened Types
  import opened Model
  import opened Effects
  import opened Invariants
  import opened Runs
  import opened Calls
  import opened Recovery

  const ADMIN := Contract(0)
  const ATTESTER := Contract(1)
  const STAND_IN := Contract(2)
  const NO_ACCOUNTS := ExternalAccounts([], None)

  const START: State := Constructed(ADMIN, ATTESTER, Contract(3))

  /** A call, signed whole by each of the signers. */
  function SignedBy(call: Call, timestamp: U64, signers: set<Address>): Tx {
    Tx(call, timestamp, set a | a in signers :: Auth(a, Whole(call)))
  }

  /** The mint of a member without accounts, with both signatures. */
  function MintTo(to: Address): Tx {
    var call := Mint(to, Verified, NO_ACCOUNTS, [], []);
    Tx(call, 0, {Auth(to, Whole(call)), Auth(ATTESTER, MintAttestation(to, Verified, NO_ACCOUNTS))})
  }

  lemma Next(txs: seq<Tx>, n: nat)
    requires n < |txs|
    ensures StateAt(START, txs, n + 1) == Advance(StateAt(START, txs, n), txs[n])
  {
  }

  lemma NothingDone(txs: seq<Tx>)
    ensures StateAt(START, txs, 0) == START
  {
  }

  /** Such a mint succeeds while ids are left and the address holds none. */
  lemma MintedTo(s: State, to: Address)
    requires Inv(s) && s.attester == ATTESTER
    requires s.nextTokenId < U32_MAX && to !in s.tokenOf
    ensures Step(s, MintTo(to)).Ok?
    ensures var s' := Step(s, MintTo(to)).value.state;
            && s'.admin == s.admin && s'.attester == ATTESTER
            && s'.nextTokenId == s.nextTokenId + 1
            && s'.owner == s.owner[s.nextTokenId := to]
            && s'.tokenOf == s.tokenOf[to := s.nextTokenId]
            && s'.recovery == s.recovery
  {
    hide Step, Inv;
    MintSucceeds(s, MintTo(to));
    NextIsFresh(s);
    MintEffect(s, MintTo(to));
    assert s.recovery - {s.nextTokenId} == s.recovery;
  }

  // ------------------------------------------- the attester set back in time

  const OLD_KEY := Account(0)
  const NEW_KEY := Account(1)

  /** A member, a proposal to recover it, another attester, the former one again, the finalization. */
  const REVIVAL: seq<Tx> := [
    MintTo(OLD_KEY),
    SignedBy(ProposeRecovery(0, NEW_KEY), 0, {ATTESTER, NEW_KEY}),
    SignedBy(SetAttester(STAND_IN), 0, {ADMIN}),
    SignedBy(SetAttester(ATTESTER), 0, {ADMIN}),
    SignedBy(FinalizeRecovery(0), RECOVERY_DELAY, {})]

  /**
   * A recovery survives the replacement of its attester: while another one is
   * set the finalization fails with `AttesterChanged`, and once the former one
   * is set again the same call, which no one signed, moves the token.
   */
  lemma RevivedInARun()
    ensures IsGenesis(START) && |REVIVAL| == 5 && REVIVAL[4].call == FinalizeRecovery(0)
    ensures forall k: nat :: k < 5 ==> Succeeds(START, REVIVAL, k)
    ensures StateAt(START, REVIVAL, 3).attester != ATTESTER
    ensures Step(StateAt(START, REVIVAL, 3), REVIVAL[4]) == Err(AttesterChanged)
    ensures StateAt(START, REVIVAL, 4).owner == map[0 := OLD_KEY]
    ensures StateAt(START, REVIVAL, 5).owner == map[0 := NEW_KEY]
  {
    hide Step, StateAt, Inv;
    NothingDone(REVIVAL);
    forall k | 0 <= k < 5
      ensures StateAt(START, REVIVAL, k + 1) == Advance(StateAt(START, REVIVAL, k), REVIVAL[k])
    {
      Next(REVIVAL, k);
    }
    ConstructedInv(ADMIN, ATTESTER, START.nqgContract);
    MintedTo(START, OLD_KEY);
    var s1 := StateAt(START, REVIVAL, 1);
    assert s1 == Step(START, REVIVAL[0]).value.state;
    ProposeSucceeds(s1, REVIVAL[1]);
    ProposeRecoveryEffect(s1, REVIVAL[1]);
    var s2 := StateAt(START, REVIVAL, 2);
    SetAttesterSucceeds(s2, REVIVAL[2]);
    var s3 := StateAt(START, REVIVAL, 3);
    SetAttesterSucceeds(s3, REVIVAL[3]);
    var s4 := StateAt(START, REVIVAL, 4);
    ReachableInv(START, REVIVAL, 4);
    FinalizeSucceedsIff(s4, REVIVAL[4]);
    FinalizeRecoveryEffect(s4, REVIVAL[4]);
    ChangedAttesterRefuses(s3, REVIVAL[4]);
  }

  // ---------------------------------------- a token revoked between two reads

  /** Mints of the first `n` ids, each to an address of its own. */
  function Mints(n: nat): seq<Tx> {
    seq(n, u requires 0 <= u < n => MintTo(Account(u)))
  }

  /** Every id up to `t` is minted, then `t` is revoked. */
  function MintsThenRevokes(t: TokenId): seq<Tx> {
    Mints(t + 1) + [SignedBy(Revoke(t), 0, {ADMIN})]
  }

  /** After `n` mints of that run. */
  ghost predicate MintedUpTo(s: State, n: nat) {
    && s.admin == ADMIN && s.attester == ATTESTER && s.nextTokenId == n
    && (forall a :: a in s.tokenOf ==> a.Account? && a.key < n)
    && (n > 0 ==> Get(s.owner, n - 1) == Some(Account(n - 1)))
  }

  lemma {:induction false} MintsSucceed(t: TokenId, n: nat)
    requires n <= t + 1 && t < U32_MAX
    ensures MintedUpTo(StateAt(START, MintsThenRevokes(t), n), n)
  {
    hide Step, StateAt, Inv;
    var txs := MintsThenRevokes(t);
    if n == 0 {
      NothingDone(txs);
    } else {
      MintsSucceed(t, n - 1);
      ReachableInv(START, txs, n - 1);
      assert txs[n - 1] == MintTo(Account(n - 1));
      MintedTo(StateAt(START, txs, n - 1), Account(n - 1));
      Next(txs, n - 1);
    }
  }

  /** The last id minted has its owner, and after one more transaction it is revoked. */
  lemma RevokedAtTheEnd(t: TokenId)
    requires t < U32_MAX
    ensures var txs := MintsThenRevokes(t);
            && |txs| == t + 2 && IsGenesis(START)
            && Get(StateAt(START, txs, t + 1).owner, t) == Some(Account(t))
            && Get(StateAt(START, txs, t + 2).owner, t) == None
            && t in StateAt(START, txs, t + 2).member
            && StateAt(START, txs, t + 2).member[t].status == Revoked
  {
    hide Step, StateAt, Inv;
    var txs := MintsThenRevokes(t);
    var s := StateAt(START, txs, t + 1);
    MintsSucceed(t, t + 1);
    ReachableInv(START, txs, t + 1);
    OwnedHasRecord(s, t);
    Next(txs, t + 1);
    RevokeSucceeds(s, txs[t + 1]);
    RevokeEffect(s, txs[t + 1]);
  }
}
