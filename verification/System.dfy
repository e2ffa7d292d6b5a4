/**
 * The contract and the attester worker together. Claims are issued over time;
 * the worker signs entries on the strength of claims and of reads of any
 * earlier state of the chain, or of no answer at all; transactions run later,
 * with any of the signatures made so far, any number of times.
 */
module System {
  import opened Types
  import opened Model
  import opened Effects
  import opened Invariants
  import opened Calls
  import opened Runs
  import opened Recovery
  import opened Membership
  import A = Attest

  datatype Sys = Sys(init: State, txs: seq<Tx>, issued: set<Claim>, signed: set<Auth>)

  datatype Action =
    | Issue(claim: Claim)
    | Sign(key: Address, request: A.Request, latestLedger: nat, ownerRead: Option<nat>, memberRead: Option<nat>)
    | Submit(tx: Tx)

  /** The state of the chain after its first `n` transactions. */
  function Chain(sys: Sys, n: nat): State
    requires n <= |sys.txs|
  {
    StateAt(sys.init, sys.txs, n)
  }

  /** The token a signature is about, if the worker has to read one. */
  function TokenOf(invocation: Invocation): Option<TokenId> {
    match invocation
    case Whole(SetExternalAccounts(t, _)) => Some(t)
    case Whole(ProposeRecovery(t, _)) => Some(t)
    case _ => None
  }

  /** `owner_of` in some state of the chain; nothing when absent, revoked or unreachable. */
  function ReadOwner(sys: Sys, at: Option<nat>, t: TokenId): Option<Address> {
    if at.Some? && at.value <= |sys.txs| then Get(Chain(sys, at.value).owner, t) else None
  }

  /** `member` in some state of the chain; nothing when absent or unreachable. */
  function ReadMember(sys: Sys, at: Option<nat>, t: TokenId): Option<Member> {
    if at.Some? && at.value <= |sys.txs| then Get(Chain(sys, at.value).member, t) else None
  }

  /** The worker signs: every claim was issued, and the checks pass on what it read. */
  predicate WorkerSigns(sys: Sys, key: Address, request: A.Request, latestLedger: nat,
                        ownerRead: Option<nat>, memberRead: Option<nat>)
  {
    && (forall c | c in request.claims :: c in sys.issued)
    && var t := TokenOf(request.entry.invocation);
    && A.Attest(key, latestLedger, request,
                if t.Some? then ReadOwner(sys, ownerRead, t.value) else None,
                if t.Some? then ReadMember(sys, memberRead, t.value) else None) == A.Signs
  }

  /** What the attester key is asked to sign for the contract. */
  predicate Attestable(invocation: Invocation) {
    invocation.MintAttestation? || TokenOf(invocation).Some?
  }

  /** Every authorization of the attester of that moment came out of the worker. */
  predicate Justified(s: State, tx: Tx, signed: set<Auth>) {
    forall a | a in tx.auths :: a.signer == s.attester && Attestable(a.invocation) ==> a in signed
  }

  function Apply(sys: Sys, action: Action): Sys {
    match action
    case Issue(claim) => sys.(issued := sys.issued + {claim})
    case Sign(key, request, latestLedger, ownerRead, memberRead) =>
      if WorkerSigns(sys, key, request, latestLedger, ownerRead, memberRead)
      then sys.(signed := sys.signed + {request.entry}) else sys
    case Submit(tx) =>
      if Justified(Chain(sys, |sys.txs|), tx, sys.signed) then sys.(txs := sys.txs + [tx]) else sys
  }

  function Started(init: State): Sys {
    Sys(init, [], {}, {})
  }

  /** The system before action `n`. */
  function SysAt(init: State, actions: seq<Action>, n: nat): Sys
    requires n <= |actions|
  {
    if n == 0 then Started(init) else Apply(SysAt(init, actions, n - 1), actions[n - 1])
  }

  // ------------------------------------------------------------ provenance

  /** `a` has held `t` in some state of the chain. */
  ghost predicate HasHeld(sys: Sys, t: TokenId, a: Address) {
    exists n: nat :: n <= |sys.txs| && Get(Chain(sys, n).owner, t) == Some(a)
  }

  /** A claim for this account was issued for an address that has held `t`. */
  ghost predicate Proven(sys: Sys, t: TokenId, account: SocialAccount) {
    exists c :: c in sys.issued && HasHeld(sys, t, c.address) && account == SocialAccount(c.provider, c.id, c.handle)
  }

  ghost predicate EmailProven(sys: Sys, t: TokenId, hash: Hash) {
    exists c :: c in sys.issued && HasHeld(sys, t, c.address) && c.emailHash == Some(ToHex(hash))
  }

  /** Accounts and email of `t` are proven, and a Discord account is among them. */
  ghost predicate Backed(sys: Sys, t: TokenId, e: ExternalAccounts) {
    && (forall a :: a in e.accounts ==> Proven(sys, t, a))
    && (e.emailHash.Some? ==> EmailProven(sys, t, e.emailHash.value))
    && (exists a :: a in e.accounts && a.provider == Discord)
  }

  /** The same for a mint that is yet to come: claims were issued for `to`. */
  ghost predicate BackedFor(sys: Sys, to: Address, e: ExternalAccounts) {
    && (forall a :: a in e.accounts ==>
          exists c :: c in sys.issued && c.address == to && a == SocialAccount(c.provider, c.id, c.handle))
    && (e.emailHash.Some? ==>
          exists c :: c in sys.issued && c.address == to && c.emailHash == Some(ToHex(e.emailHash.value)))
    && (exists a :: a in e.accounts && a.provider == Discord)
  }

  /**
   * The claims were issued for `to`, and by provider and id they are claims of
   * at least two of the accounts `t` had in chain state `n`, where it was
   * active, or of the only one; the accounts it had are on distinct providers.
   */
  ghost predicate EvidenceAt(sys: Sys, t: TokenId, to: Address, n: nat, claims: seq<Claim>)
    requires n <= |sys.txs|
  {
    && t in Chain(sys, n).member
    && (forall c :: c in claims ==> c in sys.issued)
    && A.RecoverySupported(to, claims, Some(Chain(sys, n).member[t]))
    && DistinctProviders(Chain(sys, n).member[t].externalAccounts.accounts)
  }

  /** There are such claims and such a state, up to this moment. */
  ghost predicate Evidence(sys: Sys, t: TokenId, to: Address) {
    exists n: nat, claims: seq<Claim> :: n <= |sys.txs| && EvidenceAt(sys, t, to, n, claims)
  }

  /** What a signature of the worker is worth. */
  ghost predicate Vouched(sys: Sys, invocation: Invocation) {
    match invocation
    case MintAttestation(to, _, e) => BackedFor(sys, to, e)
    case Whole(SetExternalAccounts(t, e)) => Backed(sys, t, e)
    case Whole(ProposeRecovery(t, to)) => Evidence(sys, t, to)
    case _ => true
  }

  ghost predicate SysInv(sys: Sys) {
    && IsGenesis(sys.init)
    && (forall a :: a in sys.signed ==> Vouched(sys, a.invocation))
    && (forall n: nat :: n < |sys.txs| ==> Justified(Chain(sys, n), sys.txs[n], sys.signed))
    && (forall n: nat, t :: n <= |sys.txs| && t in Chain(sys, n).member ==>
          Backed(sys, t, Chain(sys, n).member[t].externalAccounts))
  }

  // ----------------------------------------------------- nothing is forgotten

  /** `after` has the claims, signatures and transactions of `before`, and maybe more. */
  ghost predicate Later(before: Sys, after: Sys) {
    && before.init == after.init
    && before.issued <= after.issued && before.signed <= after.signed
    && |before.txs| <= |after.txs| && after.txs[..|before.txs|] == before.txs
  }

  lemma LaterChain(before: Sys, after: Sys, n: nat)
    requires Later(before, after) && n <= |before.txs|
    ensures Chain(after, n) == Chain(before, n)
  {
    hide StateAt;
    assert after.txs == before.txs + after.txs[|before.txs|..];
    StateAtPrefix(before.init, before.txs, after.txs[|before.txs|..], n);
  }

  lemma LaterHeld(before: Sys, after: Sys, t: TokenId, a: Address)
    requires Later(before, after) && HasHeld(before, t, a)
    ensures HasHeld(after, t, a)
  {
    hide Chain;
    var n: nat :| n <= |before.txs| && Get(Chain(before, n).owner, t) == Some(a);
    LaterChain(before, after, n);
  }

  lemma LaterBacked(before: Sys, after: Sys, t: TokenId, e: ExternalAccounts)
    requires Later(before, after) && Backed(before, t, e)
    ensures Backed(after, t, e)
  {
    hide HasHeld;
    forall a | a in e.accounts
      ensures Proven(after, t, a)
    {
      assert Proven(before, t, a);
      var c :| c in before.issued && HasHeld(before, t, c.address) && a == SocialAccount(c.provider, c.id, c.handle);
      LaterHeld(before, after, t, c.address);
    }
    if e.emailHash.Some? {
      var c :| c in before.issued && HasHeld(before, t, c.address) && c.emailHash == Some(ToHex(e.emailHash.value));
      LaterHeld(before, after, t, c.address);
    }
  }

  lemma LaterEvidence(before: Sys, after: Sys, t: TokenId, to: Address)
    requires Later(before, after) && Evidence(before, t, to)
    ensures Evidence(after, t, to)
  {
    hide Chain, DistinctProviders;
    var n: nat, claims :| n <= |before.txs| && EvidenceAt(before, t, to, n, claims);
    LaterChain(before, after, n);
    assert EvidenceAt(after, t, to, n, claims);
  }

  lemma LaterVouched(before: Sys, after: Sys, invocation: Invocation)
    requires Later(before, after) && Vouched(before, invocation)
    ensures Vouched(after, invocation)
  {
    hide Backed, Evidence;
    match invocation
    case MintAttestation(_, _, _) =>
    case Whole(SetExternalAccounts(t, e)) => LaterBacked(before, after, t, e);
    case Whole(ProposeRecovery(t, to)) => LaterEvidence(before, after, t, to);
    case _ =>
  }

  /** What is true of the earlier part of the chain stays true. */
  lemma LaterHistory(before: Sys, after: Sys)
    requires SysInv(before) && Later(before, after)
    ensures IsGenesis(after.init)
    ensures forall a :: a in before.signed ==> Vouched(after, a.invocation)
    ensures forall n: nat :: n < |before.txs| ==> Justified(Chain(after, n), after.txs[n], after.signed)
    ensures forall n: nat, t :: n <= |before.txs| && t in Chain(after, n).member ==>
              Backed(after, t, Chain(after, n).member[t].externalAccounts)
  {
    hide Vouched, Backed, Chain, IsGenesis;
    forall a | a in before.signed
      ensures Vouched(after, a.invocation)
    {
      LaterVouched(before, after, a.invocation);
    }
    forall n: nat | n < |before.txs|
      ensures Justified(Chain(after, n), after.txs[n], after.signed)
    {
      LaterChain(before, after, n);
      assert after.txs[..|before.txs|][n] == before.txs[n];
    }
    forall n: nat, t | n <= |before.txs| && t in Chain(after, n).member
      ensures Backed(after, t, Chain(after, n).member[t].externalAccounts)
    {
      LaterChain(before, after, n);
      LaterBacked(before, after, t, Chain(after, n).member[t].externalAccounts);
    }
  }

  // ------------------------------------------------------------ the worker

  lemma SignedMint(sys: Sys, to: Address, role: Role, e: ExternalAccounts, claims: seq<Claim>)
    requires forall c :: c in claims ==> c in sys.issued
    requires A.CheckMint(to, role, e, claims) == A.Signs
    ensures BackedFor(sys, to, e)
  {
    hide A.CheckMint, ToHex;
    A.MintVerdict(to, role, e, claims);
  }

  lemma SignedSetExternalAccounts(sys: Sys, t: TokenId, e: ExternalAccounts, claims: seq<Claim>,
                                  owner: Option<Address>, member: Option<Member>)
    requires forall c :: c in claims ==> c in sys.issued
    requires A.CheckSetExternalAccounts(e, claims, owner, member) == A.Signs
    requires owner.Some? ==> HasHeld(sys, t, owner.value)
    requires member.Some? ==> Backed(sys, t, member.value.externalAccounts)
    ensures Backed(sys, t, e)
  {
    hide HasHeld, ToHex, A.CheckSetExternalAccounts;
    A.ChangeVerdict(e, claims, owner, member);
    forall a | a in e.accounts
      ensures Proven(sys, t, a)
    {
      if a !in member.value.externalAccounts.accounts {
        var c :| c in claims && c.provider == a.provider && c.id == a.id && c.handle == a.handle;
        assert a == SocialAccount(c.provider, c.id, c.handle);
      }
    }
    if e.emailHash.Some? && e.emailHash != member.value.externalAccounts.emailHash {
      var c :| c in claims && c.emailHash == Some(ToHex(e.emailHash.value));
    }
  }

  lemma RecordProvidersDistinct(m: Member)
    requires RecordValid(m)
    ensures DistinctProviders(m.externalAccounts.accounts)
  {
  }

  lemma SignedProposeRecovery(sys: Sys, t: TokenId, to: Address, n: nat, claims: seq<Claim>)
    requires IsGenesis(sys.init) && n <= |sys.txs|
    requires forall c :: c in claims ==> c in sys.issued
    requires A.CheckProposeRecovery(to, claims, Get(Chain(sys, n).member, t)) == A.Signs
    ensures EvidenceAt(sys, t, to, n, claims)
  {
    hide IsGenesis, StateAt, Inv, ValidAccounts, A.CheckProposeRecovery, A.EnoughClaimed;
    A.RecoveryVerdict(to, claims, Get(Chain(sys, n).member, t));
    var m := Chain(sys, n).member[t];
    ReachableInv(sys.init, sys.txs, n);
    StoredRecordValid(Chain(sys, n), t);
    RecordProvidersDistinct(m);
  }

  lemma ReadOwnerHeld(sys: Sys, at: Option<nat>, t: TokenId)
    requires ReadOwner(sys, at, t).Some?
    ensures HasHeld(sys, t, ReadOwner(sys, at, t).value)
  {
  }

  lemma ProposalNeedsRead(to: Address, claims: seq<Claim>)
    ensures A.CheckProposeRecovery(to, claims, None) != A.Signs
  {
  }

  /** Whatever the worker signs, on reads however old, is vouched for. */
  lemma SigningVouches(sys: Sys, key: Address, request: A.Request, latestLedger: nat,
                       ownerRead: Option<nat>, memberRead: Option<nat>)
    requires SysInv(sys)
    requires WorkerSigns(sys, key, request, latestLedger, ownerRead, memberRead)
    ensures Vouched(sys, request.entry.invocation)
  {
    hide Backed, BackedFor, HasHeld, EvidenceAt, A.CheckMint, A.CheckSetExternalAccounts,
      A.CheckProposeRecovery, Justified, Chain, IsGenesis;
    var claims := request.claims;
    match request.entry.invocation
    case MintAttestation(to, role, e) => SignedMint(sys, to, role, e, claims);
    case Whole(SetExternalAccounts(t, e)) =>
      var owner, member := ReadOwner(sys, ownerRead, t), ReadMember(sys, memberRead, t);
      if owner.Some? {
        ReadOwnerHeld(sys, ownerRead, t);
      }
      SignedSetExternalAccounts(sys, t, e, claims, owner, member);
    case Whole(ProposeRecovery(t, to)) =>
      ProposalNeedsRead(to, claims);
      SignedProposeRecovery(sys, t, to, memberRead.value, claims);
    case _ =>
  }

  // ------------------------------------------------------------- the chain

  /** Only a mint and `set_external_accounts` decide what accounts a member has. */
  lemma AccountsChangeByTwoCalls(s: State, tx: Tx, t: TokenId)
    requires Inv(s) && Step(s, tx).Ok?
    requires t in Step(s, tx).value.state.member
    ensures var e := Step(s, tx).value.state.member[t].externalAccounts;
            || (tx.call.Mint? && t == s.nextTokenId && e == tx.call.accounts
                && Get(Step(s, tx).value.state.owner, t) == Some(tx.call.to) && tx.Attested(s.attester))
            || (tx.call == SetExternalAccounts(t, e) && tx.Signed(s.attester))
            || (t in s.member && e == s.member[t].externalAccounts)
  {
    hide Step, Inv, Bind, Bindable;
    match tx.call
    case Mint(_, _, _, _, _) =>
      NextIsFresh(s);
      MintEffect(s, tx);
    case SetExternalAccounts(_, _) => SetExternalAccountsEffect(s, tx);
    case Revoke(_) => RevokeEffect(s, tx);
    case RotateKey(_, _) => RotateKeyEffect(s, tx);
    case FinalizeRecovery(_) => FinalizeRecoveryEffect(s, tx);
    case Recover(_, _) => RecoverEffect(s, tx);
    case ProposeRecovery(_, _) => ProposeRecoveryEffect(s, tx);
    case CancelRecovery(_, _) => CancelRecoveryEffect(s, tx);
    case SetRole(_, _) => RewriteEffect(s, tx);
    case SetBio(_, _, _) => RewriteEffect(s, tx);
    case SetProjects(_, _, _) => RewriteEffect(s, tx);
    case _ => SettingsEffect(s, tx);
  }

  /** Once minted, the address the claims were issued for holds the token. */
  lemma MintedIsBacked(sys: Sys, after: Sys, t: TokenId, to: Address, e: ExternalAccounts)
    requires BackedFor(sys, to, e) && sys.issued <= after.issued
    requires Get(Chain(after, |after.txs|).owner, t) == Some(to)
    ensures Backed(after, t, e)
  {
  }

  /** A justified transaction leaves every record of the chain backed. */
  lemma SubmittedBacked(sys: Sys, tx: Tx, t: TokenId)
    requires SysInv(sys) && Justified(Chain(sys, |sys.txs|), tx, sys.signed)
    requires var after := sys.(txs := sys.txs + [tx]); t in Chain(after, |sys.txs| + 1).member
    ensures var after := sys.(txs := sys.txs + [tx]);
            Backed(after, t, Chain(after, |sys.txs| + 1).member[t].externalAccounts)
  {
    hide Step, Backed, BackedFor, Evidence, HasHeld, StateAt, Inv, IsGenesis;
    var n := |sys.txs|;
    var after, s := sys.(txs := sys.txs + [tx]), Chain(sys, n);
    var s' := Chain(after, n + 1);
    StateAtSnoc(sys.init, sys.txs, tx);
    assert Later(sys, after);
    ReachableInv(sys.init, sys.txs, n);
    var e := s'.member[t].externalAccounts;
    if Step(s, tx).Ok? {
      AccountsChangeByTwoCalls(s, tx, t);
      if t in s.member && e == s.member[t].externalAccounts {
        LaterBacked(sys, after, t, e);
      } else if tx.call.Mint? {
        var attested := Auth(s.attester, MintAttestation(tx.call.to, tx.call.role, e));
        assert attested in tx.auths && Vouched(sys, attested.invocation);
        MintedIsBacked(sys, after, t, tx.call.to, e);
      } else {
        var attested := Auth(s.attester, Whole(tx.call));
        assert attested in tx.auths && Vouched(sys, attested.invocation);
        LaterBacked(sys, after, t, e);
      }
    } else {
      LaterBacked(sys, after, t, e);
    }
  }

  lemma SubmitKeeps(sys: Sys, tx: Tx)
    requires SysInv(sys) && Justified(Chain(sys, |sys.txs|), tx, sys.signed)
    ensures SysInv(sys.(txs := sys.txs + [tx]))
  {
    hide Backed, Vouched, Justified, Chain, IsGenesis;
    var after := sys.(txs := sys.txs + [tx]);
    assert Later(sys, after);
    LaterHistory(sys, after);
    LaterChain(sys, after, |sys.txs|);
    forall n: nat, t | n <= |after.txs| && t in Chain(after, n).member
      ensures Backed(after, t, Chain(after, n).member[t].externalAccounts)
    {
      if n == |after.txs| {
        SubmittedBacked(sys, tx, t);
      }
    }
  }

  lemma IssueKeeps(sys: Sys, claim: Claim)
    requires SysInv(sys)
    ensures SysInv(sys.(issued := sys.issued + {claim}))
  {
    hide Backed, Vouched, Justified, Chain, IsGenesis;
    var after := sys.(issued := sys.issued + {claim});
    assert Later(sys, after);
    LaterHistory(sys, after);
  }

  lemma SignKeeps(sys: Sys, entry: Auth)
    requires SysInv(sys) && Vouched(sys, entry.invocation)
    ensures SysInv(sys.(signed := sys.signed + {entry}))
  {
    hide Backed, Vouched, Justified, Chain, IsGenesis;
    var after := sys.(signed := sys.signed + {entry});
    assert Later(sys, after);
    LaterHistory(sys, after);
    LaterVouched(sys, after, entry.invocation);
  }

  lemma StartedInv(init: State)
    requires IsGenesis(init)
    ensures SysInv(Started(init))
  {
  }

  /** Whatever contract and worker do together keeps what signatures are worth and members backed. */
  lemma {:induction false} SysAtInv(init: State, actions: seq<Action>, n: nat)
    requires IsGenesis(init) && n <= |actions|
    ensures SysInv(SysAt(init, actions, n))
  {
    hide SysInv, IsGenesis, WorkerSigns, Justified, Started, Chain;
    if n == 0 {
      StartedInv(init);
    } else {
      var sys := SysAt(init, actions, n - 1);
      SysAtInv(init, actions, n - 1);
      match actions[n - 1]
      case Issue(claim) => IssueKeeps(sys, claim);
      case Sign(key, request, latestLedger, ownerRead, memberRead) =>
        if WorkerSigns(sys, key, request, latestLedger, ownerRead, memberRead) {
          SigningVouches(sys, key, request, latestLedger, ownerRead, memberRead);
          SignKeeps(sys, request.entry);
        }
      case Submit(tx) =>
        if Justified(Chain(sys, |sys.txs|), tx, sys.signed) {
          SubmitKeeps(sys, tx);
        }
    }
  }

  // -------------------------------------------------------- dates of events

  lemma ApplyLater(sys: Sys, action: Action)
    ensures Later(sys, Apply(sys, action))
  {
    hide WorkerSigns, Justified, Chain;
  }

  lemma LaterTransitive(a: Sys, b: Sys, c: Sys)
    requires Later(a, b) && Later(b, c)
    ensures Later(a, c)
  {
    assert c.txs[..|b.txs|][..|a.txs|] == c.txs[..|a.txs|];
  }

  lemma LaterSelf(sys: Sys)
    ensures Later(sys, sys)
  {
  }

  lemma {:induction false} LaterAt(init: State, actions: seq<Action>, k: nat, n: nat)
    requires k <= n <= |actions|
    ensures Later(SysAt(init, actions, k), SysAt(init, actions, n))
  {
    hide Later, Apply;
    if k < n {
      LaterAt(init, actions, k, n - 1);
      var before := SysAt(init, actions, n - 1);
      ApplyLater(before, actions[n - 1]);
      LaterTransitive(SysAt(init, actions, k), before, Apply(before, actions[n - 1]));
    } else {
      assert Later(SysAt(init, actions, k), SysAt(init, actions, k)) by {
        LaterSelf(SysAt(init, actions, k));
      }
    }
  }

  /** Action `k` puts transaction `j` on the chain, with signatures made before it. */
  ghost predicate Submits(init: State, actions: seq<Action>, k: nat, j: nat, tx: Tx)
    requires k < |actions|
  {
    var before, after := SysAt(init, actions, k), SysAt(init, actions, k + 1);
    && actions[k] == Submit(tx)
    && |before.txs| == j && after.txs == before.txs + [tx]
    && Justified(Chain(before, j), tx, before.signed)
  }

  /** Every transaction of a run was put on the chain by one of its actions. */
  lemma {:induction false} SubmittedAt(init: State, actions: seq<Action>, n: nat, j: nat) returns (k: nat)
    requires n <= |actions| && j < |SysAt(init, actions, n).txs|
    ensures k < n && Submits(init, actions, k, j, SysAt(init, actions, n).txs[j])
  {
    hide WorkerSigns, Justified, Chain;
    if n == 0 {
      assert false;
    } else {
      var before := SysAt(init, actions, n - 1);
      if j < |before.txs| {
        k := SubmittedAt(init, actions, n - 1, j);
      } else {
        k := n - 1;
      }
    }
  }

  /** Action `k` signs `entry`, on claims issued and reads made by then. */
  ghost predicate Signs(init: State, actions: seq<Action>, k: nat, entry: Auth)
    requires k < |actions|
  {
    && actions[k].Sign? && actions[k].request.entry == entry
    && var Sign(key, request, latestLedger, ownerRead, memberRead) := actions[k];
    && WorkerSigns(SysAt(init, actions, k), key, request, latestLedger, ownerRead, memberRead)
  }

  /** Every signature of a run was made by one of its actions. */
  lemma {:induction false} SignedAt(init: State, actions: seq<Action>, n: nat, entry: Auth) returns (k: nat)
    requires n <= |actions| && entry in SysAt(init, actions, n).signed
    ensures k < n && Signs(init, actions, k, entry)
  {
    hide WorkerSigns, Justified, Chain;
    if n == 0 {
      assert false;
    } else if entry in SysAt(init, actions, n - 1).signed {
      k := SignedAt(init, actions, n - 1, entry);
    } else {
      k := n - 1;
    }
  }

  lemma StartsEmpty(init: State, actions: seq<Action>)
    ensures SysAt(init, actions, 0) == Started(init)
  {
  }

  lemma StartsWith(init: State, actions: seq<Action>, n: nat)
    requires n <= |actions|
    ensures SysAt(init, actions, n).init == init
  {
    hide SysAt;
    LaterAt(init, actions, 0, n);
    assert SysAt(init, actions, 0) == Started(init) by {
      StartsEmpty(init, actions);
    }
  }

  /** Before the first transaction there is no member. */
  lemma NothingStarted(init: State, sys: Sys, t: TokenId)
    requires IsGenesis(init) && sys.init == init
    ensures t !in Chain(sys, 0).member
  {
  }

  // ---------------------------------------------------------- main results

  /**
   * Provenance: in every run of contract and worker together, whatever the
   * worker read and whenever, each account a member has after transaction `i`
   * is the account of a claim issued before that transaction was submitted,
   * for an address that has held the token by then; so is its email, and a
   * Discord account is always there.
   */
  lemma Provenance(init: State, actions: seq<Action>, i: nat, t: TokenId)
    requires IsGenesis(init)
    requires i <= |SysAt(init, actions, |actions|).txs|
    requires t in Chain(SysAt(init, actions, |actions|), i).member
    ensures var txs := SysAt(init, actions, |actions|).txs;
            var e := Chain(SysAt(init, actions, |actions|), i).member[t].externalAccounts;
            exists k: nat, j: nat ::
              && k < |actions| && j + 1 == i
              && Submits(init, actions, k, j, txs[j])
              && Backed(SysAt(init, actions, k + 1), t, e)
  {
    hide IsGenesis, SysAt, Backed, Vouched, Justified;
    var sys := SysAt(init, actions, |actions|);
    StartsWith(init, actions, |actions|);
    NothingStarted(init, sys, t);
    var k := SubmittedAt(init, actions, |actions|, i - 1);
    var after := SysAt(init, actions, k + 1);
    LaterAt(init, actions, k + 1, |actions|);
    LaterChain(after, sys, i);
    SysAtInv(init, actions, k + 1);
    assert Backed(after, t, Chain(after, i).member[t].externalAccounts);
  }

  /** So the worker never refuses a recovery because the member has no account. */
  lemma NoMemberWithoutAccount(init: State, actions: seq<Action>, at: Option<nat>, t: TokenId, to: Address,
                               claims: seq<Claim>)
    requires IsGenesis(init)
    ensures var member := ReadMember(SysAt(init, actions, |actions|), at, t);
            A.CheckProposeRecovery(to, claims, member) != A.Refuses(A.MemberHasNoAccount)
  {
    hide IsGenesis, SysAt, Proven, EmailProven, Chain, Submits;
    var member := ReadMember(SysAt(init, actions, |actions|), at, t);
    if member.Some? {
      Provenance(init, actions, at.value, t);
    }
  }

  /**
   * Action `k` signs, for `signer`, the proposal to move `t` to `to`; the
   * claims it was given had been issued by then, and they are the evidence
   * against the record the worker read, of a chain state of that moment or before.
   */
  ghost predicate SignsOnEvidence(init: State, actions: seq<Action>, k: nat, signer: Address, t: TokenId, to: Address)
    requires k < |actions|
  {
    && Signs(init, actions, k, Auth(signer, Whole(ProposeRecovery(t, to))))
    && var sys, read := SysAt(init, actions, k), actions[k].memberRead;
    && read.Some? && read.value <= |sys.txs|
    && EvidenceAt(sys, t, to, read.value, actions[k].request.claims)
  }

  /** Every signature on a proposal to recover was made on evidence of that moment. */
  lemma RecoveryEvidence(init: State, actions: seq<Action>, n: nat, signer: Address, t: TokenId, to: Address)
    requires IsGenesis(init) && n <= |actions|
    requires Auth(signer, Whole(ProposeRecovery(t, to))) in SysAt(init, actions, n).signed
    ensures exists k: nat :: k < n && SignsOnEvidence(init, actions, k, signer, t, to)
  {
    hide IsGenesis, SysAt, Chain, Justified, EvidenceAt, Backed, A.CheckProposeRecovery;
    var entry := Auth(signer, Whole(ProposeRecovery(t, to)));
    var k := SignedAt(init, actions, n, entry);
    var sys := SysAt(init, actions, k);
    var Sign(key, request, latestLedger, ownerRead, memberRead) := actions[k];
    SysAtInv(init, actions, k);
    ProposalNeedsRead(to, request.claims);
    SignedProposeRecovery(sys, t, to, memberRead.value, request.claims);
    assert SignsOnEvidence(init, actions, k, signer, t, to);
  }

  /**
   * A recovery that is finalized, in any run of contract and worker together,
   * moves the token where an earlier proposal of the run says, and before that
   * proposal was submitted the attester of then had signed it on evidence of
   * that moment: claims issued for the new address that prove two of the
   * accounts the member had, on distinct providers, or its only one.
   */
  lemma FinalizedRecoveryHasEvidence(init: State, actions: seq<Action>, i: nat, t: TokenId)
    requires IsGenesis(init)
    requires var txs := SysAt(init, actions, |actions|).txs;
             Succeeds(init, txs, i) && txs[i].call == FinalizeRecovery(t)
    ensures var txs := SysAt(init, actions, |actions|).txs;
            exists h: nat, k: nat, j: nat, to: Address ::
              && h < k < |actions| && j < i
              && SignsOnEvidence(init, actions, h, StateAt(init, txs, j).attester, t, to)
              && Submits(init, actions, k, j, txs[j])
              && CarriesOut(init, txs, j, i, t)
              && Get(StateAt(init, txs, i + 1).owner, t) == Some(to)
  {
    hide IsGenesis, SysAt, SignsOnEvidence, Undisturbed, Step, StateAt, Later;
    var sys := SysAt(init, actions, |actions|);
    var txs := sys.txs;
    RecoverySafety(init, txs, i, t);
    var j: nat :| j < i && CarriesOut(init, txs, j, i, t);
    var request := StateAt(init, txs, i).recovery[t];
    var entry := Auth(request.attester, Whole(ProposeRecovery(t, request.newAddress)));
    assert entry in txs[j].auths;
    var k := SubmittedAt(init, actions, |actions|, j);
    var before := SysAt(init, actions, k);
    LaterAt(init, actions, k, |actions|);
    LaterChain(before, sys, j);
    StartsWith(init, actions, |actions|);
    StartsWith(init, actions, k);
    assert entry in before.signed;
    RecoveryEvidence(init, actions, k, request.attester, t, request.newAddress);
  }

  // ------------------------------------------------------------- onboarding

  /** Ids and handles as the worker normalizes them before it issues a claim. */
  predicate Normalized(claims: seq<Claim>) {
    forall c :: c in claims ==> ValidAccount(AccountOf(c))
  }

  lemma KeysOfClaims(e: ExternalAccounts, claims: seq<Claim>)
    requires forall a :: a in e.accounts <==> exists c :: c in claims && a == SocialAccount(c.provider, c.id, c.handle)
    ensures forall k :: k in KeysOf(e) <==> exists c :: c in claims && k == AccountKey(c.provider, c.id)
  {
    hide KeysOf;
    KeysAreNamed(e);
    forall c | c in claims
      ensures AccountKey(c.provider, c.id) in KeysOf(e)
    {
      assert SocialAccount(c.provider, c.id, c.handle) in e.accounts;
    }
  }

  /**
   * Onboarding end to end: for verified claims of an address, Discord among
   * them, what the app sends is signed by the worker, and the contract then
   * mints it unless the address holds a token, an account is reserved already,
   * or the ids have run out.
   */
  lemma OnboardingMints(s: State, tx: Tx, claims: seq<Claim>, emailFrom: Option<Provider>)
    requires tx.call.Mint?
    requires A.VerifiedFor(tx.call.to, claims) && Normalized(claims) && FindProvider(claims, Discord).Some?
    requires tx.call.role == A.GrantedRole(claims)
    requires A.ToContract(AccountsFromClaims(claims, emailFrom)) == Some(tx.call.accounts)
    requires |tx.call.bio| <= MAX_BIO_LEN && ValidProjects(tx.call.projects)
    requires tx.Signed(tx.call.to) && tx.Attested(s.attester)
    ensures A.CheckMint(tx.call.to, tx.call.role, tx.call.accounts, claims) == A.Signs
    ensures Step(s, tx).Ok? <==>
            && s.nextTokenId < U32_MAX
            && tx.call.to !in s.tokenOf
            && (forall c :: c in claims ==> AccountKey(c.provider, c.id) !in s.account)
  {
    hide Step, A.VerifiedFor, A.ToContract, CheckAccounts, Bindable, ValidProjects, SortByProvider, MapAccounts,
      ValidAccount, FindProvider;
    var e := tx.call.accounts;
    A.OnboardingIsAccepted(tx.call.to, claims, emailFrom);
    AccountsFromClaimsExact(claims, emailFrom);
    assert e.accounts == AccountsFromClaims(claims, emailFrom).accounts;
    forall i | 0 <= i < |e.accounts|
      ensures ValidAccount(e.accounts[i])
    {
      assert e.accounts[i] in e.accounts;
    }
    ValidPasses(e);
    BindableIffFree(s.account, e);
    KeysOfClaims(e, claims);
    if Step(s, tx).Ok? {
      MintGuards(s, tx);
    } else if s.nextTokenId < U32_MAX && tx.call.to !in s.tokenOf && Bindable(s.account, e) {
      MintSucceeds(s, tx);
    }
  }
}
