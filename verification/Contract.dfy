/**
 * The contract as it runs: an object whose entry points read, remove and
 * overwrite storage entries one after the other and stop at the first error.
 * `Invoke` is the host around them, which restores everything on an error.
 * Each method is proved against the transition function of `Model`.
 */
module Contract {
  import opened Types
  import opened Model
  import opened Invariants
  import opened Calls
  import opened Outcomes
  import opened Runs

  /** The transaction, the sequence number of its ledger, and the life the host gives a new entry. */
  datatype Env = Env(tx: Tx, sequence: nat, minTtl: nat)

  /** The ledger an entry lives up to once it is extended: `extend_ttl` acts below the threshold only. */
  function Extended(e: Env, liveUntil: nat): nat {
    if liveUntil < e.sequence + PERSISTENT_TTL_THRESHOLD then e.sequence + PERSISTENT_TTL_EXTEND_TO else liveUntil
  }

  // ------------------------------------------------------------ validation

  /** Bounds of every account, and at most one account a provider. */
  method ValidateAccounts(external: ExternalAccounts) returns (r: Check)
    ensures r == CheckAccounts(external.accounts)
    ensures r.Pass? <==> ValidAccounts(external)
  {
    var accounts := external.accounts;
    CheckAccountsMeaning(accounts);
    for i := 0 to |accounts|
      invariant CheckAccounts(accounts) == CheckAccounts(accounts[i..])
    {
      var account := accounts[i];
      assert accounts[i..][1..] == accounts[i + 1..];
      if account.id == [] || |account.id| > MAX_ACCOUNT_LEN {
        return Fail(InvalidLength);
      }
      if |account.handle| > MAX_ACCOUNT_LEN {
        return Fail(InvalidLength);
      }
      if exists other | other in accounts[i + 1..] :: other.provider == account.provider {
        return Fail(DuplicateProvider);
      }
    }
    return Pass;
  }

  method ValidateProjects(projects: seq<Text>) returns (r: Check)
    ensures r == if |projects| > MAX_PROJECTS then Fail(TooManyProjects)
                 else if ValidProjects(projects) then Pass
                 else Fail(InvalidLength)
  {
    if |projects| > MAX_PROJECTS {
      return Fail(TooManyProjects);
    }
    for i := 0 to |projects|
      invariant forall j :: 0 <= j < i ==> 0 < |projects[j]| <= MAX_PROJECT_LEN
    {
      if projects[i] == [] || |projects[i]| > MAX_PROJECT_LEN {
        return Fail(InvalidLength);
      }
    }
    return Pass;
  }

  // ------------------------------------------- facts the loops below rest on

  /** The first `i` accounts of a set. */
  ghost function Prefix(accounts: seq<SocialAccount>, i: nat): ExternalAccounts
    requires i <= |accounts|
  {
    ExternalAccounts(accounts[..i], None)
  }

  lemma KeysOfNone()
    ensures forall accounts :: KeysOf(Prefix(accounts, 0)) == {}
  {
  }

  lemma KeysOfSnoc(accounts: seq<SocialAccount>, i: nat)
    requires i < |accounts|
    ensures KeysOf(Prefix(accounts, i + 1)) == KeysOf(Prefix(accounts, i)) + {KeyOf(accounts[i])}
  {
  }

  lemma KeysOfAll(e: ExternalAccounts)
    ensures KeysOf(Prefix(e.accounts, |e.accounts|)) == KeysOf(e)
  {
  }

  lemma BindNone(bound: map<AccountKey, TokenId>, t: TokenId)
    ensures forall accounts :: Bindable(bound, Prefix(accounts, 0))
    ensures forall accounts :: Bind(bound, t, Prefix(accounts, 0)) == bound
  {
  }

  /** An account that is found bound on its turn makes the whole set unbindable. */
  lemma BoundTwice(bound: map<AccountKey, TokenId>, t: TokenId, external: ExternalAccounts, i: nat)
    requires i < |external.accounts|
    requires KeyOf(external.accounts[i]) in Bind(bound, t, Prefix(external.accounts, i))
    ensures !Bindable(bound, external)
  {
  }

  /** Binding one more free account. */
  lemma BindSnoc(bound: map<AccountKey, TokenId>, t: TokenId, accounts: seq<SocialAccount>, i: nat)
    requires i < |accounts|
    requires Bindable(bound, Prefix(accounts, i))
    requires KeyOf(accounts[i]) !in Bind(bound, t, Prefix(accounts, i))
    ensures Bindable(bound, Prefix(accounts, i + 1))
    ensures Bind(bound, t, Prefix(accounts, i + 1)) == Bind(bound, t, Prefix(accounts, i))[KeyOf(accounts[i]) := t]
  {
    hide KeysOf;
    KeysOfSnoc(accounts, i);
    forall j | 0 <= j < i
      ensures KeyOf(accounts[j]) != KeyOf(accounts[i])
    {
      KeysOfHas(Prefix(accounts, i), j);
    }
  }

  lemma BindAll(bound: map<AccountKey, TokenId>, t: TokenId, e: ExternalAccounts)
    ensures Bindable(bound, Prefix(e.accounts, |e.accounts|)) <==> Bindable(bound, e)
    ensures Bind(bound, t, Prefix(e.accounts, |e.accounts|)) == Bind(bound, t, e)
  {
    assert e.accounts[..|e.accounts|] == e.accounts;
  }

  // ------------------------------------------ the entries a member is bound to

  /** The entries that carrying `t` with record `m` reaches for all exist. */
  ghost predicate Linked(s: State, t: TokenId, m: Member) {
    && (t in s.owner ==> s.owner[t] in s.tokenOf)
    && (forall k :: k in KeysOf(m.externalAccounts) ==> k in s.account)
  }

  /** A record of a valid storage is linked, and stays so when its other fields change. */
  lemma StoredLinked(s: State, t: TokenId, m: Member)
    requires Inv(s)
    requires t in s.member && m.externalAccounts == s.member[t].externalAccounts
    ensures Linked(s, t, m)
  {
  }

  /** It stays linked when a pending recovery is dropped and the token moves. */
  lemma MovedLinked(s: State, s': State, t: TokenId, from: Option<Address>, to: Address, m: Member)
    requires Inv(s)
    requires SetOwner(DropRecovery(s, t), t, from, to) == Ok(s')
    requires t in s.member && m.externalAccounts == s.member[t].externalAccounts
    ensures Linked(s', t, m)
  {
  }

  /** And when its address is released. */
  lemma ReleasedLinked(s: State, s': State, t: TokenId, from: Address, m: Member)
    requires Inv(s)
    requires s' == RemoveOwner(DropRecovery(s, t), t, from)
    requires t in s.member && m.externalAccounts == s.member[t].externalAccounts
    ensures Linked(s', t, m)
  {
  }

  /** A record whose accounts were just bound is linked. */
  lemma BoundLinked(s: State, t: TokenId, m: Member)
    requires t in s.owner ==> s.owner[t] in s.tokenOf
    ensures Linked(s.(account := Bind(s.account, t, m.externalAccounts)), t, m)
  {
  }

  lemma SetOwnerLinks(s: State, t: TokenId, from: Option<Address>, to: Address)
    ensures SetOwner(s, t, from, to).Ok? ==>
              var s' := SetOwner(s, t, from, to).value;
              t in s'.owner && s'.owner[t] in s'.tokenOf
  {
  }

  lemma AppendAssociative(l: seq<Event>, a: seq<Event>, b: seq<Event>)
    ensures (l + a) + b == l + (a + b)
  {
  }

  lemma OwnedStored(s: State, t: TokenId)
    requires Inv(s)
    ensures t in s.owner ==> t in s.member && s.owner[t] in s.tokenOf
  {
  }

  /**
   * A call that started from `s` and `published` returned `r` and left `s'` and
   * `log`, as the transition function says. On an error the storage is not
   * spoken for: the host is about to restore it.
   */
  ghost predicate Performed(s: State, published: seq<Event>, tx: Tx, r: Result<Option<TokenId>>, s': State,
                            log: seq<Event>)
  {
    match Step(s, tx)
    case Ok(effect) => r == Ok(effect.returned) && s' == effect.state && log == published + effect.events
    case Err(error) => r == Err(error)
  }

  /** The host keeps a time to live for exactly the persistent entries that exist. */
  ghost predicate TtlTracks(s: State, ttl: map<MemberKey, nat>) {
    && (forall t :: OwnerKey(t) in ttl <==> t in s.owner)
    && (forall a :: TokenOfKey(a) in ttl <==> a in s.tokenOf)
    && (forall t :: MemberRecordKey(t) in ttl <==> t in s.member)
    && (forall k :: ReservedKey(k) in ttl <==> k in s.account)
    && (forall t :: RecoveryKey(t) in ttl <==> t in s.recovery)
  }

  /** The instance settings have no bearing on it. */
  lemma SettingsTrack(s: State, s': State, ttl: map<MemberKey, nat>)
    requires TtlTracks(s, ttl)
    requires s.owner == s'.owner && s.tokenOf == s'.tokenOf && s.member == s'.member
    requires s.account == s'.account && s.recovery == s'.recovery
    ensures TtlTracks(s', ttl)
  {
  }

  lemma ExtendMemberPerformed(s: State, log: seq<Event>, tx: Tx)
    requires tx.call.ExtendMember?
    ensures var r := if tx.call.token in s.member then Ok(None) else Err(NonExistentToken);
            Performed(s, log, tx, r, s, log)
  {
  }

  ghost function ReservedKeys(e: ExternalAccounts): set<MemberKey> {
    set a | a in e.accounts :: ReservedKey(AccountKey(a.provider, a.id))
  }

  /** The keys of the entries a record is linked to: its address both ways, the accounts it reserves. */
  ghost function LinkKeys(s: State, t: TokenId, m: Member): set<MemberKey> {
    (if t in s.owner then {OwnerKey(t), TokenOfKey(s.owner[t])} else {}) + ReservedKeys(m.externalAccounts)
  }

  /** The keys of all entries bound to `t`: its record and its links. */
  ghost function BoundKeys(s: State, t: TokenId): set<MemberKey> {
    {MemberRecordKey(t)} + if t in s.member then LinkKeys(s, t, s.member[t]) else {}
  }

  /** The life an entry has once written: given on creation, extended when below the threshold. */
  function Life(e: Env, before: map<MemberKey, nat>, k: MemberKey): nat {
    Extended(e, if k in before then before[k] else e.sequence + e.minTtl)
  }

  /**
   * What is left of the entries `before`, and what was created: those under
   * `keys` exist and live as if just written, and every other lives as it did.
   */
  ghost predicate Renews(e: Env, before: map<MemberKey, nat>, after: map<MemberKey, nat>, keys: set<MemberKey>) {
    && keys <= after.Keys
    && forall k :: k in after ==>
         if k in keys then after[k] == Life(e, before, k) else k in before && after[k] == before[k]
  }

  /**
   * What being renewed means: an entry with 30 days of ledgers left keeps its
   * life, one with less is given 120, and so is a new one, unless the host
   * gives it 30 or more by itself.
   */
  lemma RenewedLife(e: Env, before: map<MemberKey, nat>, after: map<MemberKey, nat>, keys: set<MemberKey>, k: MemberKey)
    requires Renews(e, before, after, keys) && k in keys
    ensures k in after && after[k] >= e.sequence + 518_400
    ensures var had := if k in before then before[k] else e.sequence + e.minTtl;
            after[k] == if had < e.sequence + 518_400 then e.sequence + 2_073_600 else had
  {
  }

  lemma RenewsErased(e: Env, before: map<MemberKey, nat>, erased: set<MemberKey>)
    ensures Renews(e, before, before - erased, {})
  {
  }

  /** One more entry extended where it stands, for the first time or again. */
  lemma RenewsOneMore(e: Env, before: map<MemberKey, nat>, mid: map<MemberKey, nat>, after: map<MemberKey, nat>,
                      keys: set<MemberKey>, k: MemberKey)
    requires Renews(e, before, mid, keys) && mid.Keys == before.Keys && k in mid
    requires after == mid[k := Extended(e, mid[k])]
    ensures Renews(e, before, after, keys + {k})
  {
  }

  /** One entry written, others extended. */
  lemma RenewsBoth(e: Env, before: map<MemberKey, nat>, mid: map<MemberKey, nat>, after: map<MemberKey, nat>,
                   k: MemberKey, others: set<MemberKey>)
    requires Renews(e, before, mid, {k}) && Renews(e, mid, after, others) && k in after
    requires forall j :: j in others && j in before ==> j in mid
    ensures Renews(e, before, after, {k} + others)
  {
  }

  /** Two steps in a row, the second of which reaches all that the first did. */
  lemma RenewsThen(e: Env, before: map<MemberKey, nat>, mid: map<MemberKey, nat>, after: map<MemberKey, nat>,
                   first: set<MemberKey>, second: set<MemberKey>)
    requires Renews(e, before, mid, first) && Renews(e, mid, after, second)
    requires first <= second && forall k :: k in second && k in before ==> k in mid
    ensures Renews(e, before, after, second)
  {
  }

  /** The entries bound to a stored token exist. */
  lemma BoundTracked(s: State, ttl: map<MemberKey, nat>, t: TokenId, m: Member)
    requires TtlTracks(s, ttl) && Linked(s, t, m)
    ensures LinkKeys(s, t, m) <= ttl.Keys
  {
    forall a | a in m.externalAccounts.accounts
      ensures ReservedKey(AccountKey(a.provider, a.id)) in ttl
    {
      assert KeyOf(a) in KeysOf(m.externalAccounts);
    }
  }

  /** Writing a record changes nothing about the links of a token. */
  lemma LinkKeysSaved(s: State, t: TokenId, m: Member)
    ensures LinkKeys(Model.SaveMember(s, t, m), t, m) == LinkKeys(s, t, m)
    ensures BoundKeys(Model.SaveMember(s, t, m), t) == {MemberRecordKey(t)} + LinkKeys(s, t, m)
  {
  }

  /** Steps that reach entries of `t`, then one that reaches them all. */
  lemma RenewsBound(e: Env, before: map<MemberKey, nat>, mid: map<MemberKey, nat>, after: map<MemberKey, nat>,
                    first: set<MemberKey>, s: State, t: TokenId, m: Member)
    requires TtlTracks(s, mid) && Linked(s, t, m) && t in s.member
    requires Renews(e, before, mid, first) && first <= BoundKeys(Model.SaveMember(s, t, m), t)
    requires Renews(e, mid, after, BoundKeys(Model.SaveMember(s, t, m), t))
    ensures Renews(e, before, after, BoundKeys(Model.SaveMember(s, t, m), t))
  {
    hide Renews, LinkKeys, Linked;
    BoundTracked(s, mid, t, m);
    LinkKeysSaved(s, t, m);
    RenewsThen(e, before, mid, after, first, BoundKeys(Model.SaveMember(s, t, m), t));
  }

  /** The entries a call is to renew, in the storage it leaves. */
  ghost function Reach(s: State, s': State, call: Call): set<MemberKey> {
    match call
    case ProposeRecovery(t, _) => {RecoveryKey(t)}
    case CancelRecovery(_, _) => {}
    case SetAdmin(_) => {}
    case SetAttester(_) => {}
    case SetNqgContract(_) => {}
    case Mint(_, _, _, _, _) => BoundKeys(s', s.nextTokenId)
    case _ => BoundKeys(s', call.token)
  }

  /** The lives a call starts from: accounts that are replaced are reserved anew. */
  ghost function Base(s: State, ttl: map<MemberKey, nat>, call: Call): map<MemberKey, nat> {
    if call.SetExternalAccounts? && call.token in s.member
    then ttl - ReservedKeys(s.member[call.token].externalAccounts) else ttl
  }

  lemma RenewsNothing(e: Env, lives: map<MemberKey, nat>)
    ensures Renews(e, lives, lives, {})
  {
  }

  /** One more entry created. */
  lemma RenewsNew(e: Env, before: map<MemberKey, nat>, mid: map<MemberKey, nat>, after: map<MemberKey, nat>,
                  keys: set<MemberKey>, k: MemberKey)
    requires Renews(e, before, mid, keys) && Renews(e, mid, after, {k})
    requires before.Keys <= mid.Keys && mid.Keys <= after.Keys && k !in mid
    ensures Renews(e, before, after, keys + {k})
  {
  }

  lemma NotTracked(s: State, ttl: map<MemberKey, nat>, k: AccountKey)
    requires TtlTracks(s, ttl) && k !in s.account
    ensures ReservedKey(k) !in ttl
  {
  }

  /** When accounts can be bound, field by field. */
  lemma BindableByField(bound: map<AccountKey, TokenId>, e: ExternalAccounts)
    ensures Bindable(bound, e) <==>
            && (forall a :: a in e.accounts ==> AccountKey(a.provider, a.id) !in bound)
            && (forall i, j :: 0 <= i < j < |e.accounts| ==>
                  !(e.accounts[i].provider == e.accounts[j].provider && e.accounts[i].id == e.accounts[j].id))
  {
  }

  lemma BoundByField(bound: map<AccountKey, TokenId>, t: TokenId, e: ExternalAccounts)
    ensures forall k :: Get(Bind(bound, t, e), k) == if Names(e, k) then Some(t) else Get(bound, k)
  {
    hide KeysOf, Names;
    KeysAreNamed(e);
  }

  /** What was erased on the way makes no difference to entries that are not among the erased. */
  lemma RenewsFromErased(e: Env, before: map<MemberKey, nat>, erased: set<MemberKey>, after: map<MemberKey, nat>,
                         keys: set<MemberKey>)
    requires Renews(e, before - erased, after, keys) && erased !! keys
    ensures Renews(e, before, after, keys)
  {
  }

  lemma MovedReaches(s: State, t: TokenId, to: Address, m: Member)
    requires Get(s.owner, t) == Some(to)
    ensures {OwnerKey(t), TokenOfKey(to)} <= BoundKeys(Model.SaveMember(s, t, m), t)
    ensures RecoveryKey(t) !in BoundKeys(Model.SaveMember(s, t, m), t)
    ensures t in s.member && s.member[t] == m ==> Model.SaveMember(s, t, m) == s
  {
    assert t in s.member && s.member[t] == m ==> s.member[t := m] == s.member;
  }

  lemma ReservedBound(s: State, t: TokenId, m: Member)
    ensures ReservedKeys(m.externalAccounts) <= BoundKeys(Model.SaveMember(s, t, m), t)
  {
  }

  lemma MintReaches(s: State, t: TokenId, to: Address, m: Member)
    requires Get(s.owner, t) == Some(to)
    ensures {OwnerKey(t), TokenOfKey(to)} <= BoundKeys(Model.SaveMember(s, t, m), t)
    ensures ReservedKeys(m.externalAccounts) <= BoundKeys(Model.SaveMember(s, t, m), t)
  {
    MovedReaches(s, t, to, m);
    ReservedBound(s, t, m);
  }

  /** Owner first, then accounts, then the record: all of the entries of a new token are as if just written. */
  lemma MintRenews(e: Env, before: map<MemberKey, nat>, owned: map<MemberKey, nat>, bindings: map<MemberKey, nat>,
                   after: map<MemberKey, nat>, s: State, t: TokenId, to: Address, m: Member)
    requires Get(s.owner, t) == Some(to)
    requires before.Keys <= owned.Keys && Renews(e, before, owned, {OwnerKey(t), TokenOfKey(to)})
    requires owned.Keys <= bindings.Keys && Renews(e, owned, bindings, ReservedKeys(m.externalAccounts))
    requires Renews(e, bindings, after, BoundKeys(Model.SaveMember(s, t, m), t))
    ensures Renews(e, before, after, BoundKeys(Model.SaveMember(s, t, m), t))
  {
    hide Renews, BoundKeys, ReservedKeys;
    var keys := BoundKeys(Model.SaveMember(s, t, m), t);
    MintReaches(s, t, to, m);
    RenewsThen(e, owned, bindings, after, ReservedKeys(m.externalAccounts), keys);
    RenewsThen(e, before, owned, after, {OwnerKey(t), TokenOfKey(to)}, keys);
  }

  lemma NothingErasedBound(s: State, t: TokenId, m: Member, from: Address)
    requires t !in s.owner
    ensures {RecoveryKey(t), OwnerKey(t), TokenOfKey(from)} !! BoundKeys(Model.SaveMember(s, t, m), t)
  {
  }

  lemma LinkedSaved(s: State, t: TokenId, m: Member)
    requires Linked(s, t, m)
    ensures Linked(Model.SaveMember(s, t, m), t, m)
  {
  }

  lemma ReservedNone(accounts: seq<SocialAccount>)
    ensures ReservedKeys(Prefix(accounts, 0)) == {}
  {
  }

  lemma ReservedSnoc(accounts: seq<SocialAccount>, i: nat)
    requires i < |accounts|
    ensures ReservedKeys(Prefix(accounts, i + 1)) ==
            ReservedKeys(Prefix(accounts, i)) + {ReservedKey(AccountKey(accounts[i].provider, accounts[i].id))}
  {
  }

  lemma ReservedAll(e: ExternalAccounts)
    ensures ReservedKeys(Prefix(e.accounts, |e.accounts|)) == ReservedKeys(e)
  {
    assert e.accounts[..|e.accounts|] == e.accounts;
  }

  class StellarMembership {
    /** Instance settings and persistent entries. */
    var storage: State
    /** The ledger each persistent entry lives up to. */
    var ttl: map<MemberKey, nat>
    /** The published events. */
    var log: seq<Event>

    /** Name, symbol, and the URIs of tokens and traits: written once, with no setter. */
    const name: Text
    const symbol: Text
    const uri: Text
    const uriTrait: Text

    ghost var genesis: State
    ghost var history: seq<Tx>

    /** The object is where the transactions invoked so far lead. */
    ghost predicate Valid()
      reads this
    {
      && IsGenesis(genesis)
      && storage == StateAt(genesis, history, |history|)
      && log == LogAt(genesis, history, |history|)
      && TtlTracks(storage, ttl)
    }

    constructor (admin: Address, attester: Address, name: Text, symbol: Text, uri: Text, uriTrait: Text,
                 nqgContract: Address)
      ensures Valid() && history == [] && log == [] && ttl == map[]
      ensures storage == Constructed(admin, attester, nqgContract) && genesis == storage
      ensures this.name == name && this.symbol == symbol && this.uri == uri && this.uriTrait == uriTrait
    {
      this.name, this.symbol, this.uri, this.uriTrait := name, symbol, uri, uriTrait;
      storage := Constructed(admin, attester, nqgContract);
      ttl, log := map[], [];
      genesis, history := Constructed(admin, attester, nqgContract), [];
    }

    // -------------------------------------------------------------- entries

    method WriteOwner(e: Env, t: TokenId, a: Address)
      requires TtlTracks(storage, ttl)
      modifies `storage, `ttl
      ensures TtlTracks(storage, ttl)
      ensures storage == old(storage).(owner := old(storage).owner[t := a])
      ensures ttl.Keys == old(ttl).Keys + {OwnerKey(t)}
      ensures Renews(e, old(ttl), ttl, {OwnerKey(t)})
    {
      storage := storage.(owner := storage.owner[t := a]);
      ttl := ttl[OwnerKey(t) := Life(e, ttl, OwnerKey(t))];
    }

    method WriteTokenOf(e: Env, a: Address, t: TokenId)
      requires TtlTracks(storage, ttl)
      modifies `storage, `ttl
      ensures TtlTracks(storage, ttl)
      ensures storage == old(storage).(tokenOf := old(storage).tokenOf[a := t])
      ensures ttl.Keys == old(ttl).Keys + {TokenOfKey(a)}
      ensures Renews(e, old(ttl), ttl, {TokenOfKey(a)})
    {
      storage := storage.(tokenOf := storage.tokenOf[a := t]);
      ttl := ttl[TokenOfKey(a) := Life(e, ttl, TokenOfKey(a))];
    }

    method WriteMember(e: Env, t: TokenId, m: Member)
      requires TtlTracks(storage, ttl)
      modifies `storage, `ttl
      ensures TtlTracks(storage, ttl)
      ensures storage == old(storage).(member := old(storage).member[t := m])
      ensures ttl.Keys == old(ttl).Keys + {MemberRecordKey(t)}
      ensures Renews(e, old(ttl), ttl, {MemberRecordKey(t)})
    {
      storage := storage.(member := storage.member[t := m]);
      ttl := ttl[MemberRecordKey(t) := Life(e, ttl, MemberRecordKey(t))];
    }

    method WriteAccount(e: Env, k: AccountKey, t: TokenId)
      requires TtlTracks(storage, ttl)
      modifies `storage, `ttl
      ensures TtlTracks(storage, ttl)
      ensures storage == old(storage).(account := old(storage).account[k := t])
      ensures ttl.Keys == old(ttl).Keys + {ReservedKey(k)}
      ensures Renews(e, old(ttl), ttl, {ReservedKey(k)})
    {
      storage := storage.(account := storage.account[k := t]);
      ttl := ttl[ReservedKey(k) := Life(e, ttl, ReservedKey(k))];
    }

    method WriteRecovery(e: Env, t: TokenId, request: RecoveryRequest)
      requires TtlTracks(storage, ttl)
      modifies `storage, `ttl
      ensures TtlTracks(storage, ttl)
      ensures storage == old(storage).(recovery := old(storage).recovery[t := request])
      ensures ttl.Keys == old(ttl).Keys + {RecoveryKey(t)}
      ensures Renews(e, old(ttl), ttl, {RecoveryKey(t)})
    {
      storage := storage.(recovery := storage.recovery[t := request]);
      ttl := ttl[RecoveryKey(t) := Life(e, ttl, RecoveryKey(t))];
    }

    method EraseOwner(t: TokenId)
      requires TtlTracks(storage, ttl)
      modifies `storage, `ttl
      ensures TtlTracks(storage, ttl)
      ensures storage == old(storage).(owner := old(storage).owner - {t})
      ensures ttl == old(ttl) - {OwnerKey(t)}
    {
      storage := storage.(owner := storage.owner - {t});
      ttl := ttl - {OwnerKey(t)};
    }

    method EraseTokenOf(a: Address)
      requires TtlTracks(storage, ttl)
      modifies `storage, `ttl
      ensures TtlTracks(storage, ttl)
      ensures storage == old(storage).(tokenOf := old(storage).tokenOf - {a})
      ensures ttl == old(ttl) - {TokenOfKey(a)}
    {
      storage := storage.(tokenOf := storage.tokenOf - {a});
      ttl := ttl - {TokenOfKey(a)};
    }

    method EraseAccount(k: AccountKey)
      requires TtlTracks(storage, ttl)
      modifies `storage, `ttl
      ensures TtlTracks(storage, ttl)
      ensures storage == old(storage).(account := old(storage).account - {k})
      ensures ttl == old(ttl) - {ReservedKey(k)}
    {
      storage := storage.(account := storage.account - {k});
      ttl := ttl - {ReservedKey(k)};
    }

    method EraseRecovery(t: TokenId)
      requires TtlTracks(storage, ttl)
      modifies `storage, `ttl
      ensures TtlTracks(storage, ttl)
      ensures storage == old(storage).(recovery := old(storage).recovery - {t})
      ensures ttl == old(ttl) - {RecoveryKey(t)}
    {
      storage := storage.(recovery := storage.recovery - {t});
      ttl := ttl - {RecoveryKey(t)};
    }

    /** The host traps when the entry does not exist, so its existence is demanded here. */
    method ExtendTtl(e: Env, k: MemberKey)
      requires k in ttl
      modifies `ttl
      ensures ttl == old(ttl)[k := Extended(e, old(ttl)[k])]
    {
      ttl := ttl[k := Extended(e, ttl[k])];
    }

    // -------------------------------------------------------------- helpers

    /** Renews the entries the record `m` of `t` is linked to, and no other. */
    method ExtendLinks(e: Env, t: TokenId, m: Member)
      requires TtlTracks(storage, ttl) && Linked(storage, t, m)
      modifies `ttl
      ensures TtlTracks(storage, ttl)
      ensures ttl.Keys == old(ttl).Keys
      ensures Renews(e, old(ttl), ttl, LinkKeys(storage, t, m))
    {
      hide KeysOf, ReservedKeys, Extended;
      ghost var before := ttl;
      ghost var owned: set<MemberKey> := {};
      if t in storage.owner {
        ExtendTtl(e, OwnerKey(t));
        ExtendTtl(e, TokenOfKey(storage.owner[t]));
        owned := {OwnerKey(t), TokenOfKey(storage.owner[t])};
      }
      var accounts := m.externalAccounts.accounts;
      ReservedNone(accounts);
      for i := 0 to |accounts|
        invariant ttl.Keys == before.Keys
        invariant Renews(e, before, ttl, owned + ReservedKeys(Prefix(accounts, i)))
      {
        KeysOfHas(m.externalAccounts, i);
        ReservedSnoc(accounts, i);
        ghost var mid := ttl;
        ExtendTtl(e, ReservedKey(KeyOf(accounts[i])));
        RenewsOneMore(e, before, mid, ttl, owned + ReservedKeys(Prefix(accounts, i)), ReservedKey(KeyOf(accounts[i])));
        assert owned + ReservedKeys(Prefix(accounts, i + 1)) ==
               owned + ReservedKeys(Prefix(accounts, i)) + {ReservedKey(KeyOf(accounts[i]))};
      }
      ReservedAll(m.externalAccounts);
    }

    /** `m` is the record of `t`; all entries bound to the token are renewed, and no other. */
    method SaveMember(e: Env, t: TokenId, m: Member)
      requires TtlTracks(storage, ttl) && Linked(storage, t, m)
      modifies `storage, `ttl
      ensures TtlTracks(storage, ttl) && t in storage.member
      ensures Renews(e, old(ttl), ttl, BoundKeys(storage, t))
      ensures storage == Model.SaveMember(old(storage), t, m)
    {
      hide TtlTracks, Linked, KeysOf, Renews, LinkKeys;
      ghost var s, before := storage, ttl;
      WriteMember(e, t, m);
      ghost var mid := ttl;
      LinkKeysSaved(s, t, m);
      LinkedSaved(s, t, m);
      ExtendLinks(e, t, m);
      RenewsBoth(e, before, mid, ttl, MemberRecordKey(t), LinkKeys(s, t, m));
    }

    method SetOwner(e: Env, t: TokenId, from: Option<Address>, to: Address) returns (r: Check)
      requires TtlTracks(storage, ttl)
      modifies `storage, `ttl
      ensures TtlTracks(storage, ttl)
      ensures match Model.SetOwner(old(storage), t, from, to)
              case Ok(s') =>
                && r == Pass && storage == s'
                && Renews(e, old(ttl), ttl, {OwnerKey(t), TokenOfKey(to)})
                && (from.None? ==> old(ttl).Keys <= ttl.Keys)
              case Err(error) => r == Fail(error)
    {
      if to in storage.tokenOf {
        return Fail(MemberAlreadyExist);
      }
      assert TokenOfKey(to) !in ttl;
      hide TtlTracks, Extended;
      if from.Some? {
        EraseTokenOf(from.value);
      }
      WriteOwner(e, t, to);
      WriteTokenOf(e, to, t);
      return Pass;
    }

    method RemoveOwner(t: TokenId, from: Address)
      requires TtlTracks(storage, ttl)
      modifies `storage, `ttl
      ensures TtlTracks(storage, ttl)
      ensures storage == Model.RemoveOwner(old(storage), t, from)
      ensures ttl == old(ttl) - {OwnerKey(t), TokenOfKey(from)}
    {
      hide TtlTracks;
      EraseOwner(t);
      EraseTokenOf(from);
    }

    /** Whatever was pending for `t` is gone and announced as cancelled; `pending` tells whether anything was. */
    method DropPending(t: TokenId) returns (pending: bool)
      requires TtlTracks(storage, ttl)
      modifies `storage, `ttl, `log
      ensures TtlTracks(storage, ttl)
      ensures pending <==> t in old(storage).recovery
      ensures storage == DropRecovery(old(storage), t)
      ensures ttl == old(ttl) - {RecoveryKey(t)}
      ensures log == old(log) + if pending then [RecoveryCancelled(t)] else []
    {
      assert t !in storage.recovery ==> ttl - {RecoveryKey(t)} == ttl;
      hide TtlTracks;
      pending := t in storage.recovery;
      if pending {
        EraseRecovery(t);
        log := log + [RecoveryCancelled(t)];
      } else {
        assert storage.recovery - {t} == storage.recovery;
      }
    }

    method BindAccounts(e: Env, t: TokenId, external: ExternalAccounts) returns (r: Check)
      requires TtlTracks(storage, ttl)
      modifies `storage, `ttl
      ensures TtlTracks(storage, ttl)
      ensures r == if Bindable(old(storage).account, external) then Pass else Fail(AccountAlreadyBound)
      ensures r.Pass? ==> storage == old(storage).(account := Bind(old(storage).account, t, external))
      ensures r.Pass? ==> old(ttl).Keys <= ttl.Keys && Renews(e, old(ttl), ttl, ReservedKeys(external))
      ensures r.Pass? ==> forall k :: Get(storage.account, k) ==
                                      if Names(external, k) then Some(t) else Get(old(storage).account, k)
      ensures r.Fail? <==>
              || (exists a :: a in external.accounts && AccountKey(a.provider, a.id) in old(storage).account)
              || (exists i, j :: && 0 <= i < j < |external.accounts|
                                 && external.accounts[i].provider == external.accounts[j].provider
                                 && external.accounts[i].id == external.accounts[j].id)
    {
      hide TtlTracks, Bindable, Bind, KeysOf, Renews, ReservedKeys, Names;
      var accounts := external.accounts;
      ghost var before := storage.account;
      ghost var lives := ttl;
      BindNone(before, t);
      ReservedNone(accounts);
      RenewsNothing(e, lives);
      BindableByField(before, external);
      BoundByField(before, t, external);
      for i := 0 to |accounts|
        invariant TtlTracks(storage, ttl)
        invariant Bindable(before, Prefix(accounts, i))
        invariant storage == old(storage).(account := Bind(before, t, Prefix(accounts, i)))
        invariant lives.Keys <= ttl.Keys && Renews(e, lives, ttl, ReservedKeys(Prefix(accounts, i)))
      {
        var key := KeyOf(accounts[i]);
        if key in storage.account {
          BoundTwice(before, t, external, i);
          return Fail(AccountAlreadyBound);
        }
        BindSnoc(before, t, accounts, i);
        ReservedSnoc(accounts, i);
        NotTracked(storage, ttl, key);
        ghost var mid := ttl;
        WriteAccount(e, key, t);
        RenewsNew(e, lives, mid, ttl, ReservedKeys(Prefix(accounts, i)), ReservedKey(key));
      }
      BindAll(before, t, external);
      ReservedAll(external);
      return Pass;
    }

    method UnbindAccounts(external: ExternalAccounts)
      requires TtlTracks(storage, ttl)
      modifies `storage, `ttl
      ensures TtlTracks(storage, ttl)
      ensures storage == old(storage).(account := old(storage).account - KeysOf(external))
      ensures forall k :: Get(storage.account, k) == if Names(external, k) then None else Get(old(storage).account, k)
      ensures ttl == old(ttl) - ReservedKeys(external)
    {
      hide TtlTracks, KeysOf, ReservedKeys, Names;
      var accounts := external.accounts;
      ghost var before := storage.account;
      KeysOfNone();
      ReservedNone(accounts);
      KeysAreNamed(external);
      for i := 0 to |accounts|
        invariant TtlTracks(storage, ttl)
        invariant storage == old(storage).(account := before - KeysOf(Prefix(accounts, i)))
        invariant ttl == old(ttl) - ReservedKeys(Prefix(accounts, i))
      {
        KeysOfSnoc(accounts, i);
        ReservedSnoc(accounts, i);
        EraseAccount(KeyOf(accounts[i]));
      }
      KeysOfAll(external);
      ReservedAll(external);
    }

    // --------------------------------------------------------- entry points

    method Mint(e: Env, to: Address, role: Role, external: ExternalAccounts, bio: Text, projects: seq<Text>)
      returns (r: Result<Option<TokenId>>)
      requires Inv(storage) && TtlTracks(storage, ttl)
      requires e.tx.call == Call.Mint(to, role, external, bio, projects)
      modifies `storage, `ttl, `log
      ensures Performed(old(storage), old(log), e.tx, r, storage, log)
      ensures r.Ok? ==>
                TtlTracks(storage, ttl) && Renews(e, old(ttl), ttl, BoundKeys(storage, old(storage).nextTokenId))
      ensures r.Ok? ==>
                && r.value == Some(old(storage).nextTokenId) && old(storage).nextTokenId !in old(storage).member
                && Get(storage.owner, old(storage).nextTokenId) == Some(to)
    {
      hide Inv, ValidProjects, TtlTracks, Renews, BoundKeys, KeysOf, Bindable, Bind, CheckAccounts,
        ValidAccounts, Linked, Names;
      ghost var s := storage;
      ghost var before := ttl;
      NextIsFresh(s);
      :- Need(e.tx.Signed(to), MissingAuth);
      :- Need(e.tx.Attested(storage.attester), MissingAuth);

      var valid := ValidateAccounts(external);
      :- valid;
      :- Need(|bio| <= MAX_BIO_LEN, InvalidLength);
      valid := ValidateProjects(projects);
      :- valid;

      var t := storage.nextTokenId;
      :- Need(t < U32_MAX, Overflow);
      storage := storage.(nextTokenId := t + 1);
      SettingsTrack(s, storage, ttl);

      var moved := SetOwner(e, t, None, to);
      :- moved;
      ghost var owned, ownedTtl := storage, ttl;
      SetOwnerLinks(s.(nextTokenId := t + 1), t, None, to);
      var bound := BindAccounts(e, t, external);
      :- bound;
      var m := Member(Active, role, external, bio, projects);
      BoundLinked(owned, t, m);
      ghost var bindings, boundTtl := storage, ttl;
      SaveMember(e, t, m);
      MintRenews(e, before, ownedTtl, boundTtl, ttl, bindings, t, to, m);

      log := log + [Minted(t, to, role, external, bio, projects)];
      return Ok(Some(t));
    }

    method Revoke(e: Env, t: TokenId) returns (r: Result<Option<TokenId>>)
      requires Inv(storage) && TtlTracks(storage, ttl)
      requires e.tx.call == Call.Revoke(t)
      modifies `storage, `ttl, `log
      ensures Performed(old(storage), old(log), e.tx, r, storage, log)
      ensures r.Ok? ==> TtlTracks(storage, ttl) && Renews(e, old(ttl), ttl, BoundKeys(storage, t))
    {
      hide Inv, ValidProjects, TtlTracks, Renews, BoundKeys, KeysOf, Bindable, Bind, CheckAccounts,
        ValidAccounts, Linked, Names;
      ghost var s := storage;
      :- Need(e.tx.Signed(storage.admin), MissingAuth);

      var from :- OwnerOf(storage, t);
      var m :- MemberOf(storage, t);

      var _ := DropPending(t);
      RemoveOwner(t, from);
      m := m.(status := Revoked);
      ReleasedLinked(s, storage, t, from, m);
      ghost var released := storage;
      ghost var erased := {RecoveryKey(t), OwnerKey(t), TokenOfKey(from)};
      assert ttl == old(ttl) - erased;
      SaveMember(e, t, m);
      NothingErasedBound(released, t, m, from);
      RenewsFromErased(e, old(ttl), erased, ttl, BoundKeys(storage, t));

      AppendAssociative(old(log), Cancellation(s, t), [RevokedEvent(t, from)]);
      log := log + [RevokedEvent(t, from)];
      return Ok(None);
    }

    method SetRole(e: Env, t: TokenId, role: Role) returns (r: Result<Option<TokenId>>)
      requires Inv(storage) && TtlTracks(storage, ttl)
      requires e.tx.call == Call.SetRole(t, role)
      modifies `storage, `ttl, `log
      ensures Performed(old(storage), old(log), e.tx, r, storage, log)
      ensures r.Ok? ==> TtlTracks(storage, ttl) && Renews(e, old(ttl), ttl, BoundKeys(storage, t))
    {
      hide Inv, ValidProjects, TtlTracks, Renews, BoundKeys, KeysOf, Bindable, Bind, CheckAccounts,
        ValidAccounts, Linked, Names;
      ghost var s := storage;
      :- Need(e.tx.Signed(storage.admin), MissingAuth);
      // for its errors alone: an id never minted, a revoked token
      var _ :- OwnerOf(storage, t);

      var m :- MemberOf(storage, t);
      m := m.(role := role);
      StoredLinked(s, t, m);
      SaveMember(e, t, m);

      log := log + [RoleSet(t, role)];
      return Ok(None);
    }

    method SetExternalAccounts(e: Env, t: TokenId, external: ExternalAccounts) returns (r: Result<Option<TokenId>>)
      requires Inv(storage) && TtlTracks(storage, ttl)
      requires e.tx.call == Call.SetExternalAccounts(t, external)
      modifies `storage, `ttl, `log
      ensures Performed(old(storage), old(log), e.tx, r, storage, log)
      ensures r.Ok? ==>
                TtlTracks(storage, ttl)
                && Renews(e, Base(old(storage), old(ttl), e.tx.call), ttl, BoundKeys(storage, t))
    {
      hide Inv, ValidProjects, TtlTracks, Renews, BoundKeys, KeysOf, Bindable, Bind, CheckAccounts,
        ValidAccounts, Linked, Names;
      ghost var s := storage;
      var from :- OwnerOf(storage, t);
      :- Need(e.tx.Signed(from), MissingAuth);
      :- Need(e.tx.Signed(storage.attester), MissingAuth);

      var valid := ValidateAccounts(external);
      :- valid;

      var m :- MemberOf(storage, t);
      OwnedStored(s, t);
      UnbindAccounts(m.externalAccounts);
      ghost var freed, freedTtl := storage, ttl;
      OwnedStored(s, t);
      var bound := BindAccounts(e, t, external);
      :- bound;
      m := m.(externalAccounts := external);
      BoundLinked(freed, t, m);
      ghost var bindings, boundTtl := storage, ttl;
      SaveMember(e, t, m);
      ReservedBound(bindings, t, m);
      RenewsThen(e, freedTtl, boundTtl, ttl, ReservedKeys(external), BoundKeys(storage, t));

      log := log + [ExternalAccountsSet(t, external)];
      return Ok(None);
    }

    method SetBio(e: Env, caller: Address, t: TokenId, bio: Text) returns (r: Result<Option<TokenId>>)
      requires Inv(storage) && TtlTracks(storage, ttl)
      requires e.tx.call == Call.SetBio(caller, t, bio)
      modifies `storage, `ttl, `log
      ensures Performed(old(storage), old(log), e.tx, r, storage, log)
      ensures r.Ok? ==> TtlTracks(storage, ttl) && Renews(e, old(ttl), ttl, BoundKeys(storage, t))
    {
      hide Inv, ValidProjects, TtlTracks, Renews, BoundKeys, KeysOf, Bindable, Bind, CheckAccounts,
        ValidAccounts, Linked, Names;
      ghost var s := storage;
      var _ :- AuthOwnerOrAdmin(storage, e.tx, caller, t);
      :- Need(|bio| <= MAX_BIO_LEN, InvalidLength);

      var m :- MemberOf(storage, t);
      m := m.(bio := bio);
      StoredLinked(s, t, m);
      SaveMember(e, t, m);

      log := log + [BioSet(t, bio)];
      return Ok(None);
    }

    method SetProjects(e: Env, caller: Address, t: TokenId, projects: seq<Text>) returns (r: Result<Option<TokenId>>)
      requires Inv(storage) && TtlTracks(storage, ttl)
      requires e.tx.call == Call.SetProjects(caller, t, projects)
      modifies `storage, `ttl, `log
      ensures Performed(old(storage), old(log), e.tx, r, storage, log)
      ensures r.Ok? ==> TtlTracks(storage, ttl) && Renews(e, old(ttl), ttl, BoundKeys(storage, t))
    {
      hide Inv, ValidProjects, TtlTracks, Renews, BoundKeys, KeysOf, Bindable, Bind, CheckAccounts,
        ValidAccounts, Linked, Names;
      ghost var s := storage;
      var _ :- AuthOwnerOrAdmin(storage, e.tx, caller, t);
      var valid := ValidateProjects(projects);
      :- valid;

      var m :- MemberOf(storage, t);
      m := m.(projects := projects);
      StoredLinked(s, t, m);
      SaveMember(e, t, m);

      log := log + [ProjectsSet(t, projects)];
      return Ok(None);
    }

    /** Renews all entries bound to the token, or fails without a record; needs no signature. */
    method ExtendMember(e: Env, t: TokenId) returns (r: Result<Option<TokenId>>)
      requires TtlTracks(storage, ttl)
      requires t in storage.member ==> Linked(storage, t, storage.member[t])
      modifies `ttl
      ensures r == if t in storage.member then Ok(None) else Err(NonExistentToken)
      ensures r.Ok? ==> TtlTracks(storage, ttl) && Renews(e, old(ttl), ttl, BoundKeys(storage, t))
    {
      // an id without a record stops here, ahead of `ExtendTtl`, which demands an entry
      var m :- MemberOf(storage, t);
      ghost var before := ttl;
      ExtendTtl(e, MemberRecordKey(t));
      ghost var mid := ttl;
      ExtendLinks(e, t, m);
      RenewsBoth(e, before, mid, ttl, MemberRecordKey(t), LinkKeys(storage, t, m));
      return Ok(None);
    }

    method RotateKey(e: Env, t: TokenId, newAddress: Address) returns (r: Result<Option<TokenId>>)
      requires Inv(storage) && TtlTracks(storage, ttl)
      requires e.tx.call == Call.RotateKey(t, newAddress)
      modifies `storage, `ttl, `log
      ensures Performed(old(storage), old(log), e.tx, r, storage, log)
      ensures r.Ok? ==> TtlTracks(storage, ttl) && Renews(e, old(ttl), ttl, BoundKeys(storage, t))
    {
      hide Inv, ValidProjects, TtlTracks, Renews, BoundKeys, KeysOf, Bindable, Bind, CheckAccounts,
        ValidAccounts, Linked, Names;
      ghost var s := storage;
      OwnedStored(s, t);
      var from :- OwnerOf(storage, t);
      :- Need(e.tx.Signed(from), MissingAuth);
      :- Need(e.tx.Signed(newAddress), MissingAuth);

      var _ := DropPending(t);
      ghost var dropped := ttl;
      var moved := SetOwner(e, t, Some(from), newAddress);
      :- moved;
      ghost var movedTtl := ttl;
      MovedLinked(s, storage, t, Some(from), newAddress, s.member[t]);
      var extended := ExtendMember(e, t);
      assert extended.Ok?;
      MovedReaches(storage, t, newAddress, s.member[t]);
      RenewsBound(e, dropped, movedTtl, ttl, {OwnerKey(t), TokenOfKey(newAddress)}, storage, t, s.member[t]);
      RenewsFromErased(e, old(ttl), {RecoveryKey(t)}, ttl, BoundKeys(storage, t));

      AppendAssociative(old(log), Cancellation(s, t), [KeyRotated(t, from, newAddress)]);
      log := log + [KeyRotated(t, from, newAddress)];
      return Ok(None);
    }

    method ProposeRecovery(e: Env, t: TokenId, newAddress: Address) returns (r: Result<Option<TokenId>>)
      requires TtlTracks(storage, ttl)
      requires e.tx.call == Call.ProposeRecovery(t, newAddress)
      modifies `storage, `ttl, `log
      ensures Performed(old(storage), old(log), e.tx, r, storage, log)
      ensures r.Ok? ==> TtlTracks(storage, ttl) && Renews(e, old(ttl), ttl, {RecoveryKey(t)})
    {
      hide Inv, ValidProjects, TtlTracks, Renews, BoundKeys, KeysOf, Bindable, Bind, CheckAccounts,
        ValidAccounts, Linked, Names;
      // for its errors alone: an id never minted, a revoked token
      var _ :- OwnerOf(storage, t);
      :- Need(e.tx.Signed(storage.attester), MissingAuth);
      :- Need(e.tx.Signed(newAddress), MissingAuth);

      if t in storage.recovery {
        return Err(RecoveryPending);
      }
      if newAddress in storage.tokenOf {
        return Err(MemberAlreadyExist);
      }

      :- Need(e.tx.timestamp + RECOVERY_DELAY <= U64_MAX, Overflow);
      var executableAt := e.tx.timestamp + RECOVERY_DELAY;
      WriteRecovery(e, t, RecoveryRequest(storage.attester, newAddress, executableAt));

      log := log + [RecoveryProposed(t, newAddress, executableAt)];
      return Ok(None);
    }

    method CancelRecovery(e: Env, caller: Address, t: TokenId) returns (r: Result<Option<TokenId>>)
      requires TtlTracks(storage, ttl)
      requires e.tx.call == Call.CancelRecovery(caller, t)
      modifies `storage, `ttl, `log
      ensures Performed(old(storage), old(log), e.tx, r, storage, log)
      ensures r.Ok? ==> TtlTracks(storage, ttl) && Renews(e, old(ttl), ttl, {})
    {
      hide Inv, ValidProjects, TtlTracks, Renews, BoundKeys, KeysOf, Bindable, Bind, CheckAccounts,
        ValidAccounts, Linked, Names;
      var _ :- AuthOwnerOrAdmin(storage, e.tx, caller, t);
      var pending := DropPending(t);
      if !pending {
        return Err(NoRecovery);
      }
      RenewsErased(e, old(ttl), {RecoveryKey(t)});
      return Ok(None);
    }

    method FinalizeRecovery(e: Env, t: TokenId) returns (r: Result<Option<TokenId>>)
      requires Inv(storage) && TtlTracks(storage, ttl)
      requires e.tx.call == Call.FinalizeRecovery(t)
      modifies `storage, `ttl, `log
      ensures Performed(old(storage), old(log), e.tx, r, storage, log)
      ensures r.Ok? ==> TtlTracks(storage, ttl) && Renews(e, old(ttl), ttl, BoundKeys(storage, t))
    {
      hide Inv, ValidProjects, TtlTracks, Renews, BoundKeys, KeysOf, Bindable, Bind, CheckAccounts,
        ValidAccounts, Linked, Names;
      ghost var s := storage;
      if t !in storage.recovery {
        return Err(NoRecovery);
      }
      PendingIsActive(s, t);
      var request := storage.recovery[t];
      // ahead of time the admin has to sign
      if e.tx.timestamp < request.executableAt {
        :- Need(e.tx.Signed(storage.admin), MissingAuth);
      }
      // only under the attester in the request, and only while the window is open
      if request.attester != storage.attester {
        return Err(AttesterChanged);
      }
      :- Need(request.executableAt + RECOVERY_DELAY <= U64_MAX, Overflow);
      if e.tx.timestamp >= request.executableAt + RECOVERY_DELAY {
        return Err(RecoveryExpired);
      }

      assert OwnerOf(storage, t).Ok?;
      var from := OwnerOf(storage, t).value;
      // nothing is published here: the event of the move stands for both
      EraseRecovery(t);
      ghost var dropped := ttl;
      var moved := SetOwner(e, t, Some(from), request.newAddress);
      :- moved;
      ghost var movedTtl := ttl;
      MovedLinked(s, storage, t, Some(from), request.newAddress, s.member[t]);
      var extended := ExtendMember(e, t);
      assert extended.Ok?;
      MovedReaches(storage, t, request.newAddress, s.member[t]);
      RenewsBound(e, dropped, movedTtl, ttl, {OwnerKey(t), TokenOfKey(request.newAddress)}, storage, t, s.member[t]);
      RenewsFromErased(e, old(ttl), {RecoveryKey(t)}, ttl, BoundKeys(storage, t));

      log := log + [Recovered(t, from, request.newAddress)];
      return Ok(None);
    }

    method Recover(e: Env, t: TokenId, newAddress: Address) returns (r: Result<Option<TokenId>>)
      requires Inv(storage) && TtlTracks(storage, ttl)
      requires e.tx.call == Call.Recover(t, newAddress)
      modifies `storage, `ttl, `log
      ensures Performed(old(storage), old(log), e.tx, r, storage, log)
      ensures r.Ok? ==> TtlTracks(storage, ttl) && Renews(e, old(ttl), ttl, BoundKeys(storage, t))
    {
      hide Inv, ValidProjects, TtlTracks, Renews, BoundKeys, KeysOf, Bindable, Bind, CheckAccounts,
        ValidAccounts, Linked, Names;
      ghost var s := storage;
      :- Need(e.tx.Signed(storage.admin), MissingAuth);

      var m :- MemberOf(storage, t);
      var from := if t in storage.owner then Some(storage.owner[t]) else None;

      var _ := DropPending(t);
      ghost var dropped := ttl;
      var moved := SetOwner(e, t, from, newAddress);
      :- moved;
      ghost var placed, movedTtl := storage, ttl;
      m := m.(status := Active);
      MovedLinked(s, storage, t, from, newAddress, m);
      SaveMember(e, t, m);
      MovedReaches(placed, t, newAddress, m);
      RenewsBound(e, dropped, movedTtl, ttl, {OwnerKey(t), TokenOfKey(newAddress)}, placed, t, m);
      RenewsFromErased(e, old(ttl), {RecoveryKey(t)}, ttl, BoundKeys(storage, t));
      assert storage == Step(s, e.tx).value.state;

      AppendAssociative(old(log), Cancellation(s, t), [AdminRecovered(t, from, newAddress)]);
      log := log + [AdminRecovered(t, from, newAddress)];
      return Ok(None);
    }

    method SetAdmin(e: Env, newAdmin: Address) returns (r: Result<Option<TokenId>>)
      requires TtlTracks(storage, ttl)
      requires e.tx.call == Call.SetAdmin(newAdmin)
      modifies `storage, `log
      ensures Performed(old(storage), old(log), e.tx, r, storage, log)
      ensures TtlTracks(storage, ttl)
    {
      hide TtlTracks;
      ghost var s := storage;
      var previous := storage.admin;
      :- Need(e.tx.Signed(previous), MissingAuth);
      storage := storage.(admin := newAdmin);
      SettingsTrack(s, storage, ttl);
      log := log + [AdminSet(previous, newAdmin)];
      return Ok(None);
    }

    method SetAttester(e: Env, newAttester: Address) returns (r: Result<Option<TokenId>>)
      requires TtlTracks(storage, ttl)
      requires e.tx.call == Call.SetAttester(newAttester)
      modifies `storage, `log
      ensures Performed(old(storage), old(log), e.tx, r, storage, log)
      ensures TtlTracks(storage, ttl)
    {
      hide TtlTracks;
      ghost var s := storage;
      :- Need(e.tx.Signed(storage.admin), MissingAuth);
      var previous := storage.attester;
      storage := storage.(attester := newAttester);
      SettingsTrack(s, storage, ttl);
      log := log + [AttesterSet(previous, newAttester)];
      return Ok(None);
    }

    method SetNqgContract(e: Env, newContract: Address) returns (r: Result<Option<TokenId>>)
      requires TtlTracks(storage, ttl)
      requires e.tx.call == Call.SetNqgContract(newContract)
      modifies `storage, `log
      ensures Performed(old(storage), old(log), e.tx, r, storage, log)
      ensures TtlTracks(storage, ttl)
    {
      hide TtlTracks;
      ghost var s := storage;
      :- Need(e.tx.Signed(storage.admin), MissingAuth);
      var previous := storage.nqgContract;
      storage := storage.(nqgContract := newContract);
      SettingsTrack(s, storage, ttl);
      log := log + [NqgContractSet(previous, newContract)];
      return Ok(None);
    }

    // ------------------------------------------------------------- the host

    /** Hands the call to its entry point; what a failing one leaves behind is for `Invoke` to undo. */
    method Dispatch(e: Env) returns (r: Result<Option<TokenId>>)
      requires Inv(storage) && TtlTracks(storage, ttl)
      modifies `storage, `ttl, `log
      ensures Performed(old(storage), old(log), e.tx, r, storage, log)
      ensures r.Ok? ==> TtlTracks(storage, ttl)
      ensures r.Ok? ==>
                Renews(e, Base(old(storage), old(ttl), e.tx.call), ttl, Reach(old(storage), storage, e.tx.call))
    {
      hide Performed, Inv, TtlTracks, Renews, Linked, BoundKeys;
      RenewsNothing(e, ttl);
      match e.tx.call {
        case Mint(to, role, external, bio, projects) => r := Mint(e, to, role, external, bio, projects);
        case Revoke(t) => r := Revoke(e, t);
        case SetRole(t, role) => r := SetRole(e, t, role);
        case SetExternalAccounts(t, external) => r := SetExternalAccounts(e, t, external);
        case SetBio(caller, t, bio) => r := SetBio(e, caller, t, bio);
        case SetProjects(caller, t, projects) => r := SetProjects(e, caller, t, projects);
        case ExtendMember(t) =>
          if t in storage.member {
            StoredLinked(storage, t, storage.member[t]);
          }
          ExtendMemberPerformed(storage, log, e.tx);
          r := ExtendMember(e, t);
        case RotateKey(t, newAddress) => r := RotateKey(e, t, newAddress);
        case ProposeRecovery(t, newAddress) => r := ProposeRecovery(e, t, newAddress);
        case CancelRecovery(caller, t) => r := CancelRecovery(e, caller, t);
        case FinalizeRecovery(t) => r := FinalizeRecovery(e, t);
        case Recover(t, newAddress) => r := Recover(e, t, newAddress);
        case SetAdmin(newAdmin) => r := SetAdmin(e, newAdmin);
        case SetAttester(newAttester) => r := SetAttester(e, newAttester);
        case SetNqgContract(newContract) => r := SetNqgContract(e, newContract);
      }
    }

    /**
     * One transaction. An error restores storage, times to live and events;
     * otherwise they are those of the transition function. Whichever way it
     * goes, the object stays a state its history leads to. No `extend_ttl` of
     * a missing entry is ever attempted, and a successful call renews exactly
     * the entries bound to the token it leaves behind, or the request it made.
     */
    method Invoke(e: Env) returns (r: Result<Option<TokenId>>)
      requires Valid()
      modifies this
      ensures Valid() && genesis == old(genesis) && history == old(history) + [e.tx]
      ensures match Step(old(storage), e.tx)
              case Ok(effect) =>
                r == Ok(effect.returned) && storage == effect.state && log == old(log) + effect.events
              case Err(error) =>
                r == Err(error) && storage == old(storage) && log == old(log) && ttl == old(ttl)
      ensures r.Ok? ==>
                Renews(e, Base(old(storage), old(ttl), e.tx.call), ttl, Reach(old(storage), storage, e.tx.call))
      ensures r.Ok? && !e.tx.call.Mint? ==> r.value == None
      ensures r.Ok? && e.tx.call.Mint? ==>
                && r.value == Some(old(storage).nextTokenId) && old(storage).nextTokenId !in old(storage).member
                && Get(storage.owner, old(storage).nextTokenId) == Some(e.tx.call.to)
    {
      hide Step, Inv, TtlTracks, Renews, Base, Reach, IsGenesis, StateAt, LogAt;
      ReachableInv(genesis, history, |history|);
      if Step(storage, e.tx).Ok? {
        Returned(storage, e.tx);
      }
      StateAtSnoc(genesis, history, e.tx);
      var storage0, ttl0, log0 := storage, ttl, log;
      r := Dispatch(e);
      if r.Err? {
        storage, ttl, log := storage0, ttl0, log0;
      }
      history := history + [e.tx];
    }
  }
}
