/**
 * The app's batched reads. Each request goes to the ledger as it stands then,
 * and the ledger moves on between requests.
 */
module Reads {
  import opened Types
  import opened Model
  import opened Invariants
  import opened Calls
  import opened Runs
  import opened Scenarios
  import P = Pages

  /** The most keys one request can carry. */
  const CHUNK := 200

  /** What request number `n` finds under a key: the ledger may differ from one request to the next. */
  type Ledger<!K, !V> = nat -> K -> Option<V>

  /** What one request adds to the values read so far: the entries that exist, the later read prevailing. */
  function Answer<K, V>(values: map<K, V>, keys: seq<K>, entries: K -> Option<V>): map<K, V> {
    values + map k | k in keys && entries(k).Some? :: entries(k).value
  }

  /** The keys of request `n`. */
  function Asked<K>(keys: seq<K>, n: nat): seq<K>
    requires CHUNK * n <= |keys|
  {
    keys[CHUNK * n..if CHUNK * n + CHUNK < |keys| then CHUNK * n + CHUNK else |keys|]
  }

  /** The values after the first `n` requests. */
  function Answers<K, V>(keys: seq<K>, ledger: Ledger<K, V>, n: nat): map<K, V>
    requires n == 0 || CHUNK * (n - 1) <= |keys|
  {
    if n == 0 then map[]
    else
      Answer(Answers(keys, ledger, n - 1), Asked(keys, n - 1), ledger(n - 1))
  }

  function Requests(count: nat): nat {
    (count + CHUNK - 1) / CHUNK
  }

  function Values<K(==), V>(keys: seq<K>, ledger: Ledger<K, V>): (r: seq<Option<V>>)
    ensures |r| == |keys|
  {
    var values := Answers(keys, ledger, Requests(|keys|));
    seq(|keys|, i requires 0 <= i < |keys| => Get(values, keys[i]))
  }

  /** One request a chunk of keys; what came back is then put in the order of `keys`, gaps as `None`. */
  method ReadEntries<K(==), V>(keys: seq<K>, ledger: Ledger<K, V>) returns (r: seq<Option<V>>)
    ensures r == Values(keys, ledger)
  {
    hide Answer, Get;
    var values: map<K, V> := map[];
    var i, n := 0, 0;
    while i < |keys|
      invariant i == CHUNK * n && n <= Requests(|keys|)
      invariant values == Answers(keys, ledger, n)
    {
      var to := if i + CHUNK < |keys| then i + CHUNK else |keys|;
      assert keys[i..to] == Asked(keys, n);
      values := Answer(values, keys[i..to], ledger(n));
      i, n := i + CHUNK, n + 1;
    }
    assert n == Requests(|keys|);
    r := seq(|keys|, k requires 0 <= k < |keys| => Get(values, keys[k]));
  }

  /** Every occurrence of the key at `i` falls in the same request. */
  ghost predicate OneRequest<K(!new)>(keys: seq<K>, i: nat)
    requires i < |keys|
  {
    forall j :: 0 <= j < |keys| && keys[j] == keys[i] ==> j / CHUNK == i / CHUNK
  }

  /** One request, as seen by one key. */
  lemma AnswerAt<K(!new), V>(values: map<K, V>, keys: seq<K>, entries: K -> Option<V>, k: K)
    ensures Get(Answer(values, keys, entries), k) ==
            if k in keys && entries(k).Some? then entries(k) else Get(values, k)
  {
  }

  /** A key that falls in one request is asked for there and nowhere else. */
  lemma AskedOnce<K(!new)>(keys: seq<K>, n: nat, i: nat)
    requires i < |keys| && OneRequest(keys, i) && CHUNK * n <= |keys|
    ensures keys[i] in Asked(keys, n) <==> i / CHUNK == n
  {
  }

  lemma {:induction false} AnswersAt<K(!new), V>(keys: seq<K>, ledger: Ledger<K, V>, n: nat, i: nat)
    requires i < |keys| && OneRequest(keys, i)
    requires n == 0 || CHUNK * (n - 1) <= |keys|
    ensures Get(Answers(keys, ledger, n), keys[i]) == if i / CHUNK < n then ledger(i / CHUNK)(keys[i]) else None
  {
    hide OneRequest, Asked, Answer;
    if n > 0 {
      AnswersAt(keys, ledger, n - 1, i);
      AskedOnce(keys, n - 1, i);
      AnswerAt(Answers(keys, ledger, n - 1), Asked(keys, n - 1), ledger(n - 1), keys[i]);
    }
  }

  /** A key that is asked for once is read as a single-key read at its request would. */
  lemma ReadAsSingle<K(!new), V>(keys: seq<K>, ledger: Ledger<K, V>, i: nat)
    requires i < |keys| && OneRequest(keys, i)
    ensures Values(keys, ledger)[i] == ledger(i / CHUNK)(keys[i])
  {
    AnswersAt(keys, ledger, Requests(|keys|), i);
    assert i / CHUNK < Requests(|keys|);
  }

  // --------------------------------------------------------------- members

  /** A value of the persistent storage. */
  datatype Entry =
    | RecordEntry(member: Member)
    | AddressEntry(address: Address)
    | TokenEntry(token: TokenId)
    | RequestEntry(request: RecoveryRequest)

  /** The persistent storage as the ledger holds it. */
  function EntryAt(s: State, key: MemberKey): Option<Entry> {
    match key
    case MemberRecordKey(t) => if t in s.member then Some(RecordEntry(s.member[t])) else None
    case OwnerKey(t) => if t in s.owner then Some(AddressEntry(s.owner[t])) else None
    case TokenOfKey(a) => if a in s.tokenOf then Some(TokenEntry(s.tokenOf[a])) else None
    case ReservedKey(k) => if k in s.account then Some(TokenEntry(s.account[k])) else None
    case RecoveryKey(t) => if t in s.recovery then Some(RequestEntry(s.recovery[t])) else None
  }

  /** The record key and the owner key of every token, side by side. */
  function MemberKeys(ids: seq<TokenId>): (keys: seq<MemberKey>)
    ensures |keys| == 2 * |ids|
  {
    seq(2 * |ids|, i requires 0 <= i < 2 * |ids| =>
      if i % 2 == 0 then MemberRecordKey(ids[i / 2]) else OwnerKey(ids[i / 2]))
  }

  /** What is shown of a token from the two values read; nothing without a record. */
  function View(t: TokenId, record: Option<Entry>, owner: Option<Entry>): Option<P.MemberView> {
    if record.Some? && record.value.RecordEntry? then
      Some(P.MemberView(
        t,
        if owner.Some? && owner.value.AddressEntry? then Some(owner.value.address) else None,
        record.value.member.status == Revoked,
        record.value.member))
    else None
  }

  /** The members of a batched read, one slot an id. */
  function Members(ids: seq<TokenId>, ledger: Ledger<MemberKey, Entry>): (r: seq<Option<P.MemberView>>)
    ensures |r| == |ids|
  {
    var values := Values(MemberKeys(ids), ledger);
    seq(|ids|, i requires 0 <= i < |ids| => View(ids[i], values[2 * i], values[2 * i + 1]))
  }

  /** A slot shows the member asked for, or none. */
  lemma MembersIds(ids: seq<TokenId>, ledger: Ledger<MemberKey, Entry>, i: nat)
    requires i < |ids|
    ensures Members(ids, ledger)[i].Some? ==> Members(ids, ledger)[i].value.tokenId == ids[i]
  {
    hide Values;
  }

  /** Every occurrence of the id at `i` is among the 100 ids of one request. */
  ghost predicate IdInOneRequest(ids: seq<TokenId>, i: nat)
    requires i < |ids|
  {
    forall j :: 0 <= j < |ids| && ids[j] == ids[i] ==> j / P.PAGE_SIZE == i / P.PAGE_SIZE
  }

  lemma KeysOfPair(ids: seq<TokenId>, i: nat)
    requires i < |ids|
    ensures MemberKeys(ids)[2 * i] == MemberRecordKey(ids[i]) && MemberKeys(ids)[2 * i + 1] == OwnerKey(ids[i])
  {
  }

  lemma PairInOneRequest(ids: seq<TokenId>, i: nat)
    requires i < |ids| && IdInOneRequest(ids, i)
    ensures OneRequest(MemberKeys(ids), 2 * i) && OneRequest(MemberKeys(ids), 2 * i + 1)
    ensures (2 * i) / CHUNK == (2 * i + 1) / CHUNK == i / P.PAGE_SIZE
  {
    var keys := MemberKeys(ids);
    KeysOfPair(ids, i);
    forall j | 0 <= j < |keys| && keys[j] == keys[2 * i]
      ensures j / CHUNK == (2 * i) / CHUNK
    {
      assert ids[j / 2] == ids[i];
    }
    forall j | 0 <= j < |keys| && keys[j] == keys[2 * i + 1]
      ensures j / CHUNK == (2 * i + 1) / CHUNK
    {
      assert ids[j / 2] == ids[i];
    }
  }

  /** The slot of an id that one request asks for is made of what that request found. */
  lemma MemberOfOneRequest(ids: seq<TokenId>, ledger: Ledger<MemberKey, Entry>, i: nat)
    requires i < |ids| && IdInOneRequest(ids, i)
    ensures var entries := ledger(i / P.PAGE_SIZE);
            Members(ids, ledger)[i] == View(ids[i], entries(MemberRecordKey(ids[i])), entries(OwnerKey(ids[i])))
  {
    hide View, OneRequest, IdInOneRequest, Values;
    KeysOfPair(ids, i);
    PairInOneRequest(ids, i);
    ReadAsSingle(MemberKeys(ids), ledger, 2 * i);
    ReadAsSingle(MemberKeys(ids), ledger, 2 * i + 1);
  }

  /** Reads record and owner of every id in one batch, and pairs them up again. */
  method GetMembers(ids: seq<TokenId>, ledger: Ledger<MemberKey, Entry>) returns (r: seq<Option<P.MemberView>>)
    ensures r == Members(ids, ledger)
    ensures forall i :: 0 <= i < |ids| && IdInOneRequest(ids, i) ==>
              var entries := ledger(i / P.PAGE_SIZE);
              r[i] == View(ids[i], entries(MemberRecordKey(ids[i])), entries(OwnerKey(ids[i])))
  {
    hide Values, View, IdInOneRequest;
    var values := ReadEntries(MemberKeys(ids), ledger);
    r := seq(|ids|, i requires 0 <= i < |ids| && |values| == 2 * |ids| =>
      View(ids[i], values[2 * i], values[2 * i + 1]));
    forall i | 0 <= i < |ids| && IdInOneRequest(ids, i)
      ensures var entries := ledger(i / P.PAGE_SIZE);
              r[i] == View(ids[i], entries(MemberRecordKey(ids[i])), entries(OwnerKey(ids[i])))
    {
      MemberOfOneRequest(ids, ledger, i);
    }
  }

  /** The member as it stands in one state of the contract. */
  function ViewOf(s: State, t: TokenId): Option<P.MemberView> {
    View(t, EntryAt(s, MemberRecordKey(t)), EntryAt(s, OwnerKey(t)))
  }

  /** In a valid state the shown member has the record and the owner, and no owner exactly when it is revoked. */
  lemma ViewOfMeaning(s: State, t: TokenId)
    requires Inv(s)
    ensures ViewOf(s, t).Some? <==> t < s.nextTokenId
    ensures ViewOf(s, t).Some? ==>
              var view := ViewOf(s, t).value;
              && view.tokenId == t && t in s.member && view.record == s.member[t]
              && view.owner == Get(s.owner, t)
              && view.revoked == (s.member[t].status == Revoked)
              && (view.owner == None <==> view.revoked)
  {
  }

  /** The ledger that answers request `n` from the contract state `chain(n)`. */
  function LedgerOf(chain: nat -> State): Ledger<MemberKey, Entry> {
    n => key => EntryAt(chain(n), key)
  }

  /** The member shown for the id at `i`, with request `n` served from state `chain(n)`. */
  function Shown(ids: seq<TokenId>, chain: nat -> State, i: nat): Option<P.MemberView>
    requires i < |ids|
  {
    Members(ids, LedgerOf(chain))[i]
  }

  predicate NoOwnerIffRevoked(shown: Option<P.MemberView>) {
    shown.Some? ==> (shown.value.owner == None <==> shown.value.revoked)
  }

  /**
   * The contract may change between requests, but the two keys of an id travel
   * in one request: the member shown is the member as it stands in the one
   * state that served it, and it has no owner exactly when it is revoked.
   */
  lemma MemberFromOneState(ids: seq<TokenId>, chain: nat -> State, i: nat)
    requires i < |ids| && IdInOneRequest(ids, i)
    requires Inv(chain(i / P.PAGE_SIZE))
    ensures var s := chain(i / P.PAGE_SIZE);
            && Shown(ids, chain, i) == ViewOf(s, ids[i])
            && (Shown(ids, chain, i).Some? <==> ids[i] < s.nextTokenId)
    ensures NoOwnerIffRevoked(Shown(ids, chain, i))
  {
    hide Inv, EntryAt, View, IdInOneRequest, Members;
    MemberOfOneRequest(ids, LedgerOf(chain), i);
    ViewOfMeaning(chain(i / P.PAGE_SIZE), ids[i]);
  }

  /** Distinct ids, as many as one likes, are each in one request. */
  lemma DistinctIdsInOneRequest(ids: seq<TokenId>, i: nat)
    requires i < |ids|
    requires forall j, k :: 0 <= j < k < |ids| ==> ids[j] != ids[k]
    ensures IdInOneRequest(ids, i)
  {
  }

  // ------------------------------------------------ ids asked for more than once

  /** A key asked for by request `from` keeps a value that is served from then on, or missing from some point on. */
  lemma {:induction false} ValueStays<K(!new), V>(keys: seq<K>, ledger: Ledger<K, V>, from: nat, n: nat, k: K, v: V)
    requires from < n <= Requests(|keys|)
    requires k in Asked(keys, from) && ledger(from)(k) == Some(v)
    requires forall m :: from <= m ==> ledger(m)(k) == Some(v) || ledger(m)(k) == None
    ensures Get(Answers(keys, ledger, n), k) == Some(v)
  {
    hide Answer, Asked, Get;
    AnswerAt(Answers(keys, ledger, n - 1), Asked(keys, n - 1), ledger(n - 1), k);
    if from < n - 1 {
      ValueStays(keys, ledger, from, n - 1, k, v);
    }
  }

  /** The key at `i` is asked for by its request. */
  lemma AskedAt<K(!new)>(keys: seq<K>, i: nat)
    requires i < |keys|
    ensures i / CHUNK < Requests(|keys|) && keys[i] in Asked(keys, i / CHUNK)
  {
  }

  /** What the ledger holds under the two keys of a token. */
  lemma EntriesAt(s: State, t: TokenId)
    ensures EntryAt(s, OwnerKey(t)) == if Get(s.owner, t).Some? then Some(AddressEntry(s.owner[t])) else None
    ensures EntryAt(s, MemberRecordKey(t)) == if Get(s.member, t).Some? then Some(RecordEntry(s.member[t])) else None
  {
  }

  /** Requests `first` and `last` ask for the token, and ahead of `last` it is revoked. */
  lemma TornValues(keys: seq<MemberKey>, chain: nat -> State, t: TokenId, first: nat, last: nat, a: Address, m: Member)
    requires first < last < Requests(|keys|)
    requires OwnerKey(t) in Asked(keys, first) && MemberRecordKey(t) in Asked(keys, last)
    requires forall n: nat :: n < last ==> Get(chain(n).owner, t) == Some(a)
    requires forall n: nat :: n >= last ==> Get(chain(n).owner, t) == None && Get(chain(n).member, t) == Some(m)
    ensures var values := Answers(keys, LedgerOf(chain), Requests(|keys|));
            && Get(values, MemberRecordKey(t)) == Some(RecordEntry(m))
            && Get(values, OwnerKey(t)) == Some(AddressEntry(a))
  {
    hide Answers, Asked, EntryAt, Requests;
    var ledger := LedgerOf(chain);
    forall n: nat
      ensures n >= last ==> ledger(n)(MemberRecordKey(t)) == Some(RecordEntry(m))
      ensures ledger(n)(OwnerKey(t)) == if n < last then Some(AddressEntry(a)) else None
    {
      EntriesAt(chain(n), t);
    }
    ValueStays(keys, ledger, last, Requests(|keys|), MemberRecordKey(t), RecordEntry(m));
    ValueStays(keys, ledger, first, Requests(|keys|), OwnerKey(t), AddressEntry(a));
  }

  lemma TornView(t: TokenId, a: Address, m: Member)
    requires m.status == Revoked
    ensures View(t, Some(RecordEntry(m)), Some(AddressEntry(a))) == Some(P.MemberView(t, Some(a), true, m))
  {
  }

  lemma ValueAt<K(!new), V>(keys: seq<K>, ledger: Ledger<K, V>, i: nat)
    requires i < |keys|
    ensures Values(keys, ledger)[i] == Get(Answers(keys, ledger, Requests(|keys|)), keys[i])
  {
    hide Answers, Requests, Get;
  }

  /** A slot, from the values as they are after the last request. */
  lemma MembersAt(ids: seq<TokenId>, ledger: Ledger<MemberKey, Entry>, h: nat)
    requires h < |ids|
    ensures var values := Answers(MemberKeys(ids), ledger, Requests(2 * |ids|));
            Members(ids, ledger)[h] ==
            View(ids[h], Get(values, MemberRecordKey(ids[h])), Get(values, OwnerKey(ids[h])))
  {
    hide Answers, View, Get, Values, MemberKeys, Requests;
    KeysOfPair(ids, h);
    ValueAt(MemberKeys(ids), ledger, 2 * h);
    ValueAt(MemberKeys(ids), ledger, 2 * h + 1);
  }

  /** The request of the id at `i` asks for its record and for its owner. */
  lemma PairAskedAt(ids: seq<TokenId>, i: nat)
    requires i < |ids|
    ensures i / P.PAGE_SIZE < Requests(2 * |ids|)
    ensures MemberRecordKey(ids[i]) in Asked(MemberKeys(ids), i / P.PAGE_SIZE)
    ensures OwnerKey(ids[i]) in Asked(MemberKeys(ids), i / P.PAGE_SIZE)
  {
    hide MemberKeys, Asked;
    KeysOfPair(ids, i);
    AskedAt(MemberKeys(ids), 2 * i);
    AskedAt(MemberKeys(ids), 2 * i + 1);
    assert (2 * i) / CHUNK == i / P.PAGE_SIZE && (2 * i + 1) / CHUNK == i / P.PAGE_SIZE;
  }

  /**
   * An id that two requests ask for can be torn: when the token is revoked
   * ahead of the second of them, its record is the new one and its owner the
   * old one, since an entry that is missing later does not erase what was read
   * before. It shows so wherever the id stands in the batch.
   */
  lemma AskedTwiceTears(ids: seq<TokenId>, j: nat, i: nat, chain: nat -> State, a: Address, m: Member)
    requires i < |ids| && j < |ids| && ids[i] == ids[j] && j / P.PAGE_SIZE < i / P.PAGE_SIZE
    requires forall n: nat :: n < i / P.PAGE_SIZE ==> Get(chain(n).owner, ids[i]) == Some(a)
    requires forall n: nat :: n >= i / P.PAGE_SIZE ==>
               Get(chain(n).owner, ids[i]) == None && Get(chain(n).member, ids[i]) == Some(m)
    requires m.status == Revoked
    ensures forall h: nat :: h < |ids| && ids[h] == ids[i] ==>
              Shown(ids, chain, h) == Some(P.MemberView(ids[i], Some(a), true, m))
  {
    hide Answers, Asked, MemberKeys, Get, Requests, Members, View;
    TornView(ids[i], a, m);
    PairAskedAt(ids, i);
    PairAskedAt(ids, j);
    TornValues(MemberKeys(ids), chain, ids[i], j / P.PAGE_SIZE, i / P.PAGE_SIZE, a, m);
    forall h: nat | h < |ids| && ids[h] == ids[i]
      ensures Shown(ids, chain, h) == View(ids[i], Some(RecordEntry(m)), Some(AddressEntry(a)))
    {
      MembersAt(ids, LedgerOf(chain), h);
    }
  }

  /** The states of a run that requests see, request `n` after `at(n)` transactions or at the end. */
  function Along(init: State, txs: seq<Tx>, at: nat -> nat): nat -> State {
    (n: nat) => StateAt(init, txs, if at(n) <= |txs| then at(n) else |txs|)
  }

  /** No request is served from an earlier state than a request before it. */
  ghost predicate Forward(at: nat -> nat) {
    forall m: nat, n: nat :: m <= n ==> at(m) <= at(n)
  }

  function Switching(before: nat, after: nat, last: nat): nat -> nat {
    n => if n < last then before else after
  }

  lemma SwitchingForward(before: nat, after: nat, last: nat)
    requires before <= after
    ensures Forward(Switching(before, after, last))
  {
  }

  lemma AlongSwitching(init: State, txs: seq<Tx>, before: nat, after: nat, last: nat)
    requires before <= after <= |txs|
    ensures forall n: nat :: Along(init, txs, Switching(before, after, last))(n) ==
                             StateAt(init, txs, if n < last then before else after)
  {
    hide StateAt;
  }

  lemma TornIsShownTorn(t: TokenId, a: Address, m: Member)
    ensures !NoOwnerIffRevoked(Some(P.MemberView(t, Some(a), true, m)))
  {
  }

  /** The torn read of an id in a run of the contract. */
  lemma TornInARun(ids: seq<TokenId>, j: nat, i: nat)
    requires i < |ids| && j < |ids| && ids[i] == ids[j] && j / P.PAGE_SIZE < i / P.PAGE_SIZE
    requires ids[i] < U32_MAX
    ensures var t, txs := ids[i], MintsThenRevokes(ids[i]);
            var n: nat := t;
            var at := Switching(n + 1, n + 2, i / P.PAGE_SIZE);
            && IsGenesis(START) && Forward(at)
            && (forall h: nat :: h < |ids| && ids[h] == t ==> !NoOwnerIffRevoked(Shown(ids, Along(START, txs, at), h)))
  {
    hide StateAt, Shown, MintsThenRevokes, Along, Switching, Forward, NoOwnerIffRevoked, IsGenesis;
    var t, txs := ids[i], MintsThenRevokes(ids[i]);
    var n: nat := t;
    var last := i / P.PAGE_SIZE;
    RevokedAtTheEnd(t);
    var m := StateAt(START, txs, n + 2).member[t];
    SwitchingForward(n + 1, n + 2, last);
    AlongSwitching(START, txs, n + 1, n + 2, last);
    AskedTwiceTears(ids, j, i, Along(START, txs, Switching(n + 1, n + 2, last)), Account(t), m);
    TornIsShownTorn(t, Account(t), m);
  }

  /**
   * Snapshot consistency, exactly: in every run of the contract, whenever the
   * requests are served as the run goes on, the member shown for an id has no
   * owner just when it is revoked, if and only if all the occurrences of the
   * id are read by one request.
   */
  lemma SnapshotIffOneRequest(ids: seq<TokenId>, i: nat)
    requires i < |ids| && ids[i] < U32_MAX
    ensures IdInOneRequest(ids, i) <==>
            forall init, txs, at: nat -> nat :: IsGenesis(init) && Forward(at) ==>
              NoOwnerIffRevoked(Shown(ids, Along(init, txs, at), i))
  {
    hide Shown, NoOwnerIffRevoked, Inv, IsGenesis, Forward, StateAt;
    if IdInOneRequest(ids, i) {
      forall init, txs, at: nat -> nat | IsGenesis(init) && Forward(at)
        ensures NoOwnerIffRevoked(Shown(ids, Along(init, txs, at), i))
      {
        var n := at(i / P.PAGE_SIZE);
        ReachableInv(init, txs, if n <= |txs| then n else |txs|);
        MemberFromOneState(ids, Along(init, txs, at), i);
      }
    } else {
      var j: nat :| j < |ids| && ids[j] == ids[i] && j / P.PAGE_SIZE != i / P.PAGE_SIZE;
      if j / P.PAGE_SIZE < i / P.PAGE_SIZE {
        TornInARun(ids, j, i);
      } else {
        TornInARun(ids, i, j);
      }
    }
  }

  // ------------------------------------------------------ the pages of the list

  /** The ids of a page as token ids. */
  function PageTokens(page: nat, count: TokenId): (ids: seq<TokenId>)
    ensures ids == P.PageIds(page, count)
  {
    var ids := P.PageIds(page, count);
    seq(|ids|, i requires 0 <= i < |ids| => ids[i])
  }

  /**
   * A page as it is fetched: one request serves it, every slot shows its
   * member as it stands in that state, and the page is in the order the cache
   * relies on. Ids the count was read for are all shown.
   */
  lemma FetchedPage(page: nat, count: TokenId, chain: nat -> State)
    requires Inv(chain(0))
    ensures var ids := PageTokens(page, count);
            && P.PageOrdered(Members(ids, LedgerOf(chain)), page)
            && (forall i :: 0 <= i < |ids| ==> Shown(ids, chain, i) == ViewOf(chain(0), ids[i]))
            && (count <= chain(0).nextTokenId ==> forall i :: 0 <= i < |ids| ==> Shown(ids, chain, i).Some?)
  {
    hide Inv, EntryAt, View, Members;
    var ids := PageTokens(page, count);
    forall i | 0 <= i < |ids| && Members(ids, LedgerOf(chain))[i].Some?
      ensures Members(ids, LedgerOf(chain))[i].value.tokenId == P.PageIds(page, count)[i]
    {
      MembersIds(ids, LedgerOf(chain), i);
    }
    P.FetchedPageOrdered(page, count, Members(ids, LedgerOf(chain)));
    forall i: nat | i < |ids|
      ensures Shown(ids, chain, i) == ViewOf(chain(0), ids[i])
      ensures count <= chain(0).nextTokenId ==> Shown(ids, chain, i).Some?
    {
      DistinctIdsInOneRequest(ids, i);
      MemberFromOneState(ids, chain, i);
    }
  }

  /** The first `n` pages from `top` down, page number `top - k` read from the state `served(k)`. */
  function Loaded(top: nat, n: nat, count: TokenId, served: nat -> State): P.Pages
    requires n <= top + 1
  {
    P.Pages(seq(n, k requires 0 <= k < n => Members(PageTokens(top - k, count), LedgerOf(_ => served(k)))),
            seq(n, k => top - k))
  }

  /** The list as it is loaded is well-formed, so what is proved of merging and look-up holds from the start. */
  lemma LoadedWellFormed(top: nat, n: nat, count: TokenId, served: nat -> State)
    requires n <= top + 1
    requires forall k: nat :: k < n ==> Inv(served(k))
    ensures P.WellFormed(Loaded(top, n, count, served))
  {
    hide Inv, Members, P.PageOrdered;
    forall k: nat | k < n
      ensures P.PageOrdered(Loaded(top, n, count, served).pages[k], top - k)
    {
      FetchedPage(top - k, count, _ => served(k));
    }
  }

  /** The slots of a loaded page, one by one. */
  lemma LoadedSlots(top: nat, n: nat, count: TokenId, served: nat -> State, k: nat)
    requires k < n <= top + 1 && Inv(served(k))
    ensures var page, ids := Loaded(top, n, count, served).pages[k], PageTokens(top - k, count);
            |page| == |ids| && forall x :: 0 <= x < |ids| ==> page[x] == ViewOf(served(k), ids[x])
  {
    hide Inv, Members, ViewOf;
    var ids, chain := PageTokens(top - k, count), _ => served(k);
    FetchedPage(top - k, count, chain);
    forall x | 0 <= x < |ids|
      ensures Members(ids, LedgerOf(chain))[x] == ViewOf(served(k), ids[x])
    {
      assert Shown(ids, chain, x) == ViewOf(chain(0), ids[x]);
    }
  }

  lemma ViewOfItsId(s: State, t: TokenId)
    ensures ViewOf(s, t).Some? ==> ViewOf(s, t).value.tokenId == t
  {
  }

  /** On its own page a listed id has the slot that shows it, and no other slot does. */
  lemma InLoadedPage(top: nat, n: nat, count: TokenId, served: nat -> State, k: nat, m: P.MemberView)
    requires k < n <= top + 1 && Inv(served(k))
    requires m.tokenId < count && P.PageOf(m.tokenId) == top - k
    ensures Some(m) in Loaded(top, n, count, served).pages[k] <==> ViewOf(served(k), m.tokenId) == Some(m)
  {
    hide Inv, ViewOf, P.PageIds, PageTokens, Members;
    var ids, slots := PageTokens(top - k, count), Loaded(top, n, count, served).pages[k];
    LoadedSlots(top, n, count, served, k);
    P.ListedOnItsPage(m.tokenId, top - k, count);
    var x :| 0 <= x < |ids| && ids[x] == m.tokenId;
    assert slots[x] == ViewOf(served(k), m.tokenId);
    if Some(m) in slots {
      var y :| 0 <= y < |ids| && slots[y] == Some(m);
      ViewOfItsId(served(k), ids[y]);
    }
  }

  /** A listed id is in the list as it stood when its page was read, and in no other way. */
  lemma LoadedHas(top: nat, n: nat, count: TokenId, served: nat -> State, m: P.MemberView)
    requires n <= top + 1
    requires forall k: nat :: k < n ==> Inv(served(k))
    requires m.tokenId < count && 0 <= top - P.PageOf(m.tokenId) < n
    ensures P.Has(Loaded(top, n, count, served), m) <==>
            ViewOf(served(top - P.PageOf(m.tokenId)), m.tokenId) == Some(m)
  {
    hide Inv, ViewOf, P.PageOf, P.WellFormed, P.PageIds;
    var loaded, k := Loaded(top, n, count, served), top - P.PageOf(m.tokenId);
    LoadedWellFormed(top, n, count, served);
    InLoadedPage(top, n, count, served, k, m);
    if P.Has(loaded, m) {
      var i :| 0 <= i < |loaded.pages| && Some(m) in loaded.pages[i];
      P.HasPage(loaded, i, m);
    }
  }

  /** Look-up in the list as loaded gives every listed id as it stood when its page was read. */
  lemma LookUpInLoaded(top: nat, n: nat, count: TokenId, served: nat -> State, id: TokenId)
    requires n <= top + 1
    requires forall k: nat :: k < n ==> Inv(served(k))
    requires id < count && 0 <= top - P.PageOf(id) < n
    ensures P.Find(Loaded(top, n, count, served).pages, id) == ViewOf(served(top - P.PageOf(id)), id)
  {
    hide Inv, ViewOf, Loaded, P.Find, P.PageOf, P.WellFormed, P.Has;
    var loaded := Loaded(top, n, count, served);
    var shown, found := ViewOf(served(top - P.PageOf(id)), id), P.Find(loaded.pages, id);
    LoadedWellFormed(top, n, count, served);
    ViewOfItsId(served(top - P.PageOf(id)), id);
    P.FindHasId(loaded.pages, id);
    if shown.Some? {
      LoadedHas(top, n, count, served, shown.value);
      P.FindMeaning(loaded, shown.value);
    } else if found.Some? {
      LoadedHas(top, n, count, served, found.value);
      P.FindMeaning(loaded, found.value);
    }
  }
}
