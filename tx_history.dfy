/**
 * The transaction history: one list, newest first, for the network that was selected
 * when it was loaded. A deep watcher writes the list back into its network's bucket of
 * the `evm-tx-history` object after every change. Storage is created once and reused.
 */
module TxHistory {
  import opened Wrappers

  datatype TxStatus = Pending | Confirmed | Failed

  datatype TxRecord = TxRecord(hash: string, from: string, to: string, amount: string, timestamp: int, status: TxStatus)

  /** `findIndex(t => t.hash === hash)`, `None` for -1. */
  function FindTx(list: seq<TxRecord>, hash: string): (r: Option<nat>)
    ensures r.Some? ==> r.value < |list| && list[r.value].hash == hash
    ensures r.Some? ==> forall i :: 0 <= i < r.value ==> list[i].hash != hash
    ensures r.None? <==> forall i :: 0 <= i < |list| ==> list[i].hash != hash
  {
    if list == [] then None
    else if list[0].hash == hash then Some(0)
    else match FindTx(list[1..], hash)
      case None =>
        assert forall i :: 1 <= i < |list| ==> list[i] == list[1..][i - 1];
        None
      case Some(i) => Some(i + 1)
  }

  /**
   * The list `updateStatus(hash, s)` leaves: the first record with the hash gets status `s`,
   * whatever its status was; every other record and every other field is unchanged.
   */
  function WithStatus(list: seq<TxRecord>, hash: string, s: TxStatus): (r: seq<TxRecord>)
    ensures |r| == |list|
    ensures FindTx(list, hash).None? ==> r == list
    ensures FindTx(list, hash).Some? ==> var i := FindTx(list, hash).value;
      && r[i] == list[i].(status := s)
      && forall j :: 0 <= j < |list| && j != i ==> r[j] == list[j]
  {
    match FindTx(list, hash)
    case None => list
    case Some(i) => list[i := list[i].(status := s)]
  }

  /** Setting a status changes no hash, so the same record is found afterwards. */
  lemma WithStatusKeepsHashes(list: seq<TxRecord>, hash: string, s: TxStatus)
    ensures forall i :: 0 <= i < |list| ==> WithStatus(list, hash, s)[i].hash == list[i].hash
    ensures FindTx(WithStatus(list, hash, s), hash) == FindTx(list, hash)
  {
    var r := WithStatus(list, hash, s);
    assert forall i :: 0 <= i < |list| ==> r[i].hash == list[i].hash;
    var f := FindTx(list, hash);
    if f.Some? {
      assert r[f.value].hash == hash;
      var g := FindTx(r, hash);
      assert list[g.value].hash == hash;
    }
  }

  /** Repeating an update changes nothing more. */
  lemma WithStatusIdempotent(list: seq<TxRecord>, hash: string, s: TxStatus)
    ensures WithStatus(WithStatus(list, hash, s), hash, s) == WithStatus(list, hash, s)
  {
    WithStatusKeepsHashes(list, hash, s);
  }

  /** Statuses are not monotonic: a confirmed record may later be set to failed, or back to pending. */
  lemma StatusMayGoBack(list: seq<TxRecord>, hash: string, s: TxStatus)
    requires FindTx(list, hash).Some?
    ensures var i := FindTx(list, hash).value;
      WithStatus(WithStatus(list, hash, Confirmed), hash, s)[i].status == s
  {
    WithStatusKeepsHashes(list, hash, Confirmed);
  }

  /** `addTx` for each record in turn: each goes to the front. */
  function AddAll(list: seq<TxRecord>, txs: seq<TxRecord>): seq<TxRecord>
    decreases |txs|
  {
    if txs == [] then list else AddAll([txs[0]] + list, txs[1..])
  }

  function Reverse<T>(s: seq<T>): (r: seq<T>)
    ensures |r| == |s|
    ensures forall i :: 0 <= i < |s| ==> r[i] == s[|s| - 1 - i]
  {
    if s == [] then [] else Reverse(s[1..]) + [s[0]]
  }

  /** The history is newest first: adding records one by one yields them in reverse order, before the old ones. */
  lemma {:induction false} AddAllIsReversed(list: seq<TxRecord>, txs: seq<TxRecord>)
    ensures AddAll(list, txs) == Reverse(txs) + list
    decreases |txs|
  {
    if txs != [] {
      AddAllIsReversed([txs[0]] + list, txs[1..]);
      assert Reverse(txs) == Reverse(txs[1..]) + [txs[0]];
    }
  }

  /** `addTx` does not look for the hash: the same record added twice is there twice. */
  lemma NoDedup(list: seq<TxRecord>, tx: TxRecord)
    ensures var r := AddAll(list, [tx, tx]); |r| == |list| + 2 && r[0] == tx && r[1] == tx
  {
    AddAllIsReversed(list, [tx, tx]);
  }

  /** `all[network] ?? []` */
  function Bucket(all: map<string, seq<TxRecord>>, network: string): seq<TxRecord> {
    if network in all then all[network] else []
  }

  /** The bucket key `all[network]` uses: `network` is `undefined` until the history is loaded. */
  function BucketKey(network: Option<string>): string {
    if network.Some? then network.value else "undefined"
  }

  /** The `evm-tx-history` object as read: nothing stored reads as `{}`. */
  function AllOf(stored: Option<map<string, seq<TxRecord>>>): map<string, seq<TxRecord>> {
    if stored.Some? then stored.value else map[]
  }

  /**
   * What the deep watcher leaves in storage once the list has gone from `list0` to `list`
   * through any number of status updates: a list that changed is stored under its network's
   * bucket over the object that was there; an unchanged list may have caused no write at all.
   */
  predicate WrittenBack(stored0: Option<map<string, seq<TxRecord>>>, network: Option<string>,
                        list0: seq<TxRecord>, list: seq<TxRecord>, stored: Option<map<string, seq<TxRecord>>>) {
    && (stored == stored0 || stored == Some(AllOf(stored0)[BucketKey(network) := list]))
    && (list != list0 ==> stored == Some(AllOf(stored0)[BucketKey(network) := list]))
  }

  /** Doing nothing writes nothing back. */
  lemma WrittenBackNothing(stored: Option<map<string, seq<TxRecord>>>, network: Option<string>, list: seq<TxRecord>)
    ensures WrittenBack(stored, network, list, list, stored)
  {
  }

  /** Two runs of updates, one after the other, write back as one run does. */
  lemma WrittenBackThen(s0: Option<map<string, seq<TxRecord>>>, network: Option<string>,
                        l0: seq<TxRecord>, l1: seq<TxRecord>, s1: Option<map<string, seq<TxRecord>>>,
                        l2: seq<TxRecord>, s2: Option<map<string, seq<TxRecord>>>)
    requires WrittenBack(s0, network, l0, l1, s1) && WrittenBack(s1, network, l1, l2, s2)
    ensures WrittenBack(s0, network, l0, l2, s2)
  {
    var b := BucketKey(network);
    if s1 != s0 {
      assert AllOf(s1)[b := l2] == AllOf(s0)[b := l2];
    }
  }

  /**
   * After a write-back, every other network's bucket is as it was, and the list's own bucket
   * holds the list whenever the list changed.
   */
  lemma WrittenBackBuckets(stored0: Option<map<string, seq<TxRecord>>>, network: Option<string>,
                           list0: seq<TxRecord>, list: seq<TxRecord>, stored: Option<map<string, seq<TxRecord>>>)
    requires WrittenBack(stored0, network, list0, list, stored)
    ensures forall k :: k != BucketKey(network) ==> Bucket(AllOf(stored), k) == Bucket(AllOf(stored0), k)
    ensures list != list0 ==> Bucket(AllOf(stored), BucketKey(network)) == list
  {
  }

  class History {
    /** `list.value`: newest first. */
    var list: seq<TxRecord>
    /** The module's `network`; `None` before `initTxHistory`. */
    var network: Option<string>
    /** `storageReady` is set: `storage.create()` has been called. */
    var storageReady: bool
    /** How often `storage.create()` has been called. */
    var creates: nat
    /** The `evm-tx-history` object; `None` when nothing is stored. */
    var stored: Option<map<string, seq<TxRecord>>>

    /** Storage is created exactly when the memo is set, and at most once. */
    predicate Valid()
      reads this
    {
      creates == if storageReady then 1 else 0
    }

    function All(): map<string, seq<TxRecord>>
      reads this
    {
      AllOf(stored)
    }

    constructor (saved: Option<map<string, seq<TxRecord>>>)
      ensures Valid()
      ensures list == [] && network.None? && !storageReady && stored == saved
    {
      list := [];
      network := None;
      storageReady := false;
      creates := 0;
      stored := saved;
    }

    /** `ready`: the first call creates storage; later calls reuse that. */
    method Ready()
      requires Valid()
      modifies this`storageReady, this`creates
      ensures Valid() && storageReady && creates == 1
    {
      if !storageReady {
        creates := creates + 1;
        storageReady := true;
      }
    }

    /** The deep watcher: the list goes into its network's bucket, the other buckets are kept. */
    method Persist()
      requires Valid()
      modifies this`storageReady, this`creates, this`stored
      ensures Valid() && storageReady
      ensures stored == Some(old(All())[BucketKey(network) := list])
      ensures forall k :: k != BucketKey(network) ==> Bucket(All(), k) == Bucket(old(All()), k)
    {
      Ready();
      var all := All();
      stored := Some(all[BucketKey(network) := list]);
    }

    /**
     * `initTxHistory`: the selected network's bucket, or `[]`, becomes the list. The new
     * array triggers the watcher, which writes it back (creating an empty bucket if needed).
     */
    method InitTxHistory(selected: string)
      requires Valid()
      modifies this
      ensures Valid() && storageReady
      ensures network == Some(selected)
      ensures list == Bucket(old(All()), selected)
      ensures stored == Some(old(All())[selected := list])
    {
      Ready();
      network := Some(selected);
      list := Bucket(All(), selected);
      Persist();
    }

    /** `addTx`: the record goes to the front; no check for a known hash. */
    method AddTx(tx: TxRecord)
      requires Valid()
      modifies this`list, this`storageReady, this`creates, this`stored
      ensures Valid()
      ensures list == [tx] + old(list)
      ensures stored == Some(old(All())[BucketKey(network) := list])
    {
      list := [tx] + list;
      Persist();
    }

    /**
     * `updateStatus`: the first record with the hash gets the status; an absent hash is ignored.
     * Only an actual change of the status triggers the watcher.
     */
    method UpdateStatus(hash: string, s: TxStatus)
      requires Valid()
      modifies this`list, this`storageReady, this`creates, this`stored
      ensures Valid()
      ensures list == WithStatus(old(list), hash, s)
      ensures list == old(list) ==> stored == old(stored)
      ensures list != old(list) ==> stored == Some(old(All())[BucketKey(network) := list])
    {
      var idx := FindTx(list, hash);
      if idx.Some? && list[idx.value].status != s {
        list := list[idx.value := list[idx.value].(status := s)];
        Persist();
      } else if idx.Some? {
        assert list[idx.value].(status := s) == list[idx.value];
        assert list[idx.value := list[idx.value].(status := s)] == list;
      }
    }
  }
}
