/**
 * Watching submitted transactions until they settle. Each tracked hash gets a
 * one-confirmation wait, an immediate receipt check, and a listener that checks the
 * receipt again whenever the app comes back to the foreground. Provider answers are
 * parameters: `ReceiptFetch` for a receipt request, `WaitOutcome` for the wait.
 */
module TxWatch {
  import opened Wrappers
  import opened TxHistory

  /** What one `getTransactionReceipt` call gives: an error, `null`, or a receipt with its `status` (`null` allowed). */
  datatype ReceiptFetch = FetchFailed | NoReceipt | Receipt(status: Option<int>)

  /** How the one-confirmation wait settles: resolved, or rejected for any reason. */
  datatype WaitOutcome = Resolved | Rejected

  datatype Visibility = Visible | Hidden

  datatype WatchError = NoProvider  // `provider` is still undefined: calling `waitForTransaction` throws

  /**
   * The status a receipt check records: receipt status 1 confirms, any other receipt fails
   * the transaction; no receipt, or an error fetching it, records nothing.
   */
  function ReceiptOutcome(f: ReceiptFetch): (s: Option<TxStatus>)
    ensures s == Some(Confirmed) <==> f == Receipt(Some(1))
    ensures s == Some(Failed) <==> f.Receipt? && f.status != Some(1)
    ensures s.None? <==> !f.Receipt?
    ensures s != Some(Pending)
  {
    match f
    case Receipt(status) => Some(if status == Some(1) then Confirmed else Failed)
    case _ => None
  }

  /** `.then(() => 'confirmed').catch(() => 'failed')` */
  function WaitStatus(w: WaitOutcome): (s: TxStatus)
    ensures s == Confirmed <==> w.Resolved?
    ensures s == Failed <==> w.Rejected?
  {
    if w.Resolved? then Confirmed else Failed
  }

  /** The history list after one receipt check for `hash`. */
  function Check(list: seq<TxRecord>, hash: string, f: ReceiptFetch): seq<TxRecord> {
    if ReceiptOutcome(f).Some? then WithStatus(list, hash, ReceiptOutcome(f).value) else list
  }

  /** The history list after the receipt checks for `hashes`, in order, with the answers `fetches`. */
  function ApplyChecks(list: seq<TxRecord>, hashes: seq<string>, fetches: seq<ReceiptFetch>): seq<TxRecord>
    requires |hashes| == |fetches|
    decreases |hashes|
  {
    if hashes == [] then list
    else
      var n := |hashes| - 1;
      Check(ApplyChecks(list, hashes[..n], fetches[..n]), hashes[n], fetches[n])
  }

  /** The checks for the first `k + 1` hashes are those for the first `k`, then one more. */
  lemma ApplyChecksStep(list: seq<TxRecord>, hashes: seq<string>, fetches: seq<ReceiptFetch>, k: nat)
    requires |hashes| == |fetches| && k < |hashes|
    ensures ApplyChecks(list, hashes[..k + 1], fetches[..k + 1])
         == Check(ApplyChecks(list, hashes[..k], fetches[..k]), hashes[k], fetches[k])
  {
    assert hashes[..k + 1][..k] == hashes[..k] && fetches[..k + 1][..k] == fetches[..k];
  }

  /** Receipt checks only ever change statuses: the records, their order and their other fields stay. */
  lemma {:induction false} ChecksChangeOnlyStatus(list: seq<TxRecord>, hashes: seq<string>, fetches: seq<ReceiptFetch>)
    requires |hashes| == |fetches|
    ensures var r := ApplyChecks(list, hashes, fetches);
      |r| == |list| && forall i :: 0 <= i < |list| ==> r[i] == list[i].(status := r[i].status)
    decreases |hashes|
  {
    if hashes != [] {
      var n := |hashes| - 1;
      ChecksChangeOnlyStatus(list, hashes[..n], fetches[..n]);
    }
  }

  /** `filter(t => t.status === 'pending')` */
  function PendingRecords(list: seq<TxRecord>): (r: seq<TxRecord>)
    ensures |r| <= |list|
    ensures forall t :: t in r <==> t in list && t.status == Pending
  {
    if list == [] then []
    else if list[0].status == Pending then [list[0]] + PendingRecords(list[1..])
    else PendingRecords(list[1..])
  }

  /** The pending records keep the list's order: the filter distributes over concatenation. */
  lemma {:induction false} PendingDistributes(a: seq<TxRecord>, b: seq<TxRecord>)
    ensures PendingRecords(a + b) == PendingRecords(a) + PendingRecords(b)
  {
    if a == [] {
      assert a + b == b;
    } else {
      assert (a + b)[1..] == a[1..] + b;
      PendingDistributes(a[1..], b);
    }
  }

  /** A list with nothing pending leaves nothing to resume. */
  lemma {:induction false} NothingPending(list: seq<TxRecord>)
    requires forall i :: 0 <= i < |list| ==> list[i].status != Pending
    ensures PendingRecords(list) == []
  {
    if list != [] {
      assert list[0].status != Pending;
      NothingPending(list[1..]);
    }
  }

  /** The hashes `resumeTxWatchers` tracks, in list order. */
  function PendingHashes(list: seq<TxRecord>): (hs: seq<string>)
    ensures |hs| == |PendingRecords(list)|
    ensures forall i :: 0 <= i < |hs| ==> hs[i] == PendingRecords(list)[i].hash
  {
    var p := PendingRecords(list);
    seq(|p|, i requires 0 <= i < |p| => p[i].hash)
  }

  /** Every pending record is resumed, and every resumed hash is the hash of a pending record. */
  lemma PendingHashesExact(list: seq<TxRecord>, t: TxRecord)
    requires t in list
    ensures t.status == Pending ==> t.hash in PendingHashes(list)
    ensures t.hash in PendingHashes(list) ==> exists u :: u in list && u.status == Pending && u.hash == t.hash
  {
    var p := PendingRecords(list);
    if t.status == Pending {
      var i :| 0 <= i < |p| && p[i] == t;
      assert PendingHashes(list)[i] == t.hash;
    }
    if t.hash in PendingHashes(list) {
      var i :| 0 <= i < |PendingHashes(list)| && PendingHashes(list)[i] == t.hash;
      assert p[i] in p;
    }
  }

  class TxWatcher {
    /** The module's `provider`; `None` until `resumeTxWatchers` sets it. */
    var provider: Option<string>
    /** The hashes of the registered `visibilitychange` listeners, in registration order. */
    var listeners: seq<string>
    /** The hashes whose one-confirmation wait has not settled. */
    var waiting: seq<string>
    /** The history whose statuses the watchers update. */
    const history: History

    constructor (h: History)
      ensures history == h && provider.None? && listeners == [] && waiting == []
    {
      history := h;
      provider := None;
      listeners := [];
      waiting := [];
    }

    /**
     * `checkReceipt`: records the status a receipt gives. It then removes `checkReceipt` as a
     * listener, which was never registered, so the foreground listener stays.
     */
    method CheckReceipt(hash: string, f: ReceiptFetch)
      requires history.Valid()
      modifies history`list, history`storageReady, history`creates, history`stored
      ensures history.Valid()
      ensures history.list == Check(old(history.list), hash, f)
      ensures WrittenBack(old(history.stored), history.network, old(history.list), history.list, history.stored)
    {
      var s := ReceiptOutcome(f);
      if s.Some? {
        history.UpdateStatus(hash, s.value);
      }
    }

    /** `trackTx`: start the wait, check the receipt once at once, then register the foreground listener. */
    method TrackTx(hash: string, f: ReceiptFetch) returns (r: Outcome<WatchError>)
      requires history.Valid()
      modifies this`waiting, this`listeners, history`list, history`storageReady, history`creates, history`stored
      ensures history.Valid() && provider == old(provider)
      ensures r.Fail? <==> provider.None?
      ensures r.Fail? ==> listeners == old(listeners) && waiting == old(waiting) && history.list == old(history.list)
                          && history.stored == old(history.stored)
      ensures r.Pass? ==> && waiting == old(waiting) + [hash] && listeners == old(listeners) + [hash]
                          && history.list == Check(old(history.list), hash, f)
      ensures WrittenBack(old(history.stored), history.network, old(history.list), history.list, history.stored)
    {
      if provider.None? {
        return Fail(NoProvider);
      }
      waiting := waiting + [hash];
      CheckReceipt(hash, f);
      listeners := listeners + [hash];
      r := Pass;
    }

    /** The wait for `waiting[i]` settles: confirmed when it resolved, failed when it rejected. */
    method SettleWait(i: nat, w: WaitOutcome)
      requires i < |waiting| && history.Valid()
      modifies this`waiting, history`list, history`storageReady, history`creates, history`stored
      ensures history.Valid()
      ensures history.list == WithStatus(old(history.list), old(waiting[i]), WaitStatus(w))
      ensures WrittenBack(old(history.stored), history.network, old(history.list), history.list, history.stored)
      ensures waiting == old(waiting[..i] + waiting[i + 1..])
    {
      var hash := waiting[i];
      waiting := waiting[..i] + waiting[i + 1..];
      history.UpdateStatus(hash, WaitStatus(w));
    }

    /** A `visibilitychange` event reaching listener `i`: it checks the receipt only when the app is visible. */
    method OnVisibilityChange(i: nat, state: Visibility, f: ReceiptFetch)
      requires i < |listeners| && history.Valid()
      modifies history`list, history`storageReady, history`creates, history`stored
      ensures history.Valid()
      ensures WrittenBack(old(history.stored), history.network, old(history.list), history.list, history.stored)
      ensures state.Hidden? ==> history.list == old(history.list)
      ensures state.Visible? ==> history.list == Check(old(history.list), listeners[i], f)
    {
      if state == Visible {
        CheckReceipt(listeners[i], f);
      } else {
        WrittenBackNothing(history.stored, history.network, history.list);
      }
    }

    /**
     * `resumeTxWatchers`: bind the provider, then track every pending record's hash in list order
     * (`fetches[k]` answers the immediate receipt check of the `k`-th).
     */
    method ResumeTxWatchers(providerUrl: string, fetches: seq<ReceiptFetch>) returns (tracked: seq<string>)
      requires history.Valid() && |fetches| == |PendingHashes(history.list)|
      modifies this, history`list, history`storageReady, history`creates, history`stored
      ensures history.Valid() && provider == Some(providerUrl)
      ensures tracked == PendingHashes(old(history.list))
      ensures waiting == old(waiting) + tracked && listeners == old(listeners) + tracked
      ensures history.list == ApplyChecks(old(history.list), tracked, fetches)
      ensures WrittenBack(old(history.stored), history.network, old(history.list), history.list, history.stored)
    {
      provider := Some(providerUrl);
      tracked := PendingHashes(history.list);
      ghost var list0 := history.list;
      ghost var stored0 := history.stored;
      WrittenBackNothing(stored0, history.network, list0);
      for k := 0 to |tracked|
        invariant history.Valid() && provider == Some(providerUrl)
        invariant waiting == old(waiting) + tracked[..k] && listeners == old(listeners) + tracked[..k]
        invariant history.list == ApplyChecks(list0, tracked[..k], fetches[..k])
        invariant WrittenBack(stored0, history.network, list0, history.list, history.stored)
      {
        ghost var list1, stored1 := history.list, history.stored;
        var r := TrackTx(tracked[k], fetches[k]);
        WrittenBackThen(stored0, history.network, list0, list1, stored1, history.list, history.stored);
        ApplyChecksStep(list0, tracked, fetches, k);
        assert tracked[..k + 1] == tracked[..k] + [tracked[k]];
      }
      assert tracked[..|tracked|] == tracked && fetches[..|fetches|] == fetches;
    }
  }
}
