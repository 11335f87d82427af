/**
 * Watching the balances of the imported tokens of one address. The structure is that of
 * the native balance watcher, with its own slot; each refresh asks for every token's
 * balance, keeps the ones that came back, and always reports the collected map, even
 * an empty one. A failed token does not stop the others.
 */
module TokenBalanceWatch {
  import opened Wrappers
  import opened JsValues
  import opened ImportedTokens

  /** `minDelay` when the caller passes none. */
  const DEFAULT_MIN_DELAY: int := 2000

  datatype Effect =
    | ListenerRemoved(watch: nat)
    | PollingSet(ms: int)
    | BalancesSeen(watch: nat, results: map<string, string>)  // `onChange(results)`
    | ListenerAdded(watch: nat)

  /**
   * The `results` object one refresh builds, token by token: a token whose fetch came back
   * (`fetched[i]`, the formatted balance) is entered under its address; a failed one is skipped.
   */
  function Results(tokens: seq<ImportedToken>, fetched: seq<Option<string>>): map<string, string>
    requires |tokens| == |fetched|
    decreases |tokens|
  {
    if tokens == [] then map[]
    else
      var n := |tokens| - 1;
      var r := Results(tokens[..n], fetched[..n]);
      if fetched[n].Some? then r[tokens[n].address := fetched[n].value] else r
  }

  /** The keys of `results` are exactly the addresses of the tokens whose fetch succeeded. */
  lemma {:induction false} ResultsKeys(tokens: seq<ImportedToken>, fetched: seq<Option<string>>, a: string)
    requires |tokens| == |fetched|
    ensures a in Results(tokens, fetched) <==>
      exists i :: 0 <= i < |tokens| && tokens[i].address == a && fetched[i].Some?
    decreases |tokens|
  {
    if tokens != [] {
      var n := |tokens| - 1;
      ResultsKeys(tokens[..n], fetched[..n], a);
      if a in Results(tokens[..n], fetched[..n]) {
        var i :| 0 <= i < n && tokens[..n][i].address == a && fetched[..n][i].Some?;
        assert tokens[i].address == a && fetched[i].Some?;
      }
      if exists i :: 0 <= i < |tokens| && tokens[i].address == a && fetched[i].Some? {
        var i :| 0 <= i < |tokens| && tokens[i].address == a && fetched[i].Some?;
        if i < n {
          assert tokens[..n][i].address == a && fetched[..n][i].Some?;
        }
      }
    }
  }

  /** With distinct addresses, each successful token's entry is its own fetched balance. */
  lemma {:induction false} ResultsValues(tokens: seq<ImportedToken>, fetched: seq<Option<string>>, i: nat)
    requires |tokens| == |fetched| && i < |tokens| && fetched[i].Some?
    requires forall j, k :: 0 <= j < k < |tokens| ==> tokens[j].address != tokens[k].address
    ensures tokens[i].address in Results(tokens, fetched)
    ensures Results(tokens, fetched)[tokens[i].address] == fetched[i].value
    decreases |tokens|
  {
    var n := |tokens| - 1;
    if i < n {
      ResultsValues(tokens[..n], fetched[..n], i);
      assert tokens[..n][i] == tokens[i] && fetched[..n][i] == fetched[i];
    }
  }

  /** When every fetch fails, the reported map is empty (and still reported). */
  lemma AllFailedIsEmpty(tokens: seq<ImportedToken>, fetched: seq<Option<string>>)
    requires |tokens| == |fetched| && forall i :: 0 <= i < |fetched| ==> fetched[i].None?
    ensures Results(tokens, fetched) == map[]
  {
    forall a ensures a !in Results(tokens, fetched) {
      ResultsKeys(tokens, fetched, a);
    }
  }

  /** The `Promise.all` of one refresh, taken in token order, filling `results` in place. */
  method CollectBalances(tokens: seq<ImportedToken>, fetched: seq<Option<string>>) returns (results: map<string, string>)
    requires |tokens| == |fetched|
    ensures results == Results(tokens, fetched)
    ensures forall a :: a in results ==> exists i :: 0 <= i < |tokens| && tokens[i].address == a && fetched[i].Some?
  {
    results := map[];
    for k := 0 to |tokens|
      invariant results == Results(tokens[..k], fetched[..k])
    {
      assert tokens[..k + 1][..k] == tokens[..k] && fetched[..k + 1][..k] == fetched[..k];
      if fetched[k].Some? {
        results := results[tokens[k].address := fetched[k].value];
      }
    }
    assert tokens[..|tokens|] == tokens && fetched[..|fetched|] == fetched;
    forall a | a in results ensures exists i :: 0 <= i < |tokens| && tokens[i].address == a && fetched[i].Some? {
      ResultsKeys(tokens, fetched, a);
    }
  }

  /** What one `watchTokenBalances` call does, in order. */
  function WatchEffects(held: Option<nat>, watch: nat, minDelay: int, results: map<string, string>): seq<Effect> {
    (if held.Some? then [ListenerRemoved(held.value)] else [])
    + [PollingSet(minDelay), BalancesSeen(watch, results), ListenerAdded(watch)]
  }

  /** The held watch is stopped first; the first report comes before the block listener, which is added last. */
  lemma WatchOrder(held: Option<nat>, watch: nat, minDelay: int, results: map<string, string>)
    ensures var es := WatchEffects(held, watch, minDelay, results);
      && (held.Some? ==> es[0] == ListenerRemoved(held.value))
      && es[|es| - 2] == BalancesSeen(watch, results)
      && es[|es| - 1] == ListenerAdded(watch)
      && forall i :: 0 <= i < |es| - 1 ==> !es[i].ListenerAdded?
  {
  }

  class TokenBalanceWatcher {
    /** `currentTokenBalanceWatchOff`: the watch whose stop function is held. */
    var currentOff: Option<nat>
    /** The watches whose `refresh` is registered for `block` events. */
    var listeners: seq<nat>
    var watches: nat
    var pollingInterval: Option<int>
    var trace: seq<Effect>

    predicate Valid()
      reads this
    {
      && NoDuplicates(listeners)
      && (forall v :: v in listeners ==> v < watches)
      && (currentOff.Some? ==> currentOff.value < watches)
    }

    constructor ()
      ensures Valid()
      ensures currentOff.None? && listeners == [] && watches == 0 && pollingInterval.None? && trace == []
    {
      currentOff := None;
      listeners := [];
      watches := 0;
      pollingInterval := None;
      trace := [];
    }

    /** The stop function of watch `w`: removes that watch's listener only; the slot keeps it. */
    method Stop(w: nat)
      requires Valid()
      modifies this`listeners, this`trace
      ensures Valid()
      ensures listeners == Without(old(listeners), w)
      ensures trace == old(trace) + [ListenerRemoved(w)]
    {
      listeners := Without(listeners, w);
      trace := trace + [ListenerRemoved(w)];
    }

    /** One `refresh` of watch `w`: collect, then report, whatever came back. */
    method Refresh(w: nat, tokens: seq<ImportedToken>, fetched: seq<Option<string>>)
      requires |tokens| == |fetched|
      modifies this`trace
      ensures trace == old(trace) + [BalancesSeen(w, Results(tokens, fetched))]
    {
      var results := CollectBalances(tokens, fetched);
      trace := trace + [BalancesSeen(w, results)];
    }

    /** `watchTokenBalances` */
    method WatchTokenBalances(address: string, tokens: seq<ImportedToken>, fetched: seq<Option<string>>,
                              minDelay: int := DEFAULT_MIN_DELAY) returns (off: nat)
      requires Valid() && |tokens| == |fetched|
      modifies this
      ensures Valid()
      ensures off == old(watches) && watches == old(watches) + 1
      ensures currentOff == Some(off)
      ensures pollingInterval == Some(minDelay)
      ensures listeners == (if old(currentOff).Some? then Without(old(listeners), old(currentOff).value) else old(listeners)) + [off]
      ensures trace == old(trace) + WatchEffects(old(currentOff), off, minDelay, Results(tokens, fetched))
    {
      if currentOff.Some? {
        Stop(currentOff.value);
      }
      ghost var stopped := trace;
      pollingInterval := Some(minDelay);
      trace := trace + [PollingSet(minDelay)];
      off := watches;
      watches := watches + 1;
      Refresh(off, tokens, fetched);
      assert off !in listeners;
      listeners := listeners + [off];
      trace := trace + [ListenerAdded(off)];
      currentOff := Some(off);
      assert trace == stopped + [PollingSet(minDelay), BalancesSeen(off, Results(tokens, fetched)), ListenerAdded(off)];
    }

    /** A new block reaches watch `w`: it refreshes only while its listener is registered. */
    method OnBlock(w: nat, tokens: seq<ImportedToken>, fetched: seq<Option<string>>)
      requires |tokens| == |fetched|
      modifies this`trace
      ensures trace == old(trace) + if w in listeners then [BalancesSeen(w, Results(tokens, fetched))] else []
    {
      if w in listeners {
        Refresh(w, tokens, fetched);
      }
    }
  }
}
