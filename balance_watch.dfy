/**
 * Watching the native balance of one address. Only one watch is meant to be live: a
 * module-level slot holds the stop function of the latest watch, and starting a new watch
 * calls it first. The provider's answers are parameters, and what the watch does that
 * callers or the provider can observe is recorded, in order, as a trace of effects.
 * A stop function is identified by the number of the watch that returned it.
 */
module BalanceWatch {
  import opened Wrappers
  import opened JsValues

  /** `minDelay` when the caller passes none. */
  const DEFAULT_MIN_DELAY: int := 5000

  datatype Effect =
    | ListenerRemoved(watch: nat)     // `provider.off('block', refresh)` for that watch's `refresh`
    | PollingSet(ms: int)             // `provider.pollingInterval = minDelay`
    | BalanceSeen(watch: nat, wei: int)  // `onChange(bal)`
    | ListenerAdded(watch: nat)       // `provider.on('block', refresh)`

  /** One `refresh`: `onChange` with the balance when the fetch succeeds; nothing when it throws. */
  function RefreshEffects(watch: nat, fetched: Option<int>): (es: seq<Effect>)
    ensures fetched.Some? ==> es == [BalanceSeen(watch, fetched.value)]
    ensures fetched.None? ==> es == []
  {
    if fetched.Some? then [BalanceSeen(watch, fetched.value)] else []
  }

  /** What one `watchBalance` call does, in order. */
  function WatchEffects(held: Option<nat>, watch: nat, minDelay: int, fetched: Option<int>): seq<Effect> {
    (if held.Some? then [ListenerRemoved(held.value)] else [])
    + [PollingSet(minDelay)] + RefreshEffects(watch, fetched) + [ListenerAdded(watch)]
  }

  /**
   * The order `watchBalance` promises: the held watch is stopped before anything else, the
   * first refresh ends before the block listener is added, and that is the last thing done.
   */
  lemma WatchOrder(held: Option<nat>, watch: nat, minDelay: int, fetched: Option<int>)
    ensures var es := WatchEffects(held, watch, minDelay, fetched);
      && (held.Some? ==> es[0] == ListenerRemoved(held.value))
      && es[|es| - 1] == ListenerAdded(watch)
      && (forall i :: 0 <= i < |es| - 1 ==> !es[i].ListenerAdded?)
      && (fetched.Some? ==> es[|es| - 2] == BalanceSeen(watch, fetched.value))
      && (forall i :: 0 <= i < |es| && es[i].BalanceSeen? ==> fetched.Some? && i == |es| - 2)
  {
  }

  class BalanceWatcher {
    /** `currentOff`: the watch whose stop function is held. */
    var currentOff: Option<nat>
    /** The watches whose `refresh` is registered for `block` events, in registration order. */
    var listeners: seq<nat>
    /** How many watches have started; the next one gets this number. */
    var watches: nat
    /** The provider's `pollingInterval`; `None` before the first watch. */
    var pollingInterval: Option<int>
    var trace: seq<Effect>

    /** Listeners and the slot only ever name watches that started, each listener once. */
    predicate Valid()
      reads this
    {
      && NoDuplicates(listeners)
      && (forall v :: v in listeners ==> v < watches)
      && (currentOff.Some? ==> currentOff.value < watches)
    }

    constructor ()
      ensures Valid()
      ensures currentOff.None? && listeners == [] && watches == 0 && pollingInterval.None? && trace == []
    {
      currentOff := None;
      listeners := [];
      watches := 0;
      pollingInterval := None;
      trace := [];
    }

    /** The stop function of watch `w`: removes that watch's listener only, and leaves the slot as it is. */
    method Stop(w: nat)
      requires Valid()
      modifies this`listeners, this`trace
      ensures Valid()
      ensures listeners == Without(old(listeners), w)
      ensures w !in listeners && forall v :: v in old(listeners) && v != w ==> v in listeners
      ensures trace == old(trace) + [ListenerRemoved(w)]
    {
      listeners := Without(listeners, w);
      trace := trace + [ListenerRemoved(w)];
    }

    /** One `refresh` of watch `w`. */
    method Refresh(w: nat, fetched: Option<int>)
      modifies this`trace
      ensures trace == old(trace) + RefreshEffects(w, fetched)
    {
      if fetched.Some? {
        trace := trace + [BalanceSeen(w, fetched.value)];
      }
    }

    /**
     * `watchBalance`: stop the held watch, set the polling interval, refresh once, add the block
     * listener; the slot then holds the new watch's stop function, which is returned.
     */
    method WatchBalance(address: string, fetched: Option<int>, minDelay: int := DEFAULT_MIN_DELAY) returns (off: nat)
      requires Valid()
      modifies this
      ensures Valid()
      ensures off == old(watches) && watches == old(watches) + 1
      ensures currentOff == Some(off)
      ensures pollingInterval == Some(minDelay)
      ensures listeners == (if old(currentOff).Some? then Without(old(listeners), old(currentOff).value) else old(listeners)) + [off]
      ensures trace == old(trace) + WatchEffects(old(currentOff), off, minDelay, fetched)
    {
      if currentOff.Some? {
        Stop(currentOff.value);
      }
      ghost var stopped := trace;
      pollingInterval := Some(minDelay);
      trace := trace + [PollingSet(minDelay)];
      off := watches;
      watches := watches + 1;
      Refresh(off, fetched);
      assert off !in listeners;
      listeners := listeners + [off];
      trace := trace + [ListenerAdded(off)];
      currentOff := Some(off);
      assert trace == stopped + ([PollingSet(minDelay)] + RefreshEffects(off, fetched) + [ListenerAdded(off)]);
    }

    /** A new block reaches the registered listeners: watch `w` refreshes only while its listener is there. */
    method OnBlock(w: nat, fetched: Option<int>)
      modifies this`trace
      ensures trace == old(trace) + if w in listeners then RefreshEffects(w, fetched) else []
    {
      if w in listeners {
        Refresh(w, fetched);
      }
    }
  }
}
