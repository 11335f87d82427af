/**
 * The older variant of the network selection store. The same state and operations,
 * but: the whole state, selection included, lives in the `netconf` document; the
 * persistence watcher exists from the start, so the load's own assignments are
 * written back; `setOverride` keeps empty values; and `removeCustom` leaves the
 * selection alone, so it may be left naming a network that no longer resolves.
 */
module LegacyNetworkStore {
  import opened Wrappers
  import opened JsValues
  import opened Networks
  import opened NetworkSelection

  class LegacyNetworkStore {
    var selected: string
    var custom: Record<Obj>
    var overrides: map<string, Obj>
    /** Storage has been created and loaded; writes before that are lost. */
    var ready: bool
    /** The `netconf` document of the key-value store (`None` is a missing key). */
    var netconf: Option<NetConf>

    constructor (savedConf: Option<NetConf>)
      ensures selected == DEFAULT_KEY && custom == EmptyRecord() && overrides == map[] && !ready
      ensures netconf == savedConf
    {
      selected := DEFAULT_KEY;
      custom := EmptyRecord();
      overrides := map[];
      ready := false;
      netconf := savedConf;
    }

    /** `selectedInfo`, resolved exactly as in the newer store. */
    function SelectedInfo(): (r: Result<Obj, SelectionError>)
      reads this
      ensures r.Err? <==> selected !in NETWORKS && selected !in custom.entries
      ensures r.Err? ==> r.error == UnknownKey(selected)
    {
      Resolve(selected, custom, overrides)
    }

    /** `allNetworks` */
    function ListNetworks(): (all: seq<Obj>)
      reads this
      ensures |all| == |NETWORK_LIST| + |custom.order|
    {
      AllNetworks(custom)
    }

    /**
     * The startup load: every saved `netconf` property, `selected` included, replaces the current
     * one. The watcher sees those assignments and writes the merged state back.
     */
    method Load()
      requires !ready
      modifies this
      ensures ready
      ensures var raw := old(netconf);
        && selected == (if raw.Some? && raw.value.selected.Some? then raw.value.selected.value else old(selected))
        && custom == (if raw.Some? && raw.value.custom.Some? then raw.value.custom.value else old(custom))
        && overrides == (if raw.Some? && raw.value.overrides.Some? then raw.value.overrides.value else old(overrides))
      ensures netconf == if old(netconf).Some? then Some(Snapshot(selected, custom, overrides)) else old(netconf)
    {
      ready := true;
      if netconf.Some? {
        var raw := netconf.value;
        if raw.selected.Some? { selected := raw.selected.value; }
        if raw.custom.Some? { custom := raw.custom.value; }
        if raw.overrides.Some? { overrides := raw.overrides.value; }
        Persist();
      }
    }

    /** The deep watcher on the state: every change is written to `netconf` once storage exists. */
    method Persist()
      modifies this`netconf
      ensures netconf == if ready then Some(Snapshot(selected, custom, overrides)) else old(netconf)
    {
      if ready {
        netconf := Some(Snapshot(selected, custom, overrides));
      }
    }

    /** `select(k)`: no check that `k` resolves; persisted only through `netconf`. */
    method Select(k: string)
      modifies this`selected, this`netconf
      ensures selected == k
      ensures netconf == if ready then Some(Snapshot(k, custom, overrides)) else old(netconf)
    {
      selected := k;
      Persist();
    }

    /** `addCustom(n)`: stored under `n.key`, replacing any custom network there, with no chain-ID check. */
    method AddCustom(n: Obj)
      modifies this`custom, this`netconf
      ensures custom == NetworkSelection.AddCustom(old(custom), n)
      ensures netconf == if ready then Some(Snapshot(selected, custom, overrides)) else old(netconf)
    {
      custom := NetworkSelection.AddCustom(custom, n);
      Persist();
    }

    /** `updateCustom(k, p)`: overwrites the fields of `p`; throws when there is no custom network `k`. */
    method UpdateCustom(k: string, p: Obj) returns (r: Outcome<SelectionError>)
      modifies this`custom, this`netconf
      ensures r.Fail? <==> k !in old(custom).entries
      ensures r.Fail? ==> custom == old(custom) && netconf == old(netconf)
      ensures r.Pass? ==> custom == NetworkSelection.UpdateCustom(old(custom), k, p).value
      ensures r.Pass? ==> netconf == if ready then Some(Snapshot(selected, custom, overrides)) else old(netconf)
    {
      var u := NetworkSelection.UpdateCustom(custom, k, p);
      if u.Err? {
        return Fail(u.error);
      }
      custom := u.value;
      Persist();
      r := Pass;
    }

    /** `removeCustom(k)`: deletes the custom network only; a removed selected network no longer resolves. */
    method RemoveCustom(k: string)
      modifies this`custom, this`netconf
      ensures custom == NetworkSelection.RemoveCustom(old(custom), k)
      ensures selected == k && k !in NETWORKS ==> SelectedInfo() == Err(UnknownKey(k))
      ensures netconf == if ready then Some(Snapshot(selected, custom, overrides)) else old(netconf)
    {
      custom := NetworkSelection.RemoveCustom(custom, k);
      Persist();
    }

    /** `setOverride(k, p)`: a `p` with no keys deletes the override; any other is merged as given, `''` included. */
    method SetOverride(k: string, p: Obj)
      modifies this`overrides, this`netconf
      ensures overrides == SetOverrideRaw(old(overrides), k, p)
      ensures netconf == if ready then Some(Snapshot(selected, custom, overrides)) else old(netconf)
    {
      overrides := SetOverrideRaw(overrides, k, p);
      Persist();
    }
  }
}
