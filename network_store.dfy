/**
 * The network selection store of the mobile wallet: the selected key, the custom
 * networks and the per-network overrides, persisted to a key-value store under
 * `netconf` (the whole state) and `selectedNetwork` (the last selected key).
 * This version strips empty override values and resets the selection when a
 * custom network is removed.
 */
module NetworkStore {
  import opened Wrappers
  import opened JsValues
  import opened Networks
  import opened NetworkSelection

  class NetworkStore {
    var selected: string
    var custom: Record<Obj>
    var overrides: map<string, Obj>
    /** The initial load has finished; only then does the persistence watcher exist. */
    var ready: bool
    /** The key-value store: the `netconf` document and the `selectedNetwork` key (`None` is a missing key). */
    var netconf: Option<NetConf>
    var selectedNetwork: Option<string>

    /** The store before its load: the default state, over whatever storage already holds. */
    constructor (savedConf: Option<NetConf>, savedSelected: Option<string>)
      ensures selected == DEFAULT_KEY && custom == EmptyRecord() && overrides == map[] && !ready
      ensures netconf == savedConf && selectedNetwork == savedSelected
    {
      selected := DEFAULT_KEY;
      custom := EmptyRecord();
      overrides := map[];
      ready := false;
      netconf := savedConf;
      selectedNetwork := savedSelected;
    }

    /** `selectedInfo`: resolution of the selected key; reading it fails on an unknown key. */
    function SelectedInfo(): (r: Result<Obj, SelectionError>)
      reads this
      ensures r.Err? <==> selected !in NETWORKS && selected !in custom.entries
      ensures r.Err? ==> r.error == UnknownKey(selected)
    {
      Resolve(selected, custom, overrides)
    }

    /** `allNetworks` */
    function ListNetworks(): (all: seq<Obj>)
      reads this
      ensures |all| == |NETWORK_LIST| + |custom.order|
    {
      AllNetworks(custom)
    }

    /**
     * The startup load: the saved `netconf` properties replace the defaults, then the
     * selection becomes the saved `selectedNetwork`, or `'syscoin'` when none is saved.
     * The watcher is registered afterwards, so loading writes nothing.
     */
    method Load()
      requires !ready
      modifies this`selected, this`custom, this`overrides, this`ready
      ensures ready
      ensures selected == if selectedNetwork.Some? then selectedNetwork.value else DEFAULT_KEY
      ensures custom == if netconf.Some? && netconf.value.custom.Some? then netconf.value.custom.value else old(custom)
      ensures overrides ==
        if netconf.Some? && netconf.value.overrides.Some? then netconf.value.overrides.value else old(overrides)
    {
      if netconf.Some? {
        var raw := netconf.value;
        if raw.selected.Some? { selected := raw.selected.value; }
        if raw.custom.Some? { custom := raw.custom.value; }
        if raw.overrides.Some? { overrides := raw.overrides.value; }
      }
      selected := if selectedNetwork.Some? then selectedNetwork.value else DEFAULT_KEY;
      ready := true;
    }

    /** The deep watcher on the state: once ready, every change writes the whole state to `netconf`. */
    method Persist()
      modifies this`netconf
      ensures netconf == if ready then Some(Snapshot(selected, custom, overrides)) else old(netconf)
    {
      if ready {
        netconf := Some(Snapshot(selected, custom, overrides));
      }
    }

    /** `select(k)`: no check that `k` resolves; the key is also written to `selectedNetwork`. */
    method Select(k: string)
      modifies this`selected, this`netconf, this`selectedNetwork
      ensures selected == k
      ensures selectedNetwork == if ready then Some(k) else old(selectedNetwork)
      ensures netconf == if ready then Some(Snapshot(k, custom, overrides)) else old(netconf)
    {
      selected := k;
      if ready {
        selectedNetwork := Some(k);
      }
      Persist();
    }

    /** `addCustom(n)`: stored under `n.key`, replacing any custom network there, with no chain-ID check. */
    method AddCustom(n: Obj)
      modifies this`custom, this`netconf
      ensures custom == NetworkSelection.AddCustom(old(custom), n)
      ensures custom.entries[ToPropertyKey(Get(n, Key))] == n
      ensures netconf == if ready then Some(Snapshot(selected, custom, overrides)) else old(netconf)
    {
      custom := NetworkSelection.AddCustom(custom, n);
      Persist();
    }

    /** `updateCustom(k, p)`: overwrites the fields of `p`; throws when there is no custom network `k`. */
    method UpdateCustom(k: string, p: Obj) returns (r: Outcome<SelectionError>)
      modifies this`custom, this`netconf
      ensures r.Fail? <==> k !in old(custom).entries
      ensures r.Fail? ==> custom == old(custom) && netconf == old(netconf)
      ensures r.Pass? ==> custom == NetworkSelection.UpdateCustom(old(custom), k, p).value
      ensures r.Pass? ==> netconf == if ready then Some(Snapshot(selected, custom, overrides)) else old(netconf)
    {
      var u := NetworkSelection.UpdateCustom(custom, k, p);
      if u.Err? {
        return Fail(u.error);
      }
      custom := u.value;
      Persist();
      r := Pass;
    }

    /** `removeCustom(k)`: deletes the custom network and selects `'syscoin'`, whether or not `k` was selected. */
    method RemoveCustom(k: string)
      modifies this`custom, this`selected, this`netconf, this`selectedNetwork
      ensures custom == NetworkSelection.RemoveCustom(old(custom), k) && k !in custom.entries
      ensures selected == DEFAULT_KEY
      ensures SelectedInfo().Ok?
      ensures selectedNetwork == if ready then Some("syscoin") else old(selectedNetwork)
      ensures netconf == if ready then Some(Snapshot(DEFAULT_KEY, custom, overrides)) else old(netconf)
    {
      custom := NetworkSelection.RemoveCustom(custom, k);
      Persist();
      Select(DEFAULT_KEY);
    }

    /** `setOverride(k, patch)`: strips `''`, `null` and `undefined`, then merges, or deletes the override. */
    method SetOverride(k: string, patch: Obj)
      modifies this`overrides, this`netconf
      ensures overrides == SetOverrideStripped(old(overrides), k, patch)
      ensures old(OverridesClean(overrides)) ==> OverridesClean(overrides)
      ensures netconf == if ready then Some(Snapshot(selected, custom, overrides)) else old(netconf)
    {
      if OverridesClean(overrides) {
        SetOverridePreservesClean(overrides, k, patch);
      }
      overrides := SetOverrideStripped(overrides, k, patch);
      Persist();
    }
  }
}
