/**
 * What the two versions of the network selection store compute in the same way:
 * resolving a key to its effective `NetworkInfo` (predefined first, then custom,
 * then the key's override spread over it), the list of all networks, and the
 * updates of the custom-network table. The two ways of recording an override
 * (stripping empty values, or not) are both here, so that they can be compared.
 */
module NetworkSelection {
  import opened Wrappers
  import opened JsValues
  import opened Networks

  datatype SelectionError =
    | UnknownKey(key: string)                         // `Unknown key ${k}` from the `selectedInfo` getter
    | NotAnObject(key: string)                        // TypeError: Object.assign onto `custom[k]` when it is undefined

  /** `overrides[k]`: an absent override spreads as nothing. */
  function OverrideOf(overrides: map<string, Obj>, k: string): Obj {
    if k in overrides then overrides[k] else map[]
  }

  /** `predefined[k] ?? custom[k]`: the network before any override. */
  function BaseOf(k: string, custom: Record<Obj>): Option<Obj> {
    if k in NETWORKS then Some(NETWORKS[k])
    else if k in custom.entries then Some(custom.entries[k])
    else None
  }

  /**
   * `selectedInfo`: the base entry for `k` with every field of `overrides[k]` replacing the base
   * value, every other field kept; no base entry means the "Unknown key" error.
   */
  function Resolve(k: string, custom: Record<Obj>, overrides: map<string, Obj>): (r: Result<Obj, SelectionError>)
    ensures r.Ok? <==> k in NETWORKS || k in custom.entries
    ensures r.Err? ==> r.error == UnknownKey(k)
    ensures k in NETWORKS ==> r.Ok? && forall f ::
      Get(r.value, f) == if f in OverrideOf(overrides, k) then overrides[k][f] else Get(NETWORKS[k], f)
    ensures k !in NETWORKS && k in custom.entries ==> r.Ok? && forall f ::
      Get(r.value, f) == if f in OverrideOf(overrides, k) then overrides[k][f] else Get(custom.entries[k], f)
    ensures r.Ok? ==> r.value.Keys == BaseOf(k, custom).value.Keys + OverrideOf(overrides, k).Keys
  {
    match BaseOf(k, custom)
    case None => Err(UnknownKey(k))
    case Some(base) =>
      GetSpread(base, OverrideOf(overrides, k));
      Ok(Spread(base, OverrideOf(overrides, k)))
  }

  /** A predefined key resolves to the same network whatever custom networks exist: predefined wins. */
  lemma PredefinedShadowsCustom(k: NetworkKey, c1: Record<Obj>, c2: Record<Obj>, overrides: map<string, Obj>)
    ensures Resolve(k, c1, overrides) == Resolve(k, c2, overrides)
  {
  }

  /** Without an override, a predefined key resolves to its `NETWORKS` entry unchanged. */
  lemma {:induction false} NoOverrideIsPredefined(k: NetworkKey, custom: Record<Obj>, overrides: map<string, Obj>)
    requires k !in overrides
    ensures Resolve(k, custom, overrides) == Ok(NETWORKS[k])
  {
    assert Spread(NETWORKS[k], map[]) == NETWORKS[k];
  }

  /** `allNetworks`: the six predefined networks in declaration order, then the custom ones in key order. */
  function AllNetworks(custom: Record<Obj>): (all: seq<Obj>)
    ensures |all| == |NETWORK_LIST| + |custom.order|
    ensures all[..|NETWORK_LIST|] == NETWORK_LIST
    ensures all[|NETWORK_LIST|..] == Values(custom)
  {
    NETWORK_LIST + Values(custom)
  }

  /** Every custom network appears in `allNetworks`. */
  lemma CustomNetworksListed(custom: Record<Obj>, k: string)
    requires k in custom.entries
    ensures custom.entries[k] in AllNetworks(custom)
  {
    var i :| 0 <= i < |custom.order| && custom.order[i] == k;
    var vs := AllNetworks(custom)[|NETWORK_LIST|..];
    assert vs[i] == custom.entries[k] && vs[i] in vs;
  }

  /** `custom[n.key] = n`: stored under its key, replacing any entry there, with no chain-ID check. */
  function AddCustom(custom: Record<Obj>, n: Obj): (c: Record<Obj>)
    ensures c.entries == custom.entries[ToPropertyKey(Get(n, Key)) := n]
    ensures |c.order| == |custom.order| + (if ToPropertyKey(Get(n, Key)) in custom.entries then 0 else 1)
    ensures c.order[..|custom.order|] == custom.order
  {
    Put(custom, ToPropertyKey(Get(n, Key)), n)
  }

  /**
   * `Object.assign(custom[k], p)`: the fields in `p` are overwritten, the others kept, the
   * entry stays under `k` in its place; a missing entry is the TypeError of assigning onto undefined.
   */
  function UpdateCustom(custom: Record<Obj>, k: string, p: Obj): (r: Result<Record<Obj>, SelectionError>)
    ensures r.Err? <==> k !in custom.entries
    ensures r.Err? ==> r.error == NotAnObject(k)
    ensures r.Ok? ==> r.value.order == custom.order && r.value.entries.Keys == custom.entries.Keys
    ensures r.Ok? ==> forall j :: j in custom.entries && j != k ==> r.value.entries[j] == custom.entries[j]
    ensures r.Ok? ==> forall f ::
      Get(r.value.entries[k], f) == if f in p then p[f] else Get(custom.entries[k], f)
  {
    if k !in custom.entries then Err(NotAnObject(k))
    else Ok(Put(custom, k, Spread(custom.entries[k], p)))
  }

  /** `delete custom[k]` */
  function RemoveCustom(custom: Record<Obj>, k: string): (c: Record<Obj>)
    ensures c.entries == custom.entries - {k}
    ensures c.order == Without(custom.order, k)
    ensures forall j :: j in c.order <==> j in custom.order && j != k
  {
    Delete(custom, k)
  }

  /** Once the selected custom network is removed, resolving the selection fails (when nothing resets it). */
  lemma RemovedCustomIsUnknown(k: string, custom: Record<Obj>, overrides: map<string, Obj>)
    requires k !in NETWORKS
    ensures Resolve(k, RemoveCustom(custom, k), overrides) == Err(UnknownKey(k))
  {
  }

  /** `v !== '' && v != null` is false: the values `setOverride` strips. */
  predicate IsEmptyValue(v: Value) {
    v == Str("") || IsNullish(v)
  }

  /** The filter comprehension of `setOverride`: the fields of `patch` whose value is not empty. */
  function Clean(patch: Obj): (c: Obj)
    ensures forall f :: f in c <==> f in patch && !IsEmptyValue(patch[f])
    ensures forall f :: f in c ==> c[f] == patch[f]
  {
    map f | f in patch && !IsEmptyValue(patch[f]) :: patch[f]
  }

  /**
   * `setOverride` that strips: no surviving field deletes the whole override for `k`;
   * otherwise the surviving fields are spread over the existing override, new values winning.
   */
  function SetOverrideStripped(overrides: map<string, Obj>, k: string, patch: Obj): (o: map<string, Obj>)
    ensures forall j :: j != k ==> (j in o <==> j in overrides) && (j in o ==> o[j] == overrides[j])
    ensures k in o <==> exists f :: f in patch && !IsEmptyValue(patch[f])
    ensures k in o ==> forall f ::
      Get(o[k], f) == if f in patch && !IsEmptyValue(patch[f]) then patch[f] else Get(OverrideOf(overrides, k), f)
    ensures k in o ==> o[k].Keys == OverrideOf(overrides, k).Keys + Clean(patch).Keys
  {
    var clean := Clean(patch);
    if clean == map[] then overrides - {k}
    else
      assert exists f :: f in clean;
      overrides[k := Spread(OverrideOf(overrides, k), clean)]
  }

  /** `setOverride` that does not strip: an object with no keys deletes the override, any other is spread over it. */
  function SetOverrideRaw(overrides: map<string, Obj>, k: string, patch: Obj): (o: map<string, Obj>)
    ensures forall j :: j != k ==> (j in o <==> j in overrides) && (j in o ==> o[j] == overrides[j])
    ensures k in o <==> patch != map[]
    ensures k in o ==> forall f :: Get(o[k], f) == if f in patch then patch[f] else Get(OverrideOf(overrides, k), f)
  {
    if patch == map[] then overrides - {k}
    else overrides[k := Spread(OverrideOf(overrides, k), patch)]
  }

  /** No stored override is `{}` and none holds `''`, `null` or `undefined`. */
  predicate OverridesClean(overrides: map<string, Obj>) {
    forall k :: k in overrides ==>
      overrides[k] != map[] && forall f :: f in overrides[k] ==> !IsEmptyValue(overrides[k][f])
  }

  /** Stripping keeps every stored override clean. */
  lemma SetOverridePreservesClean(overrides: map<string, Obj>, k: string, patch: Obj)
    requires OverridesClean(overrides)
    ensures OverridesClean(SetOverrideStripped(overrides, k, patch))
  {
    var o := SetOverrideStripped(overrides, k, patch);
    if k in o {
      var f :| f in patch && !IsEmptyValue(patch[f]);
      assert f in o[k];
      forall g | g in o[k] ensures !IsEmptyValue(o[k][g]) {
        assert Get(o[k], g) == o[k][g];
      }
    }
  }

  /** With clean overrides, a predefined network always resolves to a non-empty RPC URL whenever its override's URL is a string. */
  lemma CleanOverrideKeepsRpcUrl(k: NetworkKey, custom: Record<Obj>, overrides: map<string, Obj>)
    requires OverridesClean(overrides)
    requires RpcUrl in OverrideOf(overrides, k) ==> overrides[k][RpcUrl].Str?
    ensures Resolve(k, custom, overrides).Ok?
    ensures var url := Get(Resolve(k, custom, overrides).value, RpcUrl); url.Str? && url.s != ""
  {
    var _ := Predefined(k);
  }

  /** A patch with nothing left after stripping records no override at all. */
  lemma StrippedToNothing(k: string, patch: Obj)
    requires forall f :: f in patch ==> IsEmptyValue(patch[f])
    ensures SetOverrideStripped(map[], k, patch) == map[]
  {
    assert Clean(patch) == map[] by {
      assert forall f :: f !in Clean(patch);
    }
  }

  /** A predefined network under an override recorded without stripping: each field of the patch wins as given. */
  lemma ResolveRaw(k: NetworkKey, custom: Record<Obj>, patch: Obj, f: Field)
    requires f in patch
    ensures Get(Resolve(k, custom, SetOverrideRaw(map[], k, patch)).value, f) == patch[f]
  {
  }

  /**
   * The one input on which the versions differ most visibly: a blank RPC URL for a predefined network.
   * Stripping ignores it and the network keeps its own URL; the raw version stores it and the
   * network resolves to an empty URL.
   */
  lemma BlankRpcUrlOverride(k: NetworkKey, custom: Record<Obj>)
    ensures var patch := map[RpcUrl := Str("")];
      && Get(Resolve(k, custom, SetOverrideStripped(map[], k, patch)).value, RpcUrl)
         == Get(NETWORKS[k], RpcUrl)
      && Get(Resolve(k, custom, SetOverrideRaw(map[], k, patch)).value, RpcUrl) == Str("")
  {
    var patch := map[RpcUrl := Str("")];
    StrippedToNothing(k, patch);
    NoOverrideIsPredefined(k, custom, map[]);
    ResolveRaw(k, custom, patch, RpcUrl);
  }

  /** Stripping treats every field alike: a blank label is dropped just as a blank RPC URL is; the raw version stores it. */
  lemma BlankLabelOverride(k: NetworkKey, custom: Record<Obj>)
    ensures var patch := map[Label := Str("")];
      && SetOverrideStripped(map[], k, patch) == map[]
      && Get(Resolve(k, custom, SetOverrideRaw(map[], k, patch)).value, Label) == Str("")
  {
    var patch := map[Label := Str("")];
    StrippedToNothing(k, patch);
    ResolveRaw(k, custom, patch, Label);
  }

  /** Without stripping, a field given as `undefined` hides the predefined value. */
  lemma RawOverrideCanUnsetField(k: NetworkKey, custom: Record<Obj>)
    ensures var patch := map[BlockExplorer := Undefined];
      && SetOverrideStripped(map[], k, patch) == map[]
      && Get(Resolve(k, custom, SetOverrideRaw(map[], k, patch)).value, BlockExplorer) == Undefined
  {
    var patch := map[BlockExplorer := Undefined];
    StrippedToNothing(k, patch);
    ResolveRaw(k, custom, patch, BlockExplorer);
  }

  /** The `netconf` document as storage gives it back: `Object.assign` copies whichever of these properties it has. */
  datatype NetConf = NetConf(selected: Option<string>, custom: Option<Record<Obj>>, overrides: Option<map<string, Obj>>)

  /** The document the persistence watcher writes: the whole state. */
  function Snapshot(selected: string, custom: Record<Obj>, overrides: map<string, Obj>): NetConf {
    NetConf(Some(selected), Some(custom), Some(overrides))
  }
}
