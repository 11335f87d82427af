/**
 * The validated list of user-added networks, stored as one array under
 * `custom-networks`. Adding checks the chain ID against the predefined networks
 * and the custom ones; updating replaces by key and checks only the predefined
 * chain IDs (allowing the one whose number is the key); deleting filters by key.
 */
module CustomNetworks {
  import opened Wrappers
  import opened JsStrings
  import opened JsValues
  import opened Networks

  datatype CustomNetworkError =
    | PredefinedChainId(chainId: Value)        // "A predefined network with chain ID … already exists"
    | DuplicateChainId(chainId: Value)         // "A custom network with chain ID … already exists"
    | NotFound(key: string)                    // "Custom network with key … not found"
    | ConflictsWithPredefined(chainId: Value)  // "Chain ID … conflicts with a predefined network"

  /** `n.chainId`, compared with `===`. */
  function ChainIdOf(n: Obj): Value {
    Get(n, ChainId)
  }

  /** `customNetworks.some(n => n.chainId === id)` */
  predicate ChainIdUsed(list: seq<Obj>, id: Value) {
    exists i :: 0 <= i < |list| && ChainIdOf(list[i]) == id
  }

  /** `addCustomNetwork`: rejects a predefined chain ID, then one a custom network has; otherwise appends. */
  function Add(list: seq<Obj>, n: Obj): (r: Result<seq<Obj>, CustomNetworkError>)
    ensures ChainIdOf(n) in PredefinedChainIds() ==> r == Err(PredefinedChainId(ChainIdOf(n)))
    ensures ChainIdOf(n) !in PredefinedChainIds() && ChainIdUsed(list, ChainIdOf(n)) ==>
      r == Err(DuplicateChainId(ChainIdOf(n)))
    ensures r.Ok? <==> ChainIdOf(n) !in PredefinedChainIds() && !ChainIdUsed(list, ChainIdOf(n))
    ensures r.Ok? ==> |r.value| == |list| + 1 && r.value[..|list|] == list && r.value[|list|] == n
  {
    if ChainIdOf(n) in PredefinedChainIds() then Err(PredefinedChainId(ChainIdOf(n)))
    else if ChainIdUsed(list, ChainIdOf(n)) then Err(DuplicateChainId(ChainIdOf(n)))
    else Ok(list + [n])
  }

  /** Custom chain IDs are pairwise distinct and none is a predefined one. */
  predicate ChainIdsValid(list: seq<Obj>) {
    && (forall i :: 0 <= i < |list| ==> ChainIdOf(list[i]) !in PredefinedChainIds())
    && (forall i, j :: 0 <= i < j < |list| ==> ChainIdOf(list[i]) != ChainIdOf(list[j]))
  }

  /** A successful add keeps the chain IDs valid. */
  lemma AddPreservesValid(list: seq<Obj>, n: Obj)
    requires ChainIdsValid(list) && Add(list, n).Ok?
    ensures ChainIdsValid(Add(list, n).value)
  {
    var r := Add(list, n).value;
    forall i, j | 0 <= i < j < |r| ensures ChainIdOf(r[i]) != ChainIdOf(r[j]) {
      if j == |list| {
        assert r[i] == list[i];
        assert !(0 <= i < |list| && ChainIdOf(list[i]) == ChainIdOf(n));
      } else {
        assert r[i] == list[i] && r[j] == list[j];
      }
    }
  }

  /** Adding the networks of `ns` one at a time, stopping at the first rejection. */
  function AddAll(list: seq<Obj>, ns: seq<Obj>): Result<seq<Obj>, CustomNetworkError>
    decreases |ns|
  {
    if ns == [] then Ok(list)
    else
      match Add(list, ns[0])
      case Err(e) => Err(e)
      case Ok(l) => AddAll(l, ns[1..])
  }

  /** From an empty list, any run of successful adds leaves the chain IDs valid. */
  lemma {:induction false} AddAllValid(list: seq<Obj>, ns: seq<Obj>)
    requires ChainIdsValid(list)
    ensures AddAll(list, ns).Ok? ==> ChainIdsValid(AddAll(list, ns).value)
    decreases |ns|
  {
    if ns != [] && Add(list, ns[0]).Ok? {
      AddPreservesValid(list, ns[0]);
      AddAllValid(Add(list, ns[0]).value, ns[1..]);
    }
  }

  /** `findIndex(n => n.key === key)` */
  function FindKey(list: seq<Obj>, key: string): (r: Option<nat>)
    ensures r.Some? ==> r.value < |list| && Get(list[r.value], Key) == Str(key)
    ensures r.Some? ==> forall i :: 0 <= i < r.value ==> Get(list[i], Key) != Str(key)
    ensures r.None? ==> forall i :: 0 <= i < |list| ==> Get(list[i], Key) != Str(key)
  {
    if list == [] then None
    else if Get(list[0], Key) == Str(key) then Some(0)
    else match FindKey(list[1..], key)
      case None => None
      case Some(i) => Some(i + 1)
  }

  /** `chainId === parseInt(key)`: false when the key does not parse, `NaN` equalling nothing. */
  predicate KeyNamesChainId(key: string, id: Value) {
    ParseInt(key).Some? && id == Num(ParseInt(key).value)
  }

  /**
   * `updateCustomNetwork`: the first entry with the key is replaced wholesale; a predefined
   * chain ID is refused unless it equals `parseInt(key)`; other custom chain IDs are not checked.
   */
  function Update(list: seq<Obj>, key: string, n: Obj): (r: Result<seq<Obj>, CustomNetworkError>)
    ensures FindKey(list, key).None? ==> r == Err(NotFound(key))
    ensures r.Err? <==>
      (FindKey(list, key).None? || (ChainIdOf(n) in PredefinedChainIds() && !KeyNamesChainId(key, ChainIdOf(n))))
    ensures r.Err? && FindKey(list, key).Some? ==> r.error == ConflictsWithPredefined(ChainIdOf(n))
    ensures r.Ok? ==> var i := FindKey(list, key).value;
      |r.value| == |list| && r.value[i] == n && forall j :: 0 <= j < |list| && j != i ==> r.value[j] == list[j]
  {
    match FindKey(list, key)
    case None => Err(NotFound(key))
    case Some(i) =>
      if ChainIdOf(n) in PredefinedChainIds() && !KeyNamesChainId(key, ChainIdOf(n)) then
        Err(ConflictsWithPredefined(ChainIdOf(n)))
      else Ok(list[i := n])
  }

  /** Updates can break what adds keep: two custom networks may end up with one chain ID. */
  lemma UpdateMayDuplicateChainId()
    ensures var a, b := map[Key := Str("a"), ChainId := Num(100)], map[Key := Str("b"), ChainId := Num(200)];
      && ChainIdsValid([a, b])
      && Update([a, b], "b", map[Key := Str("b"), ChainId := Num(100)]).Ok?
      && !ChainIdsValid(Update([a, b], "b", map[Key := Str("b"), ChainId := Num(100)]).value)
  {
    var a, b := map[Key := Str("a"), ChainId := Num(100)], map[Key := Str("b"), ChainId := Num(200)];
    PredefinedChainIdList();
    assert FindKey([a, b], "b") == Some(1);
  }

  /** A key that is a chain ID written in decimal names that chain ID: the key `'57'` names 57, Syscoin's. */
  lemma KeyNamesDecimalChainId(n: int)
    ensures KeyNamesChainId(NumberToString(n), Num(n))
  {
    ParseIntOfNumberToString(n);
  }

  /**
   * Updates can also give a custom network a predefined chain ID, when its key is that number
   * (`KeyNamesDecimalChainId`: the key `'57'` and Syscoin's chain ID 57).
   */
  lemma UpdateMayTakePredefinedChainId(list: seq<Obj>, key: string, n: Obj)
    requires FindKey(list, key).Some?
    requires ChainIdOf(n) in PredefinedChainIds() && KeyNamesChainId(key, ChainIdOf(n))
    ensures Update(list, key, n).Ok?
    ensures !ChainIdsValid(Update(list, key, n).value)
  {
    var i := FindKey(list, key).value;
    assert ChainIdOf(Update(list, key, n).value[i]) in PredefinedChainIds();
  }

  /** `filter(n => n.key !== key)` */
  function DeleteKey(list: seq<Obj>, key: string): (r: seq<Obj>)
    ensures |r| <= |list|
    ensures forall n :: n in r <==> n in list && Get(n, Key) != Str(key)
    ensures FindKey(list, key).None? ==> r == list
  {
    if list == [] then []
    else if Get(list[0], Key) == Str(key) then DeleteKey(list[1..], key)
    else [list[0]] + DeleteKey(list[1..], key)
  }

  /** Deleting keeps the others in order and number: it distributes over concatenation. */
  lemma {:induction false} DeleteDistributes(a: seq<Obj>, b: seq<Obj>, key: string)
    ensures DeleteKey(a + b, key) == DeleteKey(a, key) + DeleteKey(b, key)
  {
    if a == [] {
      assert a + b == b;
    } else {
      assert (a + b)[1..] == a[1..] + b;
      DeleteDistributes(a[1..], b, key);
    }
  }

  /** An entry with another key survives deletion in its place; one with the key is dropped. */
  lemma DeleteOne(n: Obj, key: string)
    ensures DeleteKey([n], key) == if Get(n, Key) == Str(key) then [] else [n]
  {
    assert [n][1..] == [];
  }

  /** The key-value store holding the list, as `customNetwork.ts` reads and writes it. */
  class CustomNetworkStorage {
    /** The `custom-networks` array; `None` when nothing is stored. */
    var stored: Option<seq<Obj>>

    constructor (saved: Option<seq<Obj>>)
      ensures stored == saved
    {
      stored := saved;
    }

    /** `getCustomNetworks`: the stored list, or `[]` when nothing is stored. */
    method GetCustomNetworks() returns (list: seq<Obj>)
      ensures stored.None? ==> list == []
      ensures stored.Some? ==> list == stored.value
    {
      list := if stored.Some? then stored.value else [];
    }

    /** `addCustomNetwork`: validate, push, write back; a rejection writes nothing. */
    method AddCustomNetwork(n: Obj) returns (r: Outcome<CustomNetworkError>)
      modifies this
      ensures var old_list := if old(stored).Some? then old(stored).value else [];
        && (r.Pass? <==> Add(old_list, n).Ok?)
        && (r.Pass? ==> stored == Some(old_list + [n]))
        && (r.Fail? ==> stored == old(stored) && r.error == Add(old_list, n).error)
    {
      var list := GetCustomNetworks();
      var added := Add(list, n);
      if added.Err? {
        return Fail(added.error);
      }
      stored := Some(added.value);
      r := Pass;
    }

    /** `updateCustomNetwork`: find by key, validate, replace at that index, write back. */
    method UpdateCustomNetwork(key: string, n: Obj) returns (r: Outcome<CustomNetworkError>)
      modifies this
      ensures var old_list := if old(stored).Some? then old(stored).value else [];
        && (r.Pass? <==> Update(old_list, key, n).Ok?)
        && (r.Pass? ==> stored == Some(Update(old_list, key, n).value))
        && (r.Fail? ==> stored == old(stored) && r.error == Update(old_list, key, n).error)
    {
      var list := GetCustomNetworks();
      var updated := Update(list, key, n);
      if updated.Err? {
        return Fail(updated.error);
      }
      stored := Some(updated.value);
      r := Pass;
    }

    /** `deleteCustomNetwork`: always writes the filtered list back. */
    method DeleteCustomNetwork(key: string)
      modifies this
      ensures var old_list := if old(stored).Some? then old(stored).value else [];
        stored == Some(DeleteKey(old_list, key))
    {
      var list := GetCustomNetworks();
      stored := Some(DeleteKey(list, key));
    }
  }
}
