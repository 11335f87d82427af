/**
 * Tokens the user imported, kept per network under `evm-imported-tokens` as one
 * object from network key to token list. Addresses are compared case-insensitively.
 * The current network is a parameter here; it comes from the network selection.
 */
module ImportedTokens {
  import opened Wrappers
  import opened JsStrings

  datatype ImportedToken = ImportedToken(address: string, symbol: string, name: string, decimals: int)

  /** `a.toLowerCase() === b.toLowerCase()` */
  predicate SameAddress(a: string, b: string) {
    ToLower(a) == ToLower(b)
  }

  /** Comparing up to case is an equivalence, and an address names the same token as its lower-case spelling. */
  lemma SameAddressEquivalence(a: string, b: string, c: string)
    ensures SameAddress(a, a)
    ensures SameAddress(a, b) ==> SameAddress(b, a)
    ensures SameAddress(a, b) && SameAddress(b, c) ==> SameAddress(a, c)
    ensures SameAddress(a, ToLower(a))
  {
    ToLowerIdempotent(a);
  }

  /** `list.find(t => SameAddress(t.address, address))` returns a token. */
  predicate HasAddress(list: seq<ImportedToken>, address: string) {
    exists i :: 0 <= i < |list| && SameAddress(list[i].address, address)
  }

  /** No two tokens of a list have the same address up to case. */
  predicate UniqueAddresses(list: seq<ImportedToken>) {
    forall i, j :: 0 <= i < j < |list| ==> !SameAddress(list[i].address, list[j].address)
  }

  /** The list `addImportedToken` leaves: appended at the end unless the address is already there. */
  function AddToken(list: seq<ImportedToken>, t: ImportedToken): (r: seq<ImportedToken>)
    ensures HasAddress(list, t.address) ==> r == list
    ensures !HasAddress(list, t.address) ==> r == list + [t]
    ensures HasAddress(r, t.address)
  {
    if HasAddress(list, t.address) then list
    else
      assert (list + [t])[|list|] == t;
      list + [t]
  }

  /** Adds keep the addresses unique up to case. */
  lemma AddPreservesUnique(list: seq<ImportedToken>, t: ImportedToken)
    requires UniqueAddresses(list)
    ensures UniqueAddresses(AddToken(list, t))
  {
    if !HasAddress(list, t.address) {
      var r := list + [t];
      forall i, j | 0 <= i < j < |r| ensures !SameAddress(r[i].address, r[j].address) {
        if j == |list| {
          assert r[i] == list[i];
        }
      }
    }
  }

  /** Adding the same token twice is adding it once. */
  lemma AddTwiceIsOnce(list: seq<ImportedToken>, t: ImportedToken)
    ensures AddToken(AddToken(list, t), t) == AddToken(list, t)
  {
  }

  /** Tokens added one after another, from an empty list. */
  function AddAll(list: seq<ImportedToken>, ts: seq<ImportedToken>): seq<ImportedToken>
    decreases |ts|
  {
    if ts == [] then list else AddAll(AddToken(list, ts[0]), ts[1..])
  }

  /** Whatever sequence of adds, a network's addresses stay unique up to case. */
  lemma {:induction false} AddAllUnique(list: seq<ImportedToken>, ts: seq<ImportedToken>)
    requires UniqueAddresses(list)
    ensures UniqueAddresses(AddAll(list, ts))
    decreases |ts|
  {
    if ts != [] {
      AddPreservesUnique(list, ts[0]);
      AddAllUnique(AddToken(list, ts[0]), ts[1..]);
    }
  }

  /** `filter(t => !SameAddress(t.address, address))` */
  function RemoveToken(list: seq<ImportedToken>, address: string): (r: seq<ImportedToken>)
    ensures |r| <= |list|
    ensures forall t :: t in r <==> t in list && !SameAddress(t.address, address)
    ensures !HasAddress(r, address)
  {
    if list == [] then []
    else if SameAddress(list[0].address, address) then RemoveToken(list[1..], address)
    else
      var rest := RemoveToken(list[1..], address);
      assert forall i :: 1 <= i < |[list[0]] + rest| ==> ([list[0]] + rest)[i] == rest[i - 1];
      [list[0]] + rest
  }

  /** Removal keeps the remaining tokens in their order: it distributes over concatenation. */
  lemma {:induction false} RemoveDistributes(a: seq<ImportedToken>, b: seq<ImportedToken>, address: string)
    ensures RemoveToken(a + b, address) == RemoveToken(a, address) + RemoveToken(b, address)
  {
    if a == [] {
      assert a + b == b;
    } else {
      assert (a + b)[1..] == a[1..] + b;
      RemoveDistributes(a[1..], b, address);
    }
  }

  /** Removing an address that is not in the list changes nothing. */
  lemma {:induction false} RemoveAbsent(list: seq<ImportedToken>, address: string)
    requires !HasAddress(list, address)
    ensures RemoveToken(list, address) == list
  {
    if list != [] {
      assert !SameAddress(list[0].address, address);
      assert !HasAddress(list[1..], address) by {
        forall i | 0 <= i < |list[1..]| ensures !SameAddress(list[1..][i].address, address) {
          assert list[1..][i] == list[i + 1];
        }
      }
      RemoveAbsent(list[1..], address);
      assert list == [list[0]] + list[1..];
    }
  }

  /** Removing what was just added restores the list. */
  lemma RemoveUndoesAdd(list: seq<ImportedToken>, t: ImportedToken)
    requires !HasAddress(list, t.address)
    ensures RemoveToken(AddToken(list, t), t.address) == list
  {
    RemoveDistributes(list, [t], t.address);
    RemoveAbsent(list, t.address);
    assert RemoveToken([t], t.address) == [];
  }

  /** Upper and lower case spellings of an address name the same token: the second is not added. */
  lemma CaseInsensitive(list: seq<ImportedToken>, t: ImportedToken, u: ImportedToken)
    requires SameAddress(t.address, u.address)
    ensures AddToken(AddToken(list, t), u) == AddToken(list, t)
  {
    var r := AddToken(list, t);
    var i :| 0 <= i < |r| && SameAddress(r[i].address, t.address);
    assert SameAddress(r[i].address, u.address);
  }

  /** `all[net] || []` */
  function Bucket(all: map<string, seq<ImportedToken>>, net: string): seq<ImportedToken> {
    if net in all then all[net] else []
  }

  /** The key-value store's `evm-imported-tokens` entry. */
  class TokenStorage {
    /** `None` when nothing is stored. */
    var stored: Option<map<string, seq<ImportedToken>>>

    constructor (saved: Option<map<string, seq<ImportedToken>>>)
      ensures stored == saved
    {
      stored := saved;
    }

    function All(): map<string, seq<ImportedToken>>
      reads this
    {
      if stored.Some? then stored.value else map[]
    }

    /** `getImportedTokens`: the current network's list, or `[]`. */
    method GetImportedTokens(net: string) returns (list: seq<ImportedToken>)
      ensures net in All() ==> list == All()[net]
      ensures net !in All() ==> list == []
    {
      var all := All();
      list := Bucket(all, net);
    }

    /** `addImportedToken`: a new address is appended and written; a known one writes nothing. */
    method AddImportedToken(net: string, t: ImportedToken)
      modifies this
      ensures HasAddress(Bucket(old(All()), net), t.address) ==> stored == old(stored)
      ensures !HasAddress(Bucket(old(All()), net), t.address) ==>
        stored == Some(old(All())[net := Bucket(old(All()), net) + [t]])
      ensures Bucket(All(), net) == AddToken(Bucket(old(All()), net), t)
      ensures forall other :: other != net ==> Bucket(All(), other) == Bucket(old(All()), other)
    {
      var all := All();
      var existing := Bucket(all, net);
      if !HasAddress(existing, t.address) {
        all := all[net := existing + [t]];
        stored := Some(all);
      }
    }

    /** `removeImportedToken`: always writes, creating the network's bucket when there was none. */
    method RemoveImportedToken(net: string, address: string)
      modifies this
      ensures stored == Some(old(All())[net := RemoveToken(Bucket(old(All()), net), address)])
      ensures forall other :: other != net ==> Bucket(All(), other) == Bucket(old(All()), other)
    {
      var all := All();
      all := all[net := RemoveToken(Bucket(all, net), address)];
      stored := Some(all);
    }
  }
}
