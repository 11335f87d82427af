/**
 * JavaScript values and plain objects, as far as the wallet's configuration code
 * observes them. A `NetworkInfo` or a `Partial<NetworkInfo>` is an object whose own
 * properties are some of the six `NetworkInfo` fields; a property that is present
 * may still hold `undefined` or `null`, which is why objects are maps and not records.
 */
module JsValues {
  import opened Wrappers
  import opened JsStrings

  /** A property value: the number and string cases are the ones `NetworkInfo` declares. Numbers are integral. */
  datatype Value = Undefined | Null | Num(n: int) | Str(s: string)

  /** `v == null` (loose equality): true of `null` and `undefined`. */
  predicate IsNullish(v: Value) {
    v.Undefined? || v.Null?
  }

  /** `String(v)`: the text a value becomes as a property key or inside a template literal. */
  function ToPropertyKey(v: Value): string {
    match v
    case Undefined => "undefined"
    case Null => "null"
    case Num(n) => NumberToString(n)
    case Str(s) => s
  }

  /** A numeric key is stored under its decimal name, and `parseInt` of that name gives the number back. */
  lemma NumericKeyParsesBack(n: int)
    ensures ParseInt(ToPropertyKey(Num(n))) == Some(n)
  {
    ParseIntOfNumberToString(n);
  }

  /** The property names of `NetworkInfo`. */
  datatype Field = Key | Label | ChainId | NativeSymbol | RpcUrl | BlockExplorer

  /** A plain object over `NetworkInfo`'s property names: its own properties and their values. */
  type Obj = map<Field, Value>

  /** `o[f]`: reading a property that is not there gives `undefined`. */
  function Get(o: Obj, f: Field): Value {
    if f in o then o[f] else Undefined
  }

  /**
   * `{ ...a, ...b }`, and equally `Object.assign(a, b)`: every own property of `b`
   * (even one that holds `undefined`) replaces or adds to those of `a`.
   */
  function Spread(a: Obj, b: Obj): (r: Obj)
    ensures r.Keys == a.Keys + b.Keys
    ensures forall f :: f in b ==> r[f] == b[f]
    ensures forall f :: f in a && f !in b ==> r[f] == a[f]
  {
    a + b
  }

  /** Reading a property of a spread object: `b`'s own properties first, then `a`'s. */
  lemma GetSpread(a: Obj, b: Obj)
    ensures forall f :: Get(Spread(a, b), f) == if f in b then b[f] else Get(a, f)
  {
  }

  predicate NoDuplicates<T(==)>(s: seq<T>) {
    forall i, j :: 0 <= i < j < |s| ==> s[i] != s[j]
  }

  /** A string-keyed object `Record<string, V>`: its values, and its keys in insertion order. */
  datatype RecordRep<V> = RecordRep(order: seq<string>, entries: map<string, V>)

  predicate IsRecord<V>(r: RecordRep<V>) {
    && NoDuplicates(r.order)
    && (forall k :: k in r.order ==> k in r.entries)
    && (forall k :: k in r.entries ==> k in r.order)
  }

  type Record<V> = r: RecordRep<V> | IsRecord(r) witness RecordRep([], map[])

  /** `{}` */
  function EmptyRecord<V>(): Record<V> {
    RecordRep([], map[])
  }

  /** `r[k] = v`: an existing key keeps its place, a new key goes last. */
  function Put<V>(r: Record<V>, k: string, v: V): (r': Record<V>)
    ensures r'.entries == r.entries[k := v]
    ensures k in r.entries ==> r'.order == r.order
    ensures k !in r.entries ==> r'.order == r.order + [k]
  {
    if k in r.entries then RecordRep(r.order, r.entries[k := v])
    else RecordRep(r.order + [k], r.entries[k := v])
  }

  /** `s` without the element `x`, the others in their order. */
  function Without<T(==,!new)>(s: seq<T>, x: T): (r: seq<T>)
    ensures forall y :: y in r <==> y in s && y != x
    ensures NoDuplicates(s) ==> NoDuplicates(r)
    ensures x !in s ==> r == s
  {
    if s == [] then []
    else if s[0] == x then Without(s[1..], x)
    else
      var rest := Without(s[1..], x);
      var r := [s[0]] + rest;
      assert NoDuplicates(s) ==> NoDuplicates(r) by {
        if NoDuplicates(s) {
          assert s[0] !in s[1..] by {
            forall j | 0 <= j < |s[1..]| ensures s[1..][j] != s[0] {
              assert s[1..][j] == s[j + 1];
            }
          }
          assert NoDuplicates(s[1..]) by {
            forall i, j | 0 <= i < j < |s[1..]| ensures s[1..][i] != s[1..][j] {
              assert s[1..][i] == s[i + 1] && s[1..][j] == s[j + 1];
            }
          }
          forall i, j | 0 <= i < j < |r| ensures r[i] != r[j] {
            assert r[j] == rest[j - 1] && rest[j - 1] in rest;
            if i > 0 {
              assert r[i] == rest[i - 1];
            }
          }
        }
      }
      r
  }

  /** Appending the element that is taken out anyway changes nothing. */
  lemma {:induction false} WithoutAppended<T(!new)>(s: seq<T>, x: T)
    ensures Without(s + [x], x) == Without(s, x)
  {
    if s == [] {
      assert [x][1..] == [];
    } else {
      assert (s + [x])[1..] == s[1..] + [x];
      WithoutAppended(s[1..], x);
    }
  }

  /** Taking `x` out of a concatenation takes it out of each part. */
  lemma {:induction false} WithoutDistributes<T(!new)>(a: seq<T>, b: seq<T>, x: T)
    ensures Without(a + b, x) == Without(a, x) + Without(b, x)
  {
    if a == [] {
      assert a + b == b;
    } else {
      assert (a + b)[1..] == a[1..] + b;
      WithoutDistributes(a[1..], b, x);
    }
  }

  /** `delete r[k]`: the other keys keep their order; an absent key changes nothing. */
  function Delete<V>(r: Record<V>, k: string): (r': Record<V>)
    ensures r'.entries == r.entries - {k}
    ensures r'.order == Without(r.order, k)
    ensures k !in r.entries ==> r' == r
  {
    var order, entries := Without(r.order, k), r.entries - {k};
    assert forall j :: j in order <==> j in entries;
    assert k !in r.entries ==> entries == r.entries;
    RecordRep(order, entries)
  }

  /** `Object.values(r)`: the values in key order. */
  function Values<V>(r: Record<V>): (vs: seq<V>)
    ensures |vs| == |r.order|
    ensures forall i :: 0 <= i < |vs| ==> r.order[i] in r.entries && vs[i] == r.entries[r.order[i]]
  {
    seq(|r.order|, i requires 0 <= i < |r.order| => r.entries[r.order[i]])
  }

  /** In a sequence without duplicates, removing the element at `i` leaves the rest in order. */
  lemma {:induction false} WithoutAt<T(!new)>(s: seq<T>, i: nat, x: T)
    requires i < |s| && s[i] == x && NoDuplicates(s)
    ensures Without(s, x) == s[..i] + s[i + 1..]
  {
    var t := s[1..];
    if i == 0 {
      assert x !in t by {
        forall j | 0 <= j < |t| ensures t[j] != x { assert t[j] == s[j + 1]; }
      }
      assert s[..i] + s[i + 1..] == t;
    } else {
      assert s[0] != x;
      assert NoDuplicates(t) by {
        forall p, q | 0 <= p < q < |t| ensures t[p] != t[q] { assert t[p] == s[p + 1] && t[q] == s[q + 1]; }
      }
      WithoutAt(t, i - 1, x);
      assert s[..i] == [s[0]] + t[..i - 1];
      assert s[i + 1..] == t[i..];
    }
  }

  /** Deleting the key at position `i` of the key order leaves the keys before and after it, in their order. */
  lemma DeleteOrder<V>(r: Record<V>, k: string, i: nat)
    requires i < |r.order| && r.order[i] == k
    ensures Delete(r, k).order == r.order[..i] + r.order[i + 1..]
  {
    WithoutAt(r.order, i, k);
  }

  /** Deleting a key just added restores the object, key order included. */
  lemma DeleteUndoesPut<V>(r: Record<V>, k: string, v: V)
    requires k !in r.entries
    ensures Delete(Put(r, k, v), k) == r
  {
    WithoutAppended(r.order, k);
    assert r.entries[k := v] - {k} == r.entries;
  }

  /** A value stored under a new key is listed last by `Object.values`; one stored under a known key takes that key's place. */
  lemma ValuesOfPut<V>(r: Record<V>, k: string, v: V)
    ensures k !in r.entries ==> Values(Put(r, k, v)) == Values(r) + [v]
    ensures k in r.entries ==> forall i :: 0 <= i < |r.order| ==>
      Values(Put(r, k, v))[i] == if r.order[i] == k then v else Values(r)[i]
  {
    var vs := Values(Put(r, k, v));
    if k !in r.entries {
      assert |vs| == |Values(r) + [v]|;
      forall i | 0 <= i < |vs| ensures vs[i] == (Values(r) + [v])[i] {
        if i < |r.order| {
          assert r.order[i] != k;
        }
      }
    }
  }
}
