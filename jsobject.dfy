/**
 The JavaScript values the Tailwind and JSON formatters build before handing
 them to `JSON.stringify`: strings and plain objects, an object being its
 list of own properties in insertion order. `EnumerationOrder` gives the
 order JavaScript enumerates them in, which puts array-index keys first.
 */
module JsObject {
  import opened Text

  datatype Option<T> = None | Some(value: T)

  /** A JSON-serialisable value as the formatters build it. */
  datatype Json =
    | JString(s: string)
    | JObject(members: seq<(string, Json)>)

  /** The keys of a property list, in order. */
  function Keys<V>(props: seq<(string, V)>): (keys: seq<string>)
    ensures |keys| == |props|
    ensures forall i :: 0 <= i < |props| ==> keys[i] == props[i].0
  {
    if props == [] then [] else [props[0].0] + Keys(props[1..])
  }

  /** A non-empty sequence is its first element followed by the rest. */
  lemma FirstAndRest<T>(s: seq<T>)
    requires s != []
    ensures [s[0]] + s[1..] == s
  {
  }

  lemma DropFirst<T>(x: T, s: seq<T>)
    ensures ([x] + s)[1..] == s
  {
  }

  lemma ConsAppend<T>(x: T, a: seq<T>, b: seq<T>)
    ensures [x] + (a + b) == [x] + a + b
  {
  }

  predicate Distinct(keys: seq<string>) {
    forall i, j :: 0 <= i < j < |keys| ==> keys[i] != keys[j]
  }

  /** The value stored under `k`, if any. */
  function Lookup<V>(props: seq<(string, V)>, k: string): (r: Option<V>)
    ensures r.None? <==> k !in Keys(props)
  {
    if props == [] then None
    else if props[0].0 == k then Some(props[0].1)
    else Lookup(props[1..], k)
  }

  /** Defining property `k` on an ordinary object: a key it already has keeps
      its place (the value is replaced, see PutLookup), a new key goes at the
      end. */
  function Put<V>(props: seq<(string, V)>, k: string, v: V): (r: seq<(string, V)>)
    ensures Keys(r) == if k in Keys(props) then Keys(props) else Keys(props) + [k]
    ensures k !in Keys(props) ==> r == props + [(k, v)]
  {
    if props == [] then [(k, v)]
    else if props[0].0 == k then [(k, v)] + props[1..]
    else
      var rest := Put(props[1..], k, v);
      DropFirst(props[0], rest);
      [props[0]] + rest
  }

  /** After `Put`, `k` holds the new value and every other key its old one. */
  lemma {:induction false} PutLookup<V>(props: seq<(string, V)>, k: string, v: V, other: string)
    ensures Lookup(Put(props, k, v), k) == Some(v)
    ensures other != k ==> Lookup(Put(props, k, v), other) == Lookup(props, other)
    decreases |props|
  {
    if props != [] && props[0].0 != k {
      var rest := Put(props[1..], k, v);
      assert ([props[0]] + rest)[1..] == rest;
      PutLookup(props[1..], k, v, other);
    }
  }

  /** `Object.fromEntries(entries)`: the entries defined one after another on
      a fresh empty object. The result never repeats a key; it is the entries
      unchanged, in order, when no key repeats, and comes out shorter when one
      does (a later entry overwrote an earlier one). */
  function FromEntries<V>(entries: seq<(string, V)>): (r: seq<(string, V)>)
    ensures Distinct(Keys(r))
    ensures Distinct(Keys(entries)) ==> r == entries
    ensures !Distinct(Keys(entries)) ==> |r| < |entries|
  {
    DefineAllFromEmpty(entries);
    DefineAll([], entries)
  }

  function DefineAll<V>(props: seq<(string, V)>, entries: seq<(string, V)>): seq<(string, V)>
    decreases |entries|
  {
    if entries == [] then props
    else DefineAll(Put(props, entries[0].0, entries[0].1), entries[1..])
  }

  /** With distinct keys throughout, the first entry's key is not yet on the
      object. */
  lemma FreshKey<V>(props: seq<(string, V)>, entries: seq<(string, V)>)
    requires entries != []
    requires Distinct(Keys(props + entries))
    ensures entries[0].0 !in Keys(props)
  {
    var keys := Keys(props + entries);
    assert keys[|props|] == entries[0].0;
    forall i | 0 <= i < |props|
      ensures Keys(props)[i] != entries[0].0
    {
      assert keys[i] == Keys(props)[i];
    }
  }

  lemma {:induction false} DefineAllDistinct<V>(props: seq<(string, V)>, entries: seq<(string, V)>)
    requires Distinct(Keys(props + entries))
    ensures DefineAll(props, entries) == props + entries
    decreases |entries|
  {
    if entries != [] {
      FreshKey(props, entries);
      assert props + [entries[0]] + entries[1..] == props + entries;
      DefineAllDistinct(props + [entries[0]], entries[1..]);
    }
  }

  lemma {:induction false} DefineAllKeepsDistinct<V>(props: seq<(string, V)>, entries: seq<(string, V)>)
    requires Distinct(Keys(props))
    ensures Distinct(Keys(DefineAll(props, entries)))
    decreases |entries|
  {
    if entries != [] {
      DefineAllKeepsDistinct(Put(props, entries[0].0, entries[0].1), entries[1..]);
    }
  }

  /** Defining entries adds at most one property per entry. */
  lemma {:induction false} DefineAllAtMost<V>(props: seq<(string, V)>, entries: seq<(string, V)>)
    ensures |DefineAll(props, entries)| <= |props| + |entries|
    decreases |entries|
  {
    if entries != [] {
      var next := Put(props, entries[0].0, entries[0].1);
      assert |Keys(next)| <= |Keys(props)| + 1;
      DefineAllAtMost(next, entries[1..]);
    }
  }

  /** An entry whose key the object already has adds no property. */
  lemma ShorterWhenPresent<V>(props: seq<(string, V)>, entries: seq<(string, V)>)
    requires entries != [] && entries[0].0 in Keys(props)
    ensures |DefineAll(props, entries)| < |props| + |entries|
  {
    var next := Put(props, entries[0].0, entries[0].1);
    assert |Keys(next)| == |Keys(props)|;
    DefineAllAtMost(next, entries[1..]);
  }

  /** An entry with a new key goes at the end, so when all entries add a
      property, the remaining ones still all do. */
  lemma FreshLength<V>(props: seq<(string, V)>, entries: seq<(string, V)>)
    requires entries != [] && entries[0].0 !in Keys(props)
    requires |DefineAll(props, entries)| == |props| + |entries|
    ensures |DefineAll(props + [entries[0]], entries[1..])| == |props + [entries[0]]| + |entries[1..]|
  {
  }

  lemma AppendFirst<V>(props: seq<(string, V)>, entries: seq<(string, V)>)
    requires entries != []
    ensures props + [entries[0]] + entries[1..] == props + entries
  {
  }

  /** When every entry added a property, each went at the end in turn. */
  lemma {:induction false} FullLengthAppends<V>(props: seq<(string, V)>, entries: seq<(string, V)>)
    requires |DefineAll(props, entries)| == |props| + |entries|
    ensures DefineAll(props, entries) == props + entries
    decreases |entries|
  {
    if entries == [] {
      assert props + entries == props;
    } else if entries[0].0 in Keys(props) {
      ShorterWhenPresent(props, entries);
      assert false;
    } else {
      FreshLength(props, entries);
      FullLengthAppends(props + [entries[0]], entries[1..]);
      AppendFirst(props, entries);
    }
  }

  /** A key that repeats among the properties and entries costs the object
      at least one property. */
  lemma DefineAllShorter<V>(props: seq<(string, V)>, entries: seq<(string, V)>)
    requires Distinct(Keys(props))
    requires !Distinct(Keys(props + entries))
    ensures |DefineAll(props, entries)| < |props| + |entries|
  {
    DefineAllAtMost(props, entries);
    if |DefineAll(props, entries)| == |props| + |entries| {
      FullLengthAppends(props, entries);
      DefineAllKeepsDistinct(props, entries);
      assert false;
    }
  }

  lemma EmptyPrefix<V>(entries: seq<(string, V)>)
    ensures [] + entries == entries
  {
  }

  /** Defining entries one after another on an empty object. */
  lemma DefineAllFromEmpty<V>(entries: seq<(string, V)>)
    ensures Distinct(Keys(DefineAll([], entries)))
    ensures Distinct(Keys(entries)) ==> DefineAll([], entries) == entries
    ensures !Distinct(Keys(entries)) ==> |DefineAll([], entries)| < |entries|
  {
    assert Distinct(Keys(DefineAll([], entries))) by {
      DefineAllKeepsDistinct([], entries);
    }
    assert Distinct(Keys(entries)) ==> DefineAll([], entries) == entries by {
      if Distinct(Keys(entries)) {
        EmptyPrefix(entries);
        DefineAllDistinct([], entries);
      }
    }
    assert !Distinct(Keys(entries)) ==> |DefineAll([], entries)| < |entries| by {
      if !Distinct(Keys(entries)) {
        EmptyPrefix(entries);
        DefineAllShorter([], entries);
      }
    }
  }

  /* ---------------------------------------------------------------------
     Property order
     --------------------------------------------------------------------- */

  /** An array index in the sense of section 6.1.7 of ECMA-262: the canonical
      decimal text of an integer below 2^32 - 1. */
  predicate IsArrayIndex(k: string) {
    AllDigits(k) && NatToString(ParseNat(k)) == k && ParseNat(k) < 4294967295
  }

  /** Ordinary objects enumerate their array-index keys first, in ascending
      numeric order, and then their other string keys in insertion order
      (OrdinaryOwnPropertyKeys, section 10.1.11.1 of ECMA-262). A list of
      keys in insertion order that satisfies this predicate is therefore the
      order in which `JSON.stringify` writes them (EnumerationOrderUnchanged). */
  predicate InEnumerationOrder(keys: seq<string>) {
    forall i, j :: 0 <= i < j < |keys| && IsArrayIndex(keys[j]) ==>
      IsArrayIndex(keys[i]) && ParseNat(keys[i]) < ParseNat(keys[j])
  }

  /** The numeric value of an array-index key (0 for any other key, which is
      never compared). */
  function IndexValue(k: string): nat {
    if AllDigits(k) then ParseNat(k) else 0
  }

  /** The array-index keys of a key list, in list order. */
  function IndexKeys(keys: seq<string>): (r: seq<string>)
    ensures forall i :: 0 <= i < |r| ==> IsArrayIndex(r[i])
  {
    if keys == [] then []
    else if IsArrayIndex(keys[0]) then [keys[0]] + IndexKeys(keys[1..])
    else IndexKeys(keys[1..])
  }

  /** The other keys of a key list, in list order. */
  function OtherKeys(keys: seq<string>): seq<string>
  {
    if keys == [] then []
    else if IsArrayIndex(keys[0]) then OtherKeys(keys[1..])
    else [keys[0]] + OtherKeys(keys[1..])
  }

  /** `k` inserted into an ascending list of array indices before the first
      larger one. */
  function InsertByIndex(k: string, sorted: seq<string>): seq<string>
  {
    if sorted == [] || IndexValue(k) <= IndexValue(sorted[0]) then [k] + sorted
    else [sorted[0]] + InsertByIndex(k, sorted[1..])
  }

  function SortByIndex(keys: seq<string>): seq<string>
  {
    if keys == [] then [] else InsertByIndex(keys[0], SortByIndex(keys[1..]))
  }

  /** The order in which an ordinary object lists its string keys, given them
      in insertion order: the array indices in ascending numeric order, then
      the other keys in insertion order (OrdinaryOwnPropertyKeys, section
      10.1.11.1 of ECMA-262). `JSON.stringify` writes properties in this
      order. */
  function EnumerationOrder(keys: seq<string>): seq<string>
  {
    SortByIndex(IndexKeys(keys)) + OtherKeys(keys)
  }

  predicate Ascending(keys: seq<string>) {
    forall i, j :: 0 <= i < j < |keys| ==> IndexValue(keys[i]) < IndexValue(keys[j])
  }

  /** Sorting a list that is already ascending leaves it unchanged. */
  lemma {:induction false} SortAscending(keys: seq<string>)
    requires Ascending(keys)
    ensures SortByIndex(keys) == keys
    decreases |keys|
  {
    if keys != [] {
      assert Ascending(keys[1..]) by {
        forall i, j | 0 <= i < j < |keys| - 1
          ensures IndexValue(keys[1..][i]) < IndexValue(keys[1..][j])
        {
          assert keys[1..][i] == keys[i + 1] && keys[1..][j] == keys[j + 1];
        }
      }
      SortAscending(keys[1..]);
      FirstAndRest(keys);
    }
  }

  /** A key list with no array index has no index keys and keeps all others. */
  lemma {:induction false} NoIndexKeys(keys: seq<string>)
    requires forall i :: 0 <= i < |keys| ==> !IsArrayIndex(keys[i])
    ensures IndexKeys(keys) == [] && OtherKeys(keys) == keys
    decreases |keys|
  {
    if keys != [] {
      NoIndexKeys(keys[1..]);
      FirstAndRest(keys);
    }
  }

  /** Dropping the first key keeps a list in enumeration order. */
  lemma InEnumerationOrderTail(keys: seq<string>)
    requires keys != [] && InEnumerationOrder(keys)
    ensures InEnumerationOrder(keys[1..])
  {
    var rest := keys[1..];
    forall i, j | 0 <= i < j < |rest| && IsArrayIndex(rest[j])
      ensures IsArrayIndex(rest[i]) && ParseNat(rest[i]) < ParseNat(rest[j])
    {
      assert rest[i] == keys[i + 1] && rest[j] == keys[j + 1];
    }
  }

  /** When the first key of a list in enumeration order is not an array
      index, none of its keys is. */
  lemma NoIndexAfterOther(keys: seq<string>)
    requires keys != [] && InEnumerationOrder(keys) && !IsArrayIndex(keys[0])
    ensures forall i :: 0 <= i < |keys| ==> !IsArrayIndex(keys[i])
  {
  }

  /** The first key of a list in enumeration order, if an array index, is
      below every array index that follows it. */
  lemma FirstIndexSmallest(keys: seq<string>, front: seq<string>)
    requires keys != [] && InEnumerationOrder(keys) && IsArrayIndex(keys[0])
    requires |front| < |keys|
    requires forall m :: 0 <= m < |front| ==> front[m] == keys[m + 1] && IsArrayIndex(front[m])
    ensures Ascending(front) ==> Ascending([keys[0]] + front)
  {
    forall m | 0 <= m < |front|
      ensures IndexValue(keys[0]) < IndexValue(front[m])
    {
      assert front[m] == keys[m + 1];
    }
    if Ascending(front) {
      var all := [keys[0]] + front;
      forall i, j | 0 <= i < j < |all|
        ensures IndexValue(all[i]) < IndexValue(all[j])
      {
        if i > 0 {
          assert all[i] == front[i - 1] && all[j] == front[j - 1];
        }
      }
    }
  }

  /** A key list in enumeration order holds its array indices first, in
      ascending order, and its other keys after them. */
  lemma {:induction false} IndexKeysFirst(keys: seq<string>)
    requires InEnumerationOrder(keys)
    ensures keys == IndexKeys(keys) + OtherKeys(keys)
    ensures Ascending(IndexKeys(keys))
    decreases |keys|
  {
    if keys != [] {
      if !IsArrayIndex(keys[0]) {
        NoIndexAfterOther(keys);
        NoIndexKeys(keys);
      } else {
        var rest := keys[1..];
        var front := IndexKeys(rest);
        InEnumerationOrderTail(keys);
        IndexKeysFirst(rest);
        assert Ascending(IndexKeys(keys)) by {
          assert forall m :: 0 <= m < |front| ==> front[m] == (front + OtherKeys(rest))[m];
          FirstIndexSmallest(keys, front);
        }
        assert keys == IndexKeys(keys) + OtherKeys(keys) by {
          FirstAndRest(keys);
          ConsAppend(keys[0], front, OtherKeys(rest));
        }
      }
    }
  }

  /** A key list satisfying InEnumerationOrder is its own enumeration order:
      an object whose keys were inserted in that order lists them unchanged. */
  lemma EnumerationOrderUnchanged(keys: seq<string>)
    requires InEnumerationOrder(keys)
    ensures EnumerationOrder(keys) == keys
  {
    IndexKeysFirst(keys);
    SortAscending(IndexKeys(keys));
  }
}
