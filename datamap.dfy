/**
 * `DataMap`: a string-keyed dictionary of values that the map parser fills
 * and that callers build with the `put` family.
 */
module DataMaps {
  import opened Data
  import opened DataLists
  import Serializer

  /**
   * What `new_with` stores after its first n steps: step i stores arr[i] as a
   * key with the string arr[i + 1] as its value, overwriting earlier entries.
   */
  function AdjacentPairs(arr: seq<string>, n: nat): map<string, DataValue>
    requires n == 0 || n < |arr|
  {
    if n == 0 then map[] else AdjacentPairs(arr, n - 1)[arr[n - 1] := String(arr[n])]
  }

  /** The number of steps `new_with` takes: one per adjacent pair of elements. */
  function NewWithSteps(arr: seq<string>): (n: nat)
    ensures n == 0 || n < |arr|
  {
    if |arr| < 2 then 0 else |arr| - 1
  }

  /** Position i holds k, and k is at no later position below n. */
  predicate LastAt(arr: seq<string>, n: nat, i: nat, k: string)
    requires n <= |arr|
  {
    i < n && arr[i] == k && forall j :: i < j < n ==> arr[j] != k
  }

  /**
   * Every element but the last becomes a key; a key's value is the element
   * after its last occurrence (among the elements that became keys).
   */
  lemma {:induction false} AdjacentPairsContents(arr: seq<string>, n: nat, k: string)
    requires n == 0 || n < |arr|
    ensures k in AdjacentPairs(arr, n) <==> exists i :: 0 <= i < n && arr[i] == k
    ensures forall i :: LastAt(arr, n, i, k) ==> AdjacentPairs(arr, n)[k] == String(arr[i + 1])
  {
    if n > 0 {
      AdjacentPairsContents(arr, n - 1, k);
      if arr[n - 1] != k {
        forall i: nat | LastAt(arr, n, i, k)
          ensures AdjacentPairs(arr, n)[k] == String(arr[i + 1])
        {
          assert LastAt(arr, n - 1, i, k);
        }
      }
    }
  }

  /**
   * As written, `new_with` on a key/value list also stores each value as a
   * key of the following key: ["a", "1", "b", "2"] gives three entries, one
   * of them "1" mapped to "b".
   */
  lemma NewWithOverlapsPairs()
    ensures var m := AdjacentPairs(["a", "1", "b", "2"], NewWithSteps(["a", "1", "b", "2"]));
      "1" in m && m["1"] == String("b") && |m| == 3
  {
    var arr := ["a", "1", "b", "2"];
    var m := AdjacentPairs(arr, 3);
    assert m == map["a" := String("1"), "1" := String("b"), "b" := String("2")];
    assert m.Keys == {"a", "1", "b"};
  }

  /** Position i is even and holds k, and no later even position below n holds k. */
  predicate LastEvenAt(arr: seq<string>, n: nat, i: nat, k: string)
    requires n <= |arr|
  {
    i < n && i % 2 == 0 && arr[i] == k && forall j :: i < j < n && j % 2 == 0 ==> arr[j] != k
  }

  /** Key/value pairs taken two elements at a time: the first n pairs. */
  function KeyValuePairs(arr: seq<string>, n: nat): map<string, DataValue>
    requires 2 * n <= |arr|
  {
    if n == 0 then map[] else KeyValuePairs(arr, n - 1)[arr[2 * n - 2] := String(arr[2 * n - 1])]
  }

  /**
   * The evidently intended `new_with`: only elements at even positions
   * become keys, each mapped to the element after it, the last pair for a
   * key winning; an odd last element is ignored.
   */
  lemma {:induction false} KeyValuePairsContents(arr: seq<string>, n: nat, k: string)
    requires 2 * n <= |arr|
    ensures k in KeyValuePairs(arr, n) <==> exists i :: 0 <= i < 2 * n && i % 2 == 0 && arr[i] == k
    ensures forall i :: LastEvenAt(arr, 2 * n, i, k) ==> KeyValuePairs(arr, n)[k] == String(arr[i + 1])
  {
    if n > 0 {
      KeyValuePairsContents(arr, n - 1, k);
      if arr[2 * n - 2] == k {
        assert 0 <= 2 * n - 2 < 2 * n && (2 * n - 2) % 2 == 0;
      } else {
        forall i: nat | LastEvenAt(arr, 2 * n, i, k)
          ensures KeyValuePairs(arr, n)[k] == String(arr[i + 1])
        {
          assert i != 2 * n - 2;
          assert i < 2 * n - 2;
          assert LastEvenAt(arr, 2 * (n - 1), i, k);
          assert k in KeyValuePairs(arr, n - 1);
        }
      }
    }
  }

  class DataMap {
    var entries: map<string, DataValue>

    /** An empty map. */
    constructor ()
      ensures entries == map[]
    {
      entries := map[];
    }

    /** `new_with`: stores each element but the last as a key of the string after it. */
    static method NewWith(arr: seq<string>) returns (dm: DataMap)
      ensures fresh(dm)
      ensures dm.entries == AdjacentPairs(arr, NewWithSteps(arr))
    {
      dm := new DataMap();
      var i := 0;
      while i + 1 < |arr|
        invariant i == 0 || i < |arr|
        invariant dm.entries == AdjacentPairs(arr, i)
      {
        var key := arr[i];
        var val := arr[i + 1];
        dm.PutString(key, val);
        i := i + 1;
      }
    }

    /** The evidently intended `new_with`: steps two elements at a time, so only keys are keys. */
    static method NewWithIntended(arr: seq<string>) returns (dm: DataMap)
      ensures fresh(dm)
      ensures dm.entries == KeyValuePairs(arr, |arr| / 2)
    {
      dm := new DataMap();
      var i := 0;
      while i + 1 < |arr|
        invariant i % 2 == 0 && i <= |arr|
        invariant dm.entries == KeyValuePairs(arr, i / 2)
      {
        dm.PutString(arr[i], arr[i + 1]);
        i := i + 2;
      }
    }

    /** The value stored under k, or the `None` sentinel when k is absent. */
    function Get(k: string): (v: DataValue)
      reads this
      ensures k in entries ==> v == entries[k]
      ensures k !in entries ==> v.None?
    {
      if k in entries then entries[k] else None
    }

    /** The `get_string` text of the value under k; an absent key gives "null". */
    function GetString(k: string, o: Order): (s: string)
      reads this
      requires Fits(o, Get(k))
      ensures k !in entries ==> s == "null"
      ensures k in entries ==> s == Data.GetString(entries[k], o)
    {
      Data.GetString(Get(k), o)
    }

    /** Stores v under k, replacing any earlier value; every other key is unchanged. */
    method Put(k: string, v: DataValue)
      modifies this
      ensures entries == old(entries)[k := v]
      ensures Get(k) == v
      ensures forall k' :: k' != k ==> Get(k') == old(Get(k'))
    {
      entries := entries[k := v];
    }

    method PutString(k: string, v: string)
      modifies this
      ensures entries == old(entries)[k := String(v)]
    {
      Put(k, String(v));
    }

    method PutInt(k: string, v: int)
      modifies this
      ensures entries == old(entries)[k := Number(Int(v))]
    {
      Put(k, Number(Int(v)));
    }

    /** A float is given by its sign, whole part and fraction digits. */
    method PutFloat(k: string, negative: bool, whole: nat, fraction: string)
      modifies this
      ensures entries == old(entries)[k := Number(Float(negative, whole, fraction))]
    {
      Put(k, Number(Float(negative, whole, fraction)));
    }

    method PutBool(k: string, v: bool)
      modifies this
      ensures entries == old(entries)[k := Bool(v)]
    {
      Put(k, Bool(v));
    }

    method PutDateUtc(k: string, v: DateTime)
      modifies this
      ensures entries == old(entries)[k := Date(DateTimeUtc(v))]
    {
      Put(k, Date(DateTimeUtc(v)));
    }

    /** Stores the contents of another map (the source moves it in). */
    method PutMap(k: string, v: DataMap)
      modifies this
      ensures entries == old(entries)[k := DataValue.DataMap(old(v.entries))]
    {
      Put(k, DataValue.DataMap(v.entries));
    }

    /** Stores the contents of a list (the source moves it in). */
    method PutList(k: string, v: DataList)
      modifies this
      ensures entries == old(entries)[k := DataValue.DataList(v.items)]
    {
      Put(k, DataValue.DataList(v.items));
    }

    /** Appends the serialized text of the map, entries in the order o gives, to buffer. */
    method SerializeToString(buffer: string, indent: nat, o: Order) returns (buf: string)
      requires Fits(o, DataValue.DataMap(entries))
      ensures buf == buffer + MapText(entries, indent, o.keys, o.children)
    {
      buf := Serializer.SerializeMap(entries, buffer, indent, o);
    }
  }
}
