/**
 * `DataList`: a growable vector of values that the list parser appends to.
 */
module DataLists {
  import opened Data
  import Serializer

  class DataList {
    var items: seq<DataValue>

    /** An empty list. */
    constructor ()
      ensures items == []
    {
      items := [];
    }

    /** Appends v at the end; the elements already there are unchanged. */
    method Push(v: DataValue)
      modifies this
      ensures items == old(items) + [v]
      ensures |items| == |old(items)| + 1 && items[..|old(items)|] == old(items)
    {
      items := items + [v];
    }

    /** Appends the string value s. */
    method PushString(s: string)
      modifies this
      ensures items == old(items) + [String(s)]
    {
      Push(String(s));
    }

    /** Appends the serialized text of the list (one element per line) to buffer. */
    method SerializeToString(buffer: string, indent: nat, o: Order) returns (buf: string)
      requires Fits(o, DataValue.DataList(items))
      ensures buf == buffer + ListText(items, indent, o.children)
    {
      buf := Serializer.SerializeList(items, buffer, indent, o);
    }
  }
}
