/** A stand-in for the document-backed leaf sources (the YAML and JSON
    parsers are not part of this model): a value tree in which a sequence is
    addressed by the decimal rendering of an index and a map by field name. */
module Leaves {
  import opened Base
  import opened Decimal

  /** A parsed document value; a map keeps its entries in document order. */
  datatype Value =
    | NullValue
    | BoolValue(b: bool)
    | IntValue(i: int)
    | StringValue(s: string)
    | SeqValue(items: seq<Value>)
    | MapValue(entries: seq<(string, Value)>)

  function KindOf(v: Value): (t: NodeType)
    ensures t != Undefined
  {
    match v
    case NullValue => Null
    case BoolValue(_) => Bool
    case IntValue(_) => Int
    case StringValue(_) => String
    case SeqValue(_) => Slice
    case MapValue(_) => Map
  }

  /** The value of the first entry named key. */
  function Lookup(entries: seq<(string, Value)>, key: string): (r: Option<Value>)
    ensures r.None? <==> forall i | 0 <= i < |entries| :: entries[i].0 != key
    ensures r.Some? ==> exists i | 0 <= i < |entries| :: entries[i] == (key, r.value)
                          && forall j | 0 <= j < i :: entries[j].0 != key
    decreases |entries|
  {
    if entries == [] then None
    else if entries[0].0 == key then Some(entries[0].1)
    else
      var r := Lookup(entries[1..], key);
      assert forall i | 1 <= i < |entries| :: entries[i] == entries[1..][i - 1];
      if r.Some? then
        ghost var i :| 0 <= i < |entries[1..]| && entries[1..][i] == (key, r.value)
                       && forall j | 0 <= j < i :: entries[1..][j].0 != key;
        assert entries[i + 1] == (key, r.value);
        r
      else r
  }

  /** One navigation step: an in-range integer key into a sequence, or a
      field name into a map; anything else does not resolve. */
  function Child(v: Value, key: string): Option<Value>
  {
    match v
    case SeqValue(items) =>
      (match Atoi(key)
       case Some(i) => if 0 <= i < |items| then Some(items[i]) else None
       case None => None)
    case MapValue(entries) => Lookup(entries, key)
    case _ => None
  }

  /** The value at a path, the empty path being the value itself. */
  function Navigate(v: Value, keys: seq<string>): Option<Value>
    decreases |keys|
  {
    if keys == [] then Some(v)
    else match Child(v, keys[0])
      case None => None
      case Some(w) => Navigate(w, keys[1..])
  }

  function MapKeys(entries: seq<(string, Value)>): (ks: seq<string>)
    ensures |ks| == |entries|
    ensures forall i | 0 <= i < |entries| :: ks[i] == entries[i].0
  {
    seq(|entries|, i requires 0 <= i < |entries| => entries[i].0)
  }

  /** Navigating a path in two parts is navigating it at once. */
  lemma {:induction false} NavigateAppend(v: Value, a: seq<string>, b: seq<string>)
    ensures Navigate(v, a + b) == match Navigate(v, a)
                                  case None => None
                                  case Some(w) => Navigate(w, b)
    decreases |a|
  {
    if a != [] {
      assert (a + b)[0] == a[0] && (a + b)[1..] == a[1..] + b;
      match Child(v, a[0])
      case None =>
      case Some(w) => NavigateAppend(w, a[1..], b);
    } else {
      assert a + b == b;
    }
  }

  /** Index i of a sequence is reached through the rendering of i. */
  lemma ChildAtIndex(items: seq<Value>, i: int)
    requires 0 <= i < |items|
    requires i <= MaxInt64
    ensures Child(SeqValue(items), Itoa(i)) == Some(items[i])
  {
    AtoiItoa(i);
  }

  /** An integer key outside a sequence's bounds does not resolve. */
  lemma ChildOutOfRange(items: seq<Value>, i: int)
    requires i < 0 || |items| <= i
    requires MinInt64 <= i <= MaxInt64
    ensures Child(SeqValue(items), Itoa(i)) == None
  {
    AtoiItoa(i);
  }
}
