/** The read contract shared by every view, and its four variants: a leaf
    over a document value, the offset view (offset.go), the prefix view
    (prefixsource.go) and the merge engine (multisource.go). One view's
    accessors call another's, so all of them live in one recursive group. */
module Sources {
  import opened Base
  import opened Leaves
  import opened Offsets
  import opened Prefixes
  import opened KeyUnion

  datatype Source =
    | Leaf(value: Value)
    | Offset(offsets: seq<int>, src: Source)
    | Prefix(prefix: seq<string>, src: Source)
    | Multi(sources: seq<Source>, first: bool, combine: bool)

  // ---- termination measures ----

  /** The number of non-offset nodes. Offset wrappers are free, so wrapping
      a walked child in a shift (multisource.go:175-177) does not grow it. */
  function Size(s: Source): (n: nat)
    ensures n >= 1
    decreases s
  {
    match s
    case Leaf(_) => 1
    case Offset(_, src) => Size(src)
    case Prefix(_, src) => 1 + Size(src)
    case Multi(cs, _, _) => 1 + SumSize(cs)
  }

  function SumSize(cs: seq<Source>): nat
    decreases cs
  {
    if cs == [] then 0 else Size(cs[0]) + SumSize(cs[1..])
  }

  /** How many offset wrappers sit on top of a view. */
  function Wraps(s: Source): nat
  {
    if s.Offset? then 1 + Wraps(s.src) else 0
  }

  lemma {:induction false} SizeLeSum(cs: seq<Source>, i: nat)
    requires i < |cs|
    ensures Size(cs[i]) <= SumSize(cs)
    decreases |cs|
  {
    if i > 0 {
      SizeLeSum(cs[1..], i - 1);
    }
  }

  lemma SumSizeCons(x: Source, rest: seq<Source>)
    ensures SumSize([x] + rest) == Size(x) + SumSize(rest)
  {
    assert ([x] + rest)[1..] == rest;
  }

  function Zeros(n: nat): (z: seq<nat>)
    ensures |z| == n
  {
    seq(n, _ => 0)
  }

  // ---- the accessors ----

  /** offset.go:17-26: a shifted view of a source; no source gives no view. */
  function WithOffset(src: Option<Source>, offsets: seq<int>): (r: Option<Source>)
    ensures r.None? <==> src.None?
    ensures r.Some? ==> r.value.Offset? && r.value.offsets == offsets && r.value.src == src.value
    ensures r.Some? ==> Size(r.value) == Size(src.value)
  {
    match src
    case None => None
    case Some(s) => Some(Offset(offsets, s))
  }

  /** The sub-view at a path, or None when the path does not resolve. */
  function Recurse(s: Source, keys: seq<string>): (r: Option<Source>)
    ensures r.Some? ==> Size(r.value) <= Size(s)
    decreases Size(s), Wraps(s), 3, 0
  {
    match s
    case Leaf(v) =>
      (match Navigate(v, keys)
       case None => None
       case Some(w) => Some(Leaf(w)))
    case Offset(offs, src) =>
      (match Transform(offs, keys)
       case Err(_) => None
       case Ok(tk) =>
         var r := Recurse(src, tk);
         if |offs| <= |keys| then r else WithOffset(r, offs[|keys|..]))
    case Prefix(p, src) =>
      if keys == [] then Some(s)
      else
        (match MatchPrefix(p, keys)
         case Mismatch => None
         case Consumed(np, rest) =>
           if np == [] then (if rest == [] then Some(src) else Recurse(src, rest))
           else Some(Prefix(np, src)))
    case Multi(cs, f, c) =>
      match RecurseChildren(cs, keys)
      case None => None
      case Some(kept) => Some(Multi(kept, f, c))
  }

  /** multisource.go:159-198: the children that survive the walk along the
      path, or None when none does; the empty path keeps every child. */
  function RecurseChildren(cs: seq<Source>, keys: seq<string>): (r: Option<seq<Source>>)
    ensures r.Some? ==> SumSize(r.value) <= SumSize(cs)
    decreases 1 + SumSize(cs), 0, 2, 0
  {
    if keys == [] then Some(cs)
    else
      var kept := WalkChildren(cs, keys, Zeros(|keys|));
      if kept == [] then None else Some(kept)
  }

  /** The outer loop of the walk: each child in turn, sharing the per-depth
      counters, keeping the children whose walk does not reach nil. */
  function WalkChildren(cs: seq<Source>, keys: seq<string>, counters: seq<nat>): (kept: seq<Source>)
    requires |counters| == |keys|
    ensures SumSize(kept) <= SumSize(cs)
    decreases 1 + SumSize(cs), 0, 1, 0
  {
    if cs == [] then []
    else
      var w := WalkChild(cs[0], keys, 0, counters);
      var rest := WalkChildren(cs[1..], keys, w.1);
      if w.0.Some? then
        SumSizeCons(w.0.value, rest);
        [w.0.value] + rest
      else rest
  }

  /** The inner loop of the walk: one key at a time from depth i; a
      sequence met at depth i is shifted by that depth's counter (when it is
      nonzero) and its length is added to the counter. */
  function WalkChild(r: Source, keys: seq<string>, i: nat, counters: seq<nat>)
    : (res: (Option<Source>, seq<nat>))
    requires i <= |keys| && |counters| == |keys|
    ensures |res.1| == |keys|
    ensures res.0.Some? ==> Size(res.0.value) <= Size(r)
    decreases Size(r) + 1, 0, 0, |keys| - i
  {
    if i == |keys| then (Some(r), counters)
    else
      match Recurse(r, [keys[i]])
      case None => (None, counters)
      case Some(r1) =>
        if Type(r1, []) == Slice then
          var length := match Len(r1, []) case Ok(n) => n case Err(_) => 0;
          var r2 := if counters[i] != 0 then Offset([counters[i]], r1) else r1;
          WalkChild(r2, keys, i + 1, counters[i := counters[i] + length])
        else WalkChild(r1, keys, i + 1, counters)
  }

  /** multisource.go:201-227: the authoritative child for a path. */
  function Find(cs: seq<Source>, first: bool, keys: seq<string>): (r: Option<Source>)
    ensures r.Some? ==> Size(r.value) <= SumSize(cs)
    decreases 1 + SumSize(cs), 0, 3, 0
  {
    match RecurseChildren(cs, keys)
    case None => None
    case Some(kept) =>
      if |kept| == 0 then None
      else if |kept| == 1 then SizeLeSum(kept, 0); Some(kept[0])
      else
        var found := if first then ScanForward(kept, 0) else ScanBackward(kept, |kept|);
        match found
        case None => None
        case Some(j) => SizeLeSum(kept, j); Some(kept[j])
  }

  /** The index of the first child from i on that exists. */
  function ScanForward(xs: seq<Source>, i: nat): (r: Option<nat>)
    requires i <= |xs|
    ensures r.Some? ==> i <= r.value < |xs|
    decreases 1 + SumSize(xs), 0, 1, |xs| - i
  {
    if i == |xs| then None
    else
      SizeLeSum(xs, i);
      if Exists(xs[i], []) then Some(i) else ScanForward(xs, i + 1)
  }

  /** The index of the last child below n that exists. */
  function ScanBackward(xs: seq<Source>, n: nat): (r: Option<nat>)
    requires n <= |xs|
    ensures r.Some? ==> r.value < n
    decreases 1 + SumSize(xs), 0, 1, n
  {
    if n == 0 then None
    else
      SizeLeSum(xs, n - 1);
      if Exists(xs[n - 1], []) then Some(n - 1) else ScanBackward(xs, n - 1)
  }

  /** Whether the path resolves to a value. */
  function Exists(s: Source, keys: seq<string>): bool
    decreases Size(s), Wraps(s), 4, 0
  {
    match s
    case Leaf(v) => Navigate(v, keys).Some?
    case Offset(offs, src) =>
      (match Transform(offs, keys)
       case Err(_) => false
       case Ok(tk) => Exists(src, tk))
    case Prefix(p, src) =>
      (match MatchPrefix(p, keys)
       case Mismatch => false
       case Consumed(np, rest) => if np == [] then Exists(src, rest) else true)
    case Multi(cs, f, _) => Find(cs, f, keys).Some?
  }

  /** The scalar getters (GetBool, GetInt, GetString) in one: the value at
      the path, which must be of kind want. */
  function Get(s: Source, keys: seq<string>, want: NodeType): (r: Result<Value>)
    ensures r.Ok? ==> KindOf(r.value) == want
    decreases Size(s), Wraps(s), 4, 0
  {
    match s
    case Leaf(v) =>
      (match Navigate(v, keys)
       case None => Err(DoesNotExist)
       case Some(w) => if KindOf(w) == want then Ok(w) else Err(WrongType))
    case Offset(offs, src) =>
      (match Transform(offs, keys)
       case Err(e) => Err(e)
       case Ok(tk) => Get(src, tk, want))
    case Prefix(p, src) =>
      (match MatchPrefix(p, keys)
       case Mismatch => Err(DoesNotExist)
       case Consumed(np, rest) => if np == [] then Get(src, rest, want) else Err(WrongType))
    case Multi(cs, f, _) =>
      match Find(cs, f, keys)
      case None => Err(DoesNotExist)
      case Some(x) => Get(x, [], want)
  }

  /** The kind of the value at the path, Undefined when it does not resolve. */
  function Type(s: Source, keys: seq<string>): NodeType
    decreases Size(s), Wraps(s), 4, 0
  {
    match s
    case Leaf(v) =>
      (match Navigate(v, keys)
       case None => Undefined
       case Some(w) => KindOf(w))
    case Offset(offs, src) =>
      (match Transform(offs, keys)
       case Err(_) => Undefined
       case Ok(tk) => Type(src, tk))
    case Prefix(p, src) =>
      (match MatchPrefix(p, keys)
       case Mismatch => Undefined
       case Consumed(np, rest) => if np == [] then Type(src, rest) else Map)
    case Multi(cs, f, _) =>
      match Find(cs, f, keys)
      case None => Undefined
      case Some(x) => Type(x, [])
  }

  /** The field names of the map at the path. */
  function Keys(s: Source, keys: seq<string>): Result<seq<string>>
    decreases Size(s), Wraps(s), 4, 0
  {
    match s
    case Leaf(v) =>
      (match Navigate(v, keys)
       case None => Err(DoesNotExist)
       case Some(w) => if w.MapValue? then Ok(MapKeys(w.entries)) else Err(WrongType))
    case Offset(offs, src) =>
      (match Transform(offs, keys)
       case Err(e) => Err(e)
       case Ok(tk) => Keys(src, tk))
    case Prefix(p, src) =>
      (match MatchPrefix(p, keys)
       case Mismatch => Err(DoesNotExist)
       case Consumed(np, rest) => if np == [] then Keys(src, rest) else Ok([np[0]]))
    case Multi(cs, f, c) =>
      if |cs| == 1 then SizeLeSum(cs, 0); Keys(cs[0], keys)
      else if !c then
        (match Find(cs, f, keys)
         case None => Err(DoesNotExist)
         case Some(x) => Keys(x, []))
      else
        match CollectKeys(cs, keys, 0)
        case Err(e) => Err(e)
        case Ok(lists) => if lists == [] then Err(DoesNotExist) else Ok(Union(lists))
  }

  /** The key lists of the children from i on that report the path as
      existing, in child order; the first child error is returned. */
  function CollectKeys(cs: seq<Source>, keys: seq<string>, i: nat): Result<seq<seq<string>>>
    requires i <= |cs|
    decreases 1 + SumSize(cs), 0, 1, |cs| - i
  {
    if i == |cs| then Ok([])
    else
      SizeLeSum(cs, i);
      if !Exists(cs[i], keys) then CollectKeys(cs, keys, i + 1)
      else
        match Keys(cs[i], keys)
        case Err(e) => Err(e)
        case Ok(found) =>
          match CollectKeys(cs, keys, i + 1)
          case Err(e) => Err(e)
          case Ok(more) => Ok([found] + more)
  }

  /** The number of elements of the sequence or map at the path. */
  function Len(s: Source, keys: seq<string>): Result<nat>
    decreases Size(s), Wraps(s), 4, 0
  {
    match s
    case Leaf(v) =>
      (match Navigate(v, keys)
       case None => Err(DoesNotExist)
       case Some(w) =>
         if w.SeqValue? then Ok(|w.items|)
         else if w.MapValue? then Ok(|w.entries|)
         else Err(WrongType))
    case Offset(offs, src) =>
      (match Transform(offs, keys)
       case Err(e) => Err(e)
       case Ok(tk) => Len(src, tk))
    case Prefix(p, src) =>
      (match MatchPrefix(p, keys)
       case Mismatch => Err(DoesNotExist)
       case Consumed(np, rest) => if np == [] then Len(src, rest) else Err(WrongType))
    case Multi(cs, f, c) =>
      if |cs| == 1 then SizeLeSum(cs, 0); Len(cs[0], keys)
      else if !c then
        (match Find(cs, f, keys)
         case None => Err(DoesNotExist)
         case Some(x) => Len(x, []))
      else
        match CollectLens(cs, keys, 0)
        case Err(e) => Err(e)
        case Ok(lens) => if lens == [] then Err(DoesNotExist) else Ok(Sum(lens))
  }

  /** The lengths of the children from i on that report the path as
      existing, in child order; the first child error is returned. */
  function CollectLens(cs: seq<Source>, keys: seq<string>, i: nat): Result<seq<nat>>
    requires i <= |cs|
    decreases 1 + SumSize(cs), 0, 1, |cs| - i
  {
    if i == |cs| then Ok([])
    else
      SizeLeSum(cs, i);
      if !Exists(cs[i], keys) then CollectLens(cs, keys, i + 1)
      else
        match Len(cs[i], keys)
        case Err(e) => Err(e)
        case Ok(n) =>
          match CollectLens(cs, keys, i + 1)
          case Err(e) => Err(e)
          case Ok(more) => Ok([n] + more)
  }

  // ---- the typed getters ----

  function GetBool(s: Source, keys: seq<string>): Result<bool>
  {
    match Get(s, keys, Bool)
    case Err(e) => Err(e)
    case Ok(v) => Ok(v.b)
  }

  function GetInt(s: Source, keys: seq<string>): Result<int>
  {
    match Get(s, keys, Int)
    case Err(e) => Err(e)
    case Ok(v) => Ok(v.i)
  }

  function GetString(s: Source, keys: seq<string>): Result<string>
  {
    match Get(s, keys, String)
    case Err(e) => Err(e)
    case Ok(v) => Ok(v.s)
  }
}
