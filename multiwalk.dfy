/** What the merge engine (multisource.go) promises about its children: the
    walk that drops and re-indexes them, the choice of the authoritative
    child, and the combined Keys and Len. */
module MultiWalk {
  import opened Base
  import opened Decimal
  import opened Leaves
  import opened Offsets
  import opened Prefixes
  import opened KeyUnion
  import opened Sources

  // ---- find (multisource.go:201-227) ----

  /** The forward scan finds the earliest child from i on that exists. */
  lemma {:induction false} ScanForwardSpec(xs: seq<Source>, i: nat)
    requires i <= |xs|
    ensures ScanForward(xs, i).None? <==> forall j | i <= j < |xs| :: !Exists(xs[j], [])
    ensures ScanForward(xs, i).Some? ==>
              var r := ScanForward(xs, i).value;
              Exists(xs[r], []) && forall j | i <= j < r :: !Exists(xs[j], [])
    decreases |xs| - i
  {
    if i < |xs| && !Exists(xs[i], []) {
      ScanForwardSpec(xs, i + 1);
    }
  }

  /** The backward scan finds the latest child below n that exists. */
  lemma {:induction false} ScanBackwardSpec(xs: seq<Source>, n: nat)
    requires n <= |xs|
    ensures ScanBackward(xs, n).None? <==> forall j | 0 <= j < n :: !Exists(xs[j], [])
    ensures ScanBackward(xs, n).Some? ==>
              var r := ScanBackward(xs, n).value;
              Exists(xs[r], []) && forall j | r < j < n :: !Exists(xs[j], [])
    decreases n
  {
    if n > 0 && !Exists(xs[n - 1], []) {
      ScanBackwardSpec(xs, n - 1);
    }
  }

  /** The authoritative child for a path: after the walk, a single survivor
      is returned without asking whether it exists; among several, the
      earliest (first) or latest (not first) that exists; otherwise none. */
  lemma FindSpec(cs: seq<Source>, first: bool, keys: seq<string>)
    ensures RecurseChildren(cs, keys).None? ==> Find(cs, first, keys).None?
    ensures RecurseChildren(cs, keys).Some? && |RecurseChildren(cs, keys).value| == 1 ==>
              Find(cs, first, keys) == Some(RecurseChildren(cs, keys).value[0])
    ensures RecurseChildren(cs, keys).Some? && |RecurseChildren(cs, keys).value| != 1 ==>
              FoundAmong(RecurseChildren(cs, keys).value, first, Find(cs, first, keys))
  {
    match RecurseChildren(cs, keys)
    case None =>
    case Some(kept) =>
      if |kept| > 1 {
        var found := if first then ScanForward(kept, 0) else ScanBackward(kept, |kept|);
        assert Find(cs, first, keys) == if found.Some? then Some(kept[found.value]) else None;
        if first {
          ScanForwardSpec(kept, 0);
        } else {
          ScanBackwardSpec(kept, |kept|);
        }
        ScanFinds(kept, first, found);
      }
  }

  /** r is what find picks among several survivors: none when none of them
      exists, else one that exists with none existing before it (first) or
      after it (not first). */
  predicate FoundAmong(kept: seq<Source>, first: bool, r: Option<Source>)
  {
    && (r.None? <==> forall j | 0 <= j < |kept| :: !Exists(kept[j], []))
    && (r.Some? ==>
          exists j | 0 <= j < |kept| ::
            && r.value == kept[j]
            && Exists(kept[j], [])
            && (first ==> forall i | 0 <= i < j :: !Exists(kept[i], []))
            && (!first ==> forall i | j < i < |kept| :: !Exists(kept[i], [])))
  }

  lemma ScanFinds(kept: seq<Source>, first: bool, found: Option<nat>)
    requires found.Some? ==> found.value < |kept| && Exists(kept[found.value], [])
    requires found.Some? && first ==> forall i | 0 <= i < found.value :: !Exists(kept[i], [])
    requires found.Some? && !first ==> forall i | found.value < i < |kept| :: !Exists(kept[i], [])
    requires found.None? ==> forall i | 0 <= i < |kept| :: !Exists(kept[i], [])
    ensures FoundAmong(kept, first, if found.Some? then Some(kept[found.value]) else None)
  {
  }

  /** For every view: a path that does not exist has Type Undefined, and
      every getter fails on it, with DoesNotExist or, under a shift, BadKey
      (multisource.go:229-267, and the same in the other views). */
  lemma {:induction false} NotExistsMeansGetFails(s: Source, keys: seq<string>, want: NodeType)
    requires !Exists(s, keys)
    ensures Type(s, keys) == Undefined
    ensures Get(s, keys, want).Err? && Get(s, keys, want).kind != WrongType
    decreases Size(s), Wraps(s)
  {
    match s {
      case Leaf(_) =>
      case Offset(offs, src) =>
        match Transform(offs, keys) {
          case Err(_) =>
          case Ok(tk) => NotExistsMeansGetFails(src, tk, want);
        }
      case Prefix(p, src) =>
        match MatchPrefix(p, keys) {
          case Mismatch =>
          case Consumed(np, rest) => NotExistsMeansGetFails(src, rest, want);
        }
      case Multi(_, _, _) =>
    }
  }

  /** For every view, the scalar getters agree with Type: a getter succeeds
      exactly when the path holds a value of the kind asked for, and a
      value of any other kind fails with WrongType (multisource.go:234-267
      hands both questions to the child find picks). */
  lemma {:induction false} GetMatchesType(s: Source, keys: seq<string>, want: NodeType)
    requires want != Undefined && want != Map
    ensures Get(s, keys, want).Ok? <==> Type(s, keys) == want
    ensures Type(s, keys) != Undefined && Type(s, keys) != want ==> Get(s, keys, want) == Err(WrongType)
    decreases Size(s), Wraps(s)
  {
    match s {
      case Leaf(_) =>
      case Offset(offs, src) =>
        match Transform(offs, keys) {
          case Err(_) =>
          case Ok(tk) => GetMatchesType(src, tk, want);
        }
      case Prefix(p, src) =>
        match MatchPrefix(p, keys) {
          case Mismatch =>
          case Consumed(np, rest) =>
            if np == [] {
              GetMatchesType(src, rest, want);
            }
        }
      case Multi(cs, f, _) =>
        match Find(cs, f, keys) {
          case None =>
          case Some(x) => GetMatchesType(x, [], want);
        }
    }
  }

  // ---- the walk (multisource.go:159-198) ----

  /** The per-depth counters only grow, and depths already passed are left
      alone. */
  lemma {:induction false} CountersGrow(r: Source, keys: seq<string>, i: nat, counters: seq<nat>)
    requires i <= |keys| && |counters| == |keys|
    ensures forall d | 0 <= d < |keys| :: WalkChild(r, keys, i, counters).1[d] >= counters[d]
    ensures forall d | 0 <= d < i :: WalkChild(r, keys, i, counters).1[d] == counters[d]
    decreases |keys| - i
  {
    if i < |keys| {
      match Recurse(r, [keys[i]])
      case None =>
      case Some(r1) =>
        if Type(r1, []) == Slice {
          var length := match Len(r1, []) case Ok(n) => n case Err(_) => 0;
          var r2 := if counters[i] != 0 then Offset([counters[i]], r1) else r1;
          CountersGrow(r2, keys, i + 1, counters[i := counters[i] + length]);
        } else {
          CountersGrow(r1, keys, i + 1, counters);
        }
    }
  }

  /** One step of the walk over the children. */
  lemma WalkChildrenCons(cs: seq<Source>, keys: seq<string>, counters: seq<nat>)
    requires cs != [] && |counters| == |keys|
    ensures var w := WalkChild(cs[0], keys, 0, counters);
            WalkChildren(cs, keys, counters) ==
              (if w.0.Some? then [w.0.value] else []) + WalkChildren(cs[1..], keys, w.1)
  {
    var w := WalkChild(cs[0], keys, 0, counters);
    if w.0.None? {
      assert [] + WalkChildren(cs[1..], keys, w.1) == WalkChildren(cs[1..], keys, w.1);
    }
  }

  /** The walk never keeps more children than it started with. */
  lemma {:induction false} WalkKeepsAtMost(cs: seq<Source>, keys: seq<string>, counters: seq<nat>)
    requires |counters| == |keys|
    ensures |WalkChildren(cs, keys, counters)| <= |cs|
    decreases |cs|
  {
    if cs != [] {
      var w := WalkChild(cs[0], keys, 0, counters);
      WalkKeepsAtMost(cs[1..], keys, w.1);
    }
  }

  /** A child whose first step fails is dropped whatever the counters. */
  lemma {:induction false} WalkAllMiss(cs: seq<Source>, keys: seq<string>, counters: seq<nat>)
    requires keys != [] && |counters| == |keys|
    requires forall j | 0 <= j < |cs| :: Recurse(cs[j], [keys[0]]).None?
    ensures WalkChildren(cs, keys, counters) == []
    decreases |cs|
  {
    if cs != [] {
      assert Recurse(cs[0], [keys[0]]).None?;
      WalkAllMiss(cs[1..], keys, counters);
    }
  }

  /** When no child has the first key, a non-empty walk drops every child and
      the result is None, not an empty merge; nothing exists there. */
  lemma RecurseDropsMissing(cs: seq<Source>, first: bool, combine: bool, keys: seq<string>, want: NodeType)
    requires keys != []
    requires forall j | 0 <= j < |cs| :: Recurse(cs[j], [keys[0]]).None?
    ensures Recurse(Multi(cs, first, combine), keys) == None
    ensures !Exists(Multi(cs, first, combine), keys)
    ensures Get(Multi(cs, first, combine), keys, want) == Err(DoesNotExist)
    ensures Type(Multi(cs, first, combine), keys) == Undefined
  {
    WalkAllMiss(cs, keys, Zeros(|keys|));
  }

  // ---- sequence stitching (multisource.go:165-179) ----

  /** A child shifted by base, the way the walk wraps a sequence child when
      the counter of its depth is nonzero. */
  function Shifted(base: nat, r: Source): Source
  {
    if base != 0 then Offset([base], r) else r
  }

  /** The children the walk makes of the sequences lists[0], lists[1], ...
      when the counter starts at base. */
  function Stitched(lists: seq<seq<Value>>, base: nat): (r: seq<Source>)
    ensures |r| == |lists|
    decreases |lists|
  {
    if lists == [] then []
    else [Shifted(base, Leaf(SeqValue(lists[0])))] + Stitched(lists[1..], base + |lists[0]|)
  }

  function Lengths(lists: seq<seq<Value>>): (r: seq<nat>)
    ensures |r| == |lists| && forall j | 0 <= j < |lists| :: r[j] == |lists[j]|
    decreases |lists|
  {
    if lists == [] then [] else [|lists[0]|] + Lengths(lists[1..])
  }

  lemma {:induction false} SumOfLengths(lists: seq<seq<Value>>)
    ensures Sum(Lengths(lists)) == |Flatten(lists)|
    decreases |lists|
  {
    if lists != [] {
      assert Lengths(lists)[1..] == Lengths(lists[1..]);
      SumOfLengths(lists[1..]);
    }
  }

  /** Child j of the stitched list is sequence j shifted by base plus the
      summed lengths of the sequences before it. */
  lemma {:induction false} StitchedAt(lists: seq<seq<Value>>, base: nat, j: nat)
    requires j < |lists|
    ensures Stitched(lists, base)[j] == Shifted(base + |Flatten(lists[..j])|, Leaf(SeqValue(lists[j])))
    decreases j
  {
    if j == 0 {
      assert lists[..0] == [];
    } else {
      StitchedAt(lists[1..], base + |lists[0]|, j - 1);
      assert lists[..j][1..] == lists[1..][..j - 1];
      assert lists[..j][0] == lists[0];
    }
  }

  /** Each child xs[j] holds the sequence lists[j] at key k. */
  predicate HoldsSeqs(xs: seq<Source>, lists: seq<seq<Value>>, k: string)
  {
    |xs| == |lists| && forall j | 0 <= j < |xs| :: Recurse(xs[j], [k]) == Some(Leaf(SeqValue(lists[j])))
  }

  lemma HoldsSeqsTail(xs: seq<Source>, lists: seq<seq<Value>>, k: string)
    requires xs != [] && HoldsSeqs(xs, lists, k)
    ensures Recurse(xs[0], [k]) == Some(Leaf(SeqValue(lists[0])))
    ensures HoldsSeqs(xs[1..], lists[1..], k)
  {
    forall j | 0 <= j < |xs[1..]|
      ensures Recurse(xs[1..][j], [k]) == Some(Leaf(SeqValue(lists[1..][j])))
    {
      assert xs[1..][j] == xs[j + 1] && lists[1..][j] == lists[j + 1];
    }
  }

  /** Walking one key through children that each hold a sequence there
      produces the stitched list. */
  lemma {:induction false} StitchWalk(xs: seq<Source>, lists: seq<seq<Value>>, k: string, base: nat)
    requires HoldsSeqs(xs, lists, k)
    ensures WalkChildren(xs, [k], [base]) == Stitched(lists, base)
    decreases |xs|
  {
    if xs != [] {
      HoldsSeqsTail(xs, lists, k);
      StitchStep(xs[0], lists[0], k, base);
      StitchWalk(xs[1..], lists[1..], k, base + |lists[0]|);
      WalkKeepsHead(xs, [k], [base], Shifted(base, Leaf(SeqValue(lists[0]))), [base + |lists[0]|],
                    Stitched(lists[1..], base + |lists[0]|));
    }
  }

  /** A child holding sequence l at k is kept shifted by the counter, and
      the counter grows by |l|. */
  lemma StitchStep(x: Source, l: seq<Value>, k: string, base: nat)
    requires Recurse(x, [k]) == Some(Leaf(SeqValue(l)))
    ensures WalkChild(x, [k], 0, [base]) == (Some(Shifted(base, Leaf(SeqValue(l)))), [base + |l|])
  {
    assert [base][0 := base + |l|] == [base + |l|];
  }

  lemma StitchedCons(lists: seq<seq<Value>>, base: nat)
    requires lists != []
    ensures Stitched(lists, base)[0] == Shifted(base, Leaf(SeqValue(lists[0])))
    ensures Stitched(lists, base)[1..] == Stitched(lists[1..], base + |lists[0]|)
  {
  }

  /** Index j of a sequence leaf is its j-th element, or nothing. */
  lemma LeafAt(l: seq<Value>, j: int)
    requires MinInt64 <= j <= MaxInt64
    ensures Recurse(Leaf(SeqValue(l)), [Itoa(j)]) ==
              if 0 <= j < |l| then Some(Leaf(l[j])) else None
  {
    var key := Itoa(j);
    assert [key][1..] == [];
    if 0 <= j < |l| {
      ChildAtIndex(l, j);
      assert Navigate(SeqValue(l), [key]) == Some(l[j]);
    } else {
      ChildOutOfRange(l, j);
      assert Navigate(SeqValue(l), [key]) == None;
    }
  }

  /** Index i of a shifted sequence is element i - b of the sequence. */
  lemma ShiftedLeafAt(b: nat, l: seq<Value>, i: int)
    requires 0 <= i <= MaxInt64 && b <= MaxInt64
    ensures Recurse(Shifted(b, Leaf(SeqValue(l))), [Itoa(i)]) ==
              if b <= i < b + |l| then Some(Leaf(l[i - b])) else None
  {
    LeafAt(l, i - b);
    if b != 0 {
      RecurseShiftedOne(b, Leaf(SeqValue(l)), i);
    }
  }

  /** Recursing one index into a view shifted by b is recursing index i - b
      into the view below. */
  lemma RecurseShiftedOne(b: int, u: Source, i: int)
    requires MinInt64 <= i <= MaxInt64
    ensures Recurse(Offset([b], u), [Itoa(i)]) == Recurse(u, [Itoa(i - b)])
  {
    TransformSingleShift(b, i - b, []);
    assert [Itoa(i - b + b)] + [] == [Itoa(i)];
    assert [Itoa(i - b)] + [] == [Itoa(i - b)];
  }

  /** A child whose range does not hold index i is dropped and leaves the
      counter alone. */
  lemma MissChild(base: nat, l: seq<Value>, i: int, counter: nat)
    requires 0 <= i <= MaxInt64 && base <= MaxInt64
    requires i < base || base + |l| <= i
    ensures WalkChild(Shifted(base, Leaf(SeqValue(l))), [Itoa(i)], 0, [counter]) == (None, [counter])
  {
    ShiftedLeafAt(base, l, i);
  }

  /** A shifted sequence, asked at the empty path, exists and has the
      sequence's length. */
  lemma ShiftedLeafWhole(b: nat, l: seq<Value>)
    ensures Exists(Shifted(b, Leaf(SeqValue(l))), [])
    ensures Len(Shifted(b, Leaf(SeqValue(l))), []) == Ok(|l|)
  {
    TransformOk([b], [], []);
  }

  /** An index outside the stitched range reaches no child, whatever the
      counter. */
  lemma {:induction false} StitchedMiss(lists: seq<seq<Value>>, base: nat, i: int, counter: nat)
    requires 0 <= i <= MaxInt64 && base + |Flatten(lists)| <= MaxInt64
    requires i < base || base + |Flatten(lists)| <= i
    ensures WalkChildren(Stitched(lists, base), [Itoa(i)], [counter]) == []
    decreases |lists|
  {
    if lists != [] {
      var s := Stitched(lists, base);
      StitchedCons(lists, base);
      MissChild(base, lists[0], i, counter);
      StitchedMiss(lists[1..], base + |lists[0]|, i, counter);
    }
  }

  /** An index inside the stitched range reaches exactly one child, which
      yields element i - base of the concatenation, unwrapped. */
  lemma {:induction false} StitchedHit(lists: seq<seq<Value>>, base: nat, i: int)
    requires 0 <= i <= MaxInt64 && base + |Flatten(lists)| <= MaxInt64
    requires base <= i < base + |Flatten(lists)|
    ensures WalkChildren(Stitched(lists, base), [Itoa(i)], [0]) == [Leaf(Flatten(lists)[i - base])]
    decreases |lists|
  {
    assert Flatten(lists) == lists[0] + Flatten(lists[1..]);
    if i < base + |lists[0]| {
      HitFirst(lists, base, i);
    } else {
      HitLater(lists, base, i);
      StitchedHit(lists[1..], base + |lists[0]|, i);
    }
  }

  /** Index i inside the first sequence's range: that child is kept and
      every later child is dropped. */
  lemma HitFirst(lists: seq<seq<Value>>, base: nat, i: int)
    requires |lists| >= 1 && 0 <= i <= MaxInt64 && base + |Flatten(lists)| <= MaxInt64
    requires base <= i < base + |lists[0]|
    ensures WalkChildren(Stitched(lists, base), [Itoa(i)], [0]) == [Leaf(lists[0][i - base])]
  {
    var s := Stitched(lists, base);
    StitchedCons(lists, base);
    assert Flatten(lists) == lists[0] + Flatten(lists[1..]);
    var key := Itoa(i);
    var w := HitChild(base, lists[0], i);
    StitchedMiss(lists[1..], base + |lists[0]|, i, w);
    WalkKeepsOnlyHead(s, [key], [0], Leaf(lists[0][i - base]), [w]);
  }

  /** A walk whose first child survives keeps it in front of what the walk
      over the other children keeps. */
  lemma WalkKeepsHead(cs: seq<Source>, keys: seq<string>, counters: seq<nat>, x: Source, after: seq<nat>,
                      rest: seq<Source>)
    requires cs != [] && |counters| == |keys| == |after|
    requires WalkChild(cs[0], keys, 0, counters) == (Some(x), after)
    requires WalkChildren(cs[1..], keys, after) == rest
    ensures WalkChildren(cs, keys, counters) == [x] + rest
  {
    WalkChildrenCons(cs, keys, counters);
  }

  /** A walk whose first child survives and whose other children all drop
      keeps only the first child. */
  lemma WalkKeepsOnlyHead(cs: seq<Source>, keys: seq<string>, counters: seq<nat>, x: Source, after: seq<nat>)
    requires cs != [] && |counters| == |keys| == |after|
    requires WalkChild(cs[0], keys, 0, counters) == (Some(x), after)
    requires WalkChildren(cs[1..], keys, after) == []
    ensures WalkChildren(cs, keys, counters) == [x]
  {
    WalkChildrenCons(cs, keys, counters);
    assert [x] + [] == [x];
  }

  /** Index i past the first sequence's range: the first child is dropped
      and the counter is left at 0. */
  lemma HitLater(lists: seq<seq<Value>>, base: nat, i: int)
    requires |lists| >= 1 && 0 <= i <= MaxInt64 && base <= MaxInt64
    requires base + |lists[0]| <= i
    ensures WalkChildren(Stitched(lists, base), [Itoa(i)], [0]) ==
              WalkChildren(Stitched(lists[1..], base + |lists[0]|), [Itoa(i)], [0])
  {
    var s := Stitched(lists, base);
    StitchedCons(lists, base);
    WalkChildrenCons(s, [Itoa(i)], [0]);
    MissChild(base, lists[0], i, 0);
    assert [] + WalkChildren(s[1..], [Itoa(i)], [0]) == WalkChildren(s[1..], [Itoa(i)], [0]);
  }

  /** The child whose range holds index i walks to element i - base of its
      sequence, unwrapped. */
  lemma HitChild(base: nat, l: seq<Value>, i: int) returns (c: nat)
    requires 0 <= i <= MaxInt64 && base + |l| <= MaxInt64
    requires base <= i < base + |l|
    ensures WalkChild(Shifted(base, Leaf(SeqValue(l))), [Itoa(i)], 0, [0]) == (Some(Leaf(l[i - base])), [c])
  {
    var key := Itoa(i);
    ShiftedLeafAt(base, l, i);
    var v := l[i - base];
    assert Recurse(Shifted(base, Leaf(SeqValue(l))), [key]) == Some(Leaf(v));
    var w := WalkChild(Shifted(base, Leaf(SeqValue(l))), [key], 0, [0]);
    if Type(Leaf(v), []) == Slice {
      var length := match Len(Leaf(v), []) case Ok(n) => n case Err(_) => 0;
      assert [0][0 := 0 + length] == [length];
      assert w == WalkChild(Leaf(v), [key], 1, [length]);
      c := length;
    } else {
      assert w == WalkChild(Leaf(v), [key], 1, [0]);
      c := 0;
    }
  }

  /** All the children exist at the path and report lengths ns: the lengths
      are collected in child order. */
  lemma {:induction false} CollectLensAllOk(cs: seq<Source>, keys: seq<string>, i: nat, ns: seq<nat>)
    requires i <= |cs| && |ns| == |cs|
    requires forall j | 0 <= j < |cs| :: Exists(cs[j], keys) && Len(cs[j], keys) == Ok(ns[j])
    ensures CollectLens(cs, keys, i) == Ok(ns[i..])
    decreases |cs| - i
  {
    if i < |cs| {
      CollectLensAllOk(cs, keys, i + 1, ns);
      assert Exists(cs[i], keys) && Len(cs[i], keys) == Ok(ns[i]);
      assert CollectLens(cs, keys, i) == Ok([ns[i]] + ns[i + 1..]);
      assert ns[i..] == [ns[i]] + ns[i + 1..];
    } else {
      assert ns[i..] == [];
    }
  }

  /** Sequence stitching: walking key k through children that each hold a
      sequence there gives a merge whose j-th child is the j-th sequence
      shifted by the summed lengths of the sequences before it, so the first
      is not wrapped at all. */
  lemma StitchRecurse(xs: seq<Source>, lists: seq<seq<Value>>, k: string, first: bool, combine: bool)
    requires |xs| == |lists| >= 1
    requires forall j | 0 <= j < |xs| :: Recurse(xs[j], [k]) == Some(Leaf(SeqValue(lists[j])))
    ensures Recurse(Multi(xs, first, combine), [k]) == Some(Multi(Stitched(lists, 0), first, combine))
    ensures forall j | 0 <= j < |lists| ::
              Stitched(lists, 0)[j] == Shifted(|Flatten(lists[..j])|, Leaf(SeqValue(lists[j])))
    ensures Stitched(lists, 0)[0] == Leaf(SeqValue(lists[0]))
  {
    assert Zeros(1) == [0];
    StitchWalk(xs, lists, k, 0);
    forall j | 0 <= j < |lists|
      ensures Stitched(lists, 0)[j] == Shifted(|Flatten(lists[..j])|, Leaf(SeqValue(lists[j])))
    {
      StitchedAt(lists, 0, j);
    }
  }

  // ---- the walk along one key, for any children ----

  /** What child x adds to the counter at key k: the length of what it
      holds there when that is a sequence, and nothing otherwise. */
  function SeqLenAt(x: Source, k: string): nat
  {
    match Recurse(x, [k])
    case None => 0
    case Some(r) =>
      if Type(r, []) == Slice then (match Len(r, []) case Ok(n) => n case Err(_) => 0) else 0
  }

  /** The summed sequence lengths of the children before child j. */
  function LenBefore(xs: seq<Source>, k: string, j: nat): nat
    requires j <= |xs|
    decreases j
  {
    if j == 0 then 0 else LenBefore(xs, k, j - 1) + SeqLenAt(xs[j - 1], k)
  }

  /** What child j becomes at key k: nothing when it misses k; a sequence
      shifted by the lengths of the sequences before it; anything else as is. */
  function Survivor(xs: seq<Source>, k: string, j: nat): Option<Source>
    requires j < |xs|
  {
    match Recurse(xs[j], [k])
    case None => None
    case Some(r) => Some(if Type(r, []) == Slice then Shifted(LenBefore(xs, k, j), r) else r)
  }

  /** The survivors of children j, j + 1, ..., in child order. */
  function Survivors(xs: seq<Source>, k: string, j: nat): seq<Source>
    requires j <= |xs|
    decreases |xs| - j
  {
    if j == |xs| then []
    else (match Survivor(xs, k, j) case None => [] case Some(r) => [r]) + Survivors(xs, k, j + 1)
  }

  /** One child's walk along one key, from counter b. */
  lemma WalkChildOneKey(x: Source, k: string, b: nat)
    ensures WalkChild(x, [k], 0, [b]) ==
              (match Recurse(x, [k])
               case None => None
               case Some(r) => Some(if Type(r, []) == Slice then Shifted(b, r) else r),
               [b + SeqLenAt(x, k)])
  {
    match Recurse(x, [k]) {
      case None =>
      case Some(r) =>
        if Type(r, []) == Slice {
          assert [b][0 := b + SeqLenAt(x, k)] == [b + SeqLenAt(x, k)];
        }
    }
  }

  lemma {:induction false} WalkOneKeyFrom(xs: seq<Source>, k: string, j: nat)
    requires j <= |xs|
    ensures WalkChildren(xs[j..], [k], [LenBefore(xs, k, j)]) == Survivors(xs, k, j)
    decreases |xs| - j
  {
    if j < |xs| {
      var b := LenBefore(xs, k, j);
      var w := WalkChild(xs[j], [k], 0, [b]);
      WalkChildrenCons(xs[j..], [k], [b]);
      assert xs[j..][0] == xs[j] && xs[j..][1..] == xs[j + 1..];
      WalkChildOneKey(xs[j], k, b);
      assert w.1 == [LenBefore(xs, k, j + 1)];
      assert w.0 == Survivor(xs, k, j);
      WalkOneKeyFrom(xs, k, j + 1);
    }
  }

  /** Recursing a merge one key: every child is walked with the shared
      counter; a child that misses the key is dropped; a child holding a
      sequence there is shifted by the summed lengths of the sequences the
      earlier children hold there (the first one not at all); any other
      child is kept as it is, and adds nothing to the counter. With no
      survivor the result is None. */
  lemma WalkOneKey(xs: seq<Source>, k: string, first: bool, combine: bool)
    ensures Recurse(Multi(xs, first, combine), [k]) ==
              if Survivors(xs, k, 0) == [] then None else Some(Multi(Survivors(xs, k, 0), first, combine))
  {
    assert Zeros(1) == [0];
    assert xs[0..] == xs;
    WalkOneKeyFrom(xs, k, 0);
  }

  /** The stitched merge reads as one sequence: its length is the total
      length, and index i reaches element i of the concatenation, both
      through Get at index i and through Recurse to index i; past the end
      nothing exists. */
  lemma StitchedReads(lists: seq<seq<Value>>, first: bool, combine: bool, i: int, want: NodeType)
    requires |lists| >= 1 && |Flatten(lists)| <= MaxInt64
    requires 0 <= i <= MaxInt64
    ensures combine || |lists| == 1 ==>
              Len(Multi(Stitched(lists, 0), first, combine), []) == Ok(|Flatten(lists)|)
    ensures i < |Flatten(lists)| ==>
              var m := Multi(Stitched(lists, 0), first, combine);
              var v := Flatten(lists)[i];
              && Recurse(m, [Itoa(i)]) == Some(Multi([Leaf(v)], first, combine))
              && Get(m, [Itoa(i)], want) == (if KindOf(v) == want then Ok(v) else Err(WrongType))
              && Get(Recurse(m, [Itoa(i)]).value, [], want) == Get(m, [Itoa(i)], want)
    ensures |Flatten(lists)| <= i ==>
              var m := Multi(Stitched(lists, 0), first, combine);
              Recurse(m, [Itoa(i)]) == None && !Exists(m, [Itoa(i)])
  {
    StitchedLen(lists, first, combine);
    if i < |Flatten(lists)| {
      StitchedIndexHit(lists, first, combine, i, want);
    } else {
      StitchedIndexMiss(lists, first, combine, i);
    }
  }

  lemma StitchedIndexHit(lists: seq<seq<Value>>, first: bool, combine: bool, i: int, want: NodeType)
    requires |lists| >= 1 && |Flatten(lists)| <= MaxInt64
    requires 0 <= i < |Flatten(lists)|
    ensures var m := Multi(Stitched(lists, 0), first, combine);
            var v := Flatten(lists)[i];
            && Recurse(m, [Itoa(i)]) == Some(Multi([Leaf(v)], first, combine))
            && Get(m, [Itoa(i)], want) == (if KindOf(v) == want then Ok(v) else Err(WrongType))
            && Get(Recurse(m, [Itoa(i)]).value, [], want) == Get(m, [Itoa(i)], want)
  {
    assert Zeros(1) == [0];
    StitchedHit(lists, 0, i);
    var v := Flatten(lists)[i];
    assert RecurseChildren(Stitched(lists, 0), [Itoa(i)]) == Some([Leaf(v)]);
    assert RecurseChildren([Leaf(v)], []) == Some([Leaf(v)]);
    assert Find([Leaf(v)], first, []) == Some(Leaf(v));
  }

  lemma StitchedIndexMiss(lists: seq<seq<Value>>, first: bool, combine: bool, i: int)
    requires |lists| >= 1 && |Flatten(lists)| <= MaxInt64
    requires |Flatten(lists)| <= i <= MaxInt64
    ensures var m := Multi(Stitched(lists, 0), first, combine);
            Recurse(m, [Itoa(i)]) == None && !Exists(m, [Itoa(i)])
  {
    assert Zeros(1) == [0];
    StitchedMiss(lists, 0, i, 0);
  }

  /** The stitched merge, combining or with one child, has the summed length. */
  lemma StitchedLen(lists: seq<seq<Value>>, first: bool, combine: bool)
    requires |lists| >= 1
    ensures combine || |lists| == 1 ==>
              Len(Multi(Stitched(lists, 0), first, combine), []) == Ok(|Flatten(lists)|)
  {
    var s := Stitched(lists, 0);
    forall j | 0 <= j < |s| ensures Exists(s[j], []) && Len(s[j], []) == Ok(Lengths(lists)[j]) {
      StitchedAt(lists, 0, j);
      ShiftedLeafWhole(|Flatten(lists[..j])|, lists[j]);
    }
    if |lists| == 1 {
      assert Flatten(lists) == lists[0] + Flatten(lists[1..]);
      StitchedAt(lists, 0, 0);
    } else if combine {
      CollectLensAllOk(s, [], 0, Lengths(lists));
      assert Lengths(lists)[0..] == Lengths(lists);
      SumOfLengths(lists);
    }
  }

  // ---- combined Keys (multisource.go:269-309) ----

  /** The collected key lists: they exist exactly when every existing child
      answers; they are empty exactly when no child exists; a failure is
      the error of an existing child. */
  lemma {:induction false} CollectKeysSpec(cs: seq<Source>, keys: seq<string>, i: nat)
    requires i <= |cs|
    ensures CollectKeys(cs, keys, i).Ok? <==>
              forall j | i <= j < |cs| && Exists(cs[j], keys) :: Keys(cs[j], keys).Ok?
    ensures CollectKeys(cs, keys, i).Ok? ==>
              (CollectKeys(cs, keys, i).value == [] <==> forall j | i <= j < |cs| :: !Exists(cs[j], keys))
    ensures CollectKeys(cs, keys, i).Err? ==>
              exists j | i <= j < |cs| :: Exists(cs[j], keys) && Keys(cs[j], keys) == Err(CollectKeys(cs, keys, i).kind)
    decreases |cs| - i
  {
    if i < |cs| {
      CollectKeysSpec(cs, keys, i + 1);
      var rest := CollectKeys(cs, keys, i + 1);
      if !Exists(cs[i], keys) {
        assert CollectKeys(cs, keys, i) == rest;
      } else {
        match Keys(cs[i], keys) {
          case Err(e) =>
            assert CollectKeys(cs, keys, i) == Err(e);
          case Ok(found) =>
            if rest.Err? {
              assert CollectKeys(cs, keys, i) == Err(rest.kind);
            } else {
              assert CollectKeys(cs, keys, i) == Ok([found] + rest.value);
            }
        }
      }
    }
  }

  /** A key is among the collected lists exactly when some existing child
      from i on lists it. */
  lemma {:induction false} CollectKeysMember(cs: seq<Source>, keys: seq<string>, i: nat, x: string)
    requires i <= |cs| && CollectKeys(cs, keys, i).Ok?
    ensures x in Flatten(CollectKeys(cs, keys, i).value) <==>
              exists j | i <= j < |cs| :: Exists(cs[j], keys) && Keys(cs[j], keys).Ok? && x in Keys(cs[j], keys).value
    decreases |cs| - i
  {
    if i < |cs| {
      CollectKeysMember(cs, keys, i + 1, x);
      if Exists(cs[i], keys) {
        var lists := CollectKeys(cs, keys, i).value;
        assert lists[1..] == CollectKeys(cs, keys, i + 1).value;
      }
    }
  }

  /** The key lists of the children from i on that exist at the path,
      joined in child order; a child that exists but lists no keys adds
      nothing. */
  function ExistingKeys(cs: seq<Source>, keys: seq<string>, i: nat): seq<string>
    requires i <= |cs|
    decreases |cs| - i
  {
    if i == |cs| then []
    else
      (if Exists(cs[i], keys) then (match Keys(cs[i], keys) case Ok(ks) => ks case Err(_) => []) else [])
      + ExistingKeys(cs, keys, i + 1)
  }

  /** Collected key lists, joined, are the existing children's keys in
      child order. */
  lemma {:induction false} CollectKeysOrder(cs: seq<Source>, keys: seq<string>, i: nat)
    requires i <= |cs| && CollectKeys(cs, keys, i).Ok?
    ensures Flatten(CollectKeys(cs, keys, i).value) == ExistingKeys(cs, keys, i)
    decreases |cs| - i
  {
    if i < |cs| {
      CollectKeysOrder(cs, keys, i + 1);
      if Exists(cs[i], keys) {
        var lists := CollectKeys(cs, keys, i).value;
        assert lists[1..] == CollectKeys(cs, keys, i + 1).value;
      }
    }
  }

  /** Combined Keys with other than one child: DoesNotExist when no child
      exists, an error only from an existing child, success when every
      existing child answers, and then the existing children's keys in
      first-seen order, never a key twice. */
  lemma KeysCombined(cs: seq<Source>, first: bool, keys: seq<string>)
    requires |cs| != 1
    ensures (forall j | 0 <= j < |cs| :: !Exists(cs[j], keys)) ==>
              Keys(Multi(cs, first, true), keys) == Err(DoesNotExist)
    ensures Keys(Multi(cs, first, true), keys).Err? ==>
              || (forall j | 0 <= j < |cs| :: !Exists(cs[j], keys))
              || exists j | 0 <= j < |cs| ::
                   Exists(cs[j], keys) && Keys(cs[j], keys) == Err(Keys(Multi(cs, first, true), keys).kind)
    ensures (exists j | 0 <= j < |cs| :: Exists(cs[j], keys)) &&
            (forall j | 0 <= j < |cs| && Exists(cs[j], keys) :: Keys(cs[j], keys).Ok?) ==>
              Keys(Multi(cs, first, true), keys).Ok?
    ensures Keys(Multi(cs, first, true), keys).Ok? ==> NoDuplicates(Keys(Multi(cs, first, true), keys).value)
    ensures Keys(Multi(cs, first, true), keys).Ok? ==>
              Keys(Multi(cs, first, true), keys).value == Dedup(ExistingKeys(cs, keys, 0))
  {
    CollectKeysSpec(cs, keys, 0);
    if CollectKeys(cs, keys, 0).Ok? {
      UnionSpec(CollectKeys(cs, keys, 0).value);
      CollectKeysOrder(cs, keys, 0);
    }
  }

  /** Combined Keys lists a key exactly when some existing child lists it. */
  lemma KeysCombinedMember(cs: seq<Source>, first: bool, keys: seq<string>, x: string)
    requires |cs| != 1 && Keys(Multi(cs, first, true), keys).Ok?
    ensures x in Keys(Multi(cs, first, true), keys).value <==>
              exists j | 0 <= j < |cs| :: Exists(cs[j], keys) && Keys(cs[j], keys).Ok? && x in Keys(cs[j], keys).value
  {
    CollectKeysMember(cs, keys, 0, x);
    DedupSpec(Flatten(CollectKeys(cs, keys, 0).value));
  }

  // ---- combined Len (multisource.go:311-338) ----

  lemma {:induction false} CollectLensSpec(cs: seq<Source>, keys: seq<string>, i: nat)
    requires i <= |cs|
    ensures CollectLens(cs, keys, i).Ok? ==>
              (CollectLens(cs, keys, i).value == [] <==> forall j | i <= j < |cs| :: !Exists(cs[j], keys))
    ensures CollectLens(cs, keys, i).Err? ==>
              exists j | i <= j < |cs| :: Exists(cs[j], keys) && Len(cs[j], keys) == Err(CollectLens(cs, keys, i).kind)
    decreases |cs| - i
  {
    if i < |cs| {
      CollectLensSpec(cs, keys, i + 1);
    }
  }

  /** The summed lengths of the children from i on that exist at the path;
      a child that exists but has no length adds nothing. */
  function ExistingLenSum(cs: seq<Source>, keys: seq<string>, i: nat): nat
    requires i <= |cs|
    decreases |cs| - i
  {
    if i == |cs| then 0
    else
      (if Exists(cs[i], keys) then (match Len(cs[i], keys) case Ok(n) => n case Err(_) => 0) else 0)
      + ExistingLenSum(cs, keys, i + 1)
  }

  /** When every child from i on that exists answers Len, the lengths are
      collected and add up to the summed lengths of the existing children;
      the children that do not exist are skipped. */
  lemma {:induction false} CollectLensSum(cs: seq<Source>, keys: seq<string>, i: nat)
    requires i <= |cs|
    requires forall j | i <= j < |cs| && Exists(cs[j], keys) :: Len(cs[j], keys).Ok?
    ensures CollectLens(cs, keys, i).Ok?
    ensures Sum(CollectLens(cs, keys, i).value) == ExistingLenSum(cs, keys, i)
    decreases |cs| - i
  {
    if i < |cs| {
      CollectLensSum(cs, keys, i + 1);
      var more := CollectLens(cs, keys, i + 1).value;
      if Exists(cs[i], keys) {
        var n := Len(cs[i], keys).value;
        assert CollectLens(cs, keys, i) == Ok([n] + more);
        assert ([n] + more)[1..] == more;
      }
    }
  }

  lemma {:induction false} CollectLensSuffix(pre: seq<Source>, ds: seq<Source>, keys: seq<string>, j: nat)
    requires j <= |ds|
    ensures CollectLens(pre + ds, keys, |pre| + j) == CollectLens(ds, keys, j)
    decreases |ds| - j
  {
    if j < |ds| {
      assert (pre + ds)[|pre| + j] == ds[j];
      CollectLensSuffix(pre, ds, keys, j + 1);
    }
  }

  /** Collecting over two child lists one after the other. */
  lemma {:induction false} CollectLensAppend(cs: seq<Source>, ds: seq<Source>, keys: seq<string>, i: nat)
    requires i <= |cs|
    ensures CollectLens(cs + ds, keys, i) ==
              match CollectLens(cs, keys, i)
              case Err(e) => Err(e)
              case Ok(x) =>
                match CollectLens(ds, keys, 0)
                case Err(e) => Err(e)
                case Ok(y) => Ok(x + y)
    decreases |cs| - i
  {
    if i == |cs| {
      CollectLensSuffix(cs, ds, keys, 0);
      if CollectLens(ds, keys, 0).Ok? {
        assert [] + CollectLens(ds, keys, 0).value == CollectLens(ds, keys, 0).value;
      }
    } else {
      assert (cs + ds)[i] == cs[i];
      CollectLensAppend(cs, ds, keys, i + 1);
      if Exists(cs[i], keys) && Len(cs[i], keys).Ok? &&
         CollectLens(cs, keys, i + 1).Ok? && CollectLens(ds, keys, 0).Ok? {
        var n := Len(cs[i], keys).value;
        var x := CollectLens(cs, keys, i + 1).value;
        var y := CollectLens(ds, keys, 0).value;
        assert [n] + (x + y) == ([n] + x) + y;
      }
    }
  }

  /** Combined Len with other than one child: DoesNotExist when no child
      exists, an error only from an existing child, and otherwise the plain
      sum of the lengths of the children that exist at the path. */
  lemma LenCombined(cs: seq<Source>, first: bool, keys: seq<string>, ns: seq<nat>)
    requires |cs| != 1
    ensures (forall j | 0 <= j < |cs| :: !Exists(cs[j], keys)) ==>
              Len(Multi(cs, first, true), keys) == Err(DoesNotExist)
    ensures Len(Multi(cs, first, true), keys).Err? ==>
              || (forall j | 0 <= j < |cs| :: !Exists(cs[j], keys))
              || exists j | 0 <= j < |cs| ::
                   Exists(cs[j], keys) && Len(cs[j], keys) == Err(Len(Multi(cs, first, true), keys).kind)
    ensures (exists j | 0 <= j < |cs| :: Exists(cs[j], keys)) &&
            (forall j | 0 <= j < |cs| && Exists(cs[j], keys) :: Len(cs[j], keys).Ok?) ==>
              Len(Multi(cs, first, true), keys) == Ok(ExistingLenSum(cs, keys, 0))
    ensures |ns| == |cs| && |cs| > 0 &&
            (forall j | 0 <= j < |cs| :: Exists(cs[j], keys) && Len(cs[j], keys) == Ok(ns[j])) ==>
              Len(Multi(cs, first, true), keys) == Ok(Sum(ns))
  {
    CollectLensSpec(cs, keys, 0);
    if forall j | 0 <= j < |cs| && Exists(cs[j], keys) :: Len(cs[j], keys).Ok? {
      CollectLensSum(cs, keys, 0);
    }
    if |ns| == |cs| && |cs| > 0 &&
       (forall j | 0 <= j < |cs| :: Exists(cs[j], keys) && Len(cs[j], keys) == Ok(ns[j])) {
      CollectLensAllOk(cs, keys, 0, ns);
      assert ns[0..] == ns;
    }
  }

  /** Combined lengths add up when two merges are put one after the other. */
  lemma LenCombinedAppend(cs: seq<Source>, ds: seq<Source>, first: bool, keys: seq<string>, n: nat, m: nat)
    requires |cs| != 1 && |ds| != 1
    requires Len(Multi(cs, first, true), keys) == Ok(n) && Len(Multi(ds, first, true), keys) == Ok(m)
    ensures Len(Multi(cs + ds, first, true), keys) == Ok(n + m)
  {
    CollectLensAppend(cs, ds, keys, 0);
    SumAppend(CollectLens(cs, keys, 0).value, CollectLens(ds, keys, 0).value);
  }

  /** One more child (AddSource, multisource.go:146-148) adds its own length
      to a combined length when it exists at the path, and nothing when it
      does not. */
  lemma LenAddSource(cs: seq<Source>, s: Source, first: bool, keys: seq<string>, n: nat)
    requires |cs| >= 2 && Len(Multi(cs, first, true), keys) == Ok(n)
    ensures Exists(s, keys) && Len(s, keys).Ok? ==>
              Len(Multi(cs + [s], first, true), keys) == Ok(n + Len(s, keys).value)
    ensures !Exists(s, keys) ==> Len(Multi(cs + [s], first, true), keys) == Ok(n)
  {
    CollectLensAppend(cs, [s], keys, 0);
    var x := CollectLens(cs, keys, 0).value;
    if Exists(s, keys) && Len(s, keys).Ok? {
      assert [s][0] == s && CollectLens([s], keys, 1) == Ok([]);
      assert [Len(s, keys).value] + [] == [Len(s, keys).value];
      assert CollectLens([s], keys, 0) == Ok([Len(s, keys).value]);
      SumAppend(x, [Len(s, keys).value]);
    } else if !Exists(s, keys) {
      assert CollectLens([s], keys, 0) == Ok([]);
      assert x + [] == x;
    }
  }
}
