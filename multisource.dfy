/** The merge engine's construction and rewriting (multisource.go): building
    a merge, the copy-on-write flag setters, nil filtering, mapping a
    mutation over the children, and the MultiSource object whose child list
    AddSource extends in place. */
module MultiSources {
  import opened Base
  import opened KeyUnion
  import opened Sources
  import MultiWalk
  import opened Mutations

  // ---- construction ----

  /** multisource.go:35-57: no arguments give an empty merge with both flags
      on; a merge as first argument is copied with the other arguments
      appended (its flags kept); otherwise the arguments become the
      children, with both flags on. */
  function NewMultiSource(args: seq<Source>): (r: Source)
    ensures r.Multi?
    ensures args == [] ==> r == Multi([], true, true)
    ensures args != [] && args[0].Multi? ==>
              r == Multi(args[0].sources + args[1..], args[0].first, args[0].combine)
    ensures args != [] && !args[0].Multi? ==> r == Multi(args, true, true)
  {
    if args == [] then Multi([], true, true)
    else if args[0].Multi? then Multi(args[0].sources + args[1..], args[0].first, args[0].combine)
    else Multi(args, true, true)
  }

  /** Building in two steps is building at once: a merge of a merge folds
      into one. */
  lemma NewMultiSourceRegroups(a: seq<Source>, b: seq<Source>)
    requires a != []
    ensures NewMultiSource([NewMultiSource(a)] + b) == NewMultiSource(a + b)
  {
    assert ([NewMultiSource(a)] + b)[1..] == b;
    assert (a + b)[0] == a[0] && (a + b)[1..] == a[1..] + b;
    if a[0].Multi? {
      assert a[0].sources + a[1..] + b == a[0].sources + (a[1..] + b);
    }
  }

  /** The sources that are present, in order (multisource.go:128-133). */
  function Present(args: seq<Option<Source>>): (r: seq<Source>)
    ensures |r| <= |args|
    decreases |args|
  {
    if args == [] then []
    else if args[0].Some? then [args[0].value] + Present(args[1..])
    else Present(args[1..])
  }

  /** Present keeps exactly the sources that are there, in their order. */
  lemma {:induction false} PresentSpec(a: seq<Option<Source>>, b: seq<Option<Source>>, s: Source)
    ensures Present(a + b) == Present(a) + Present(b)
    ensures s in Present(a) <==> Some(s) in a
    decreases |a|
  {
    if a == [] {
      assert a + b == b;
    } else {
      assert (a + b)[0] == a[0] && (a + b)[1..] == a[1..] + b;
      assert a == [a[0]] + a[1..];
      PresentSpec(a[1..], b, s);
    }
  }

  /** The loop of multisource.go:128-133. */
  method FilterPresent(args: seq<Option<Source>>) returns (notNil: seq<Source>)
    ensures notNil == Present(args)
  {
    notNil := [];
    var i := 0;
    while i < |args|
      invariant 0 <= i <= |args|
      invariant notNil + Present(args[i..]) == Present(args)
    {
      assert args[i..] == [args[i]] + args[i + 1..];
      if args[i].Some? {
        notNil := notNil + [args[i].value];
      }
      i := i + 1;
    }
    assert args[|args|..] == [];
    assert notNil + [] == notNil;
  }

  /** multisource.go:127-142: None when nothing is present, the one present
      source itself, or a merge of all of them. */
  function CombineSources(args: seq<Option<Source>>): (r: Option<Source>)
    ensures r.None? <==> forall i | 0 <= i < |args| :: args[i].None?
    ensures |Present(args)| == 1 ==> r == Some(Present(args)[0])
    ensures |Present(args)| >= 2 ==> r == Some(NewMultiSource(Present(args)))
  {
    var notNil := Present(args);
    forall i | 0 <= i < |args| && args[i].Some? ensures |notNil| > 0 {
      PresentSpec(args, [], args[i].value);
    }
    if |notNil| == 0 then None
    else
      PresentSpec(args, [], notNil[0]);
      if |notNil| == 1 then Some(notNil[0])
      else Some(NewMultiSource(notNil))
  }

  // ---- the flag setters (multisource.go:79-122) ----

  /** Set first on a merge; anything else, or a merge already so set, is
      returned as it is. */
  function SetFirstOn(first: bool, s: Source): (r: Source)
    ensures !s.Multi? ==> r == s
    ensures s.Multi? && s.first == first ==> r == s
    ensures s.Multi? ==> r.Multi? && r.first == first && r.sources == s.sources && r.combine == s.combine
  {
    if s.Multi? && s.first != first then Multi(s.sources, first, s.combine) else s
  }

  /** Set combine on a merge; anything else, or a merge already so set, is
      returned as it is. */
  function SetCombineOn(combine: bool, s: Source): (r: Source)
    ensures !s.Multi? ==> r == s
    ensures s.Multi? && s.combine == combine ==> r == s
    ensures s.Multi? ==> r.Multi? && r.combine == combine && r.sources == s.sources && r.first == s.first
  {
    if s.Multi? && s.combine != combine then Multi(s.sources, s.first, combine) else s
  }

  /** MultiSourceSetFirst as a mutation. */
  function SetFirst(first: bool): (m: Mutation)
    ensures forall s :: m(s) == SetFirstOn(first, s)
  {
    s => SetFirstOn(first, s)
  }

  /** MultiSourceSetCombine as a mutation. */
  function SetCombine(combine: bool): (m: Mutation)
    ensures forall s :: m(s) == SetCombineOn(combine, s)
  {
    s => SetCombineOn(combine, s)
  }

  /** Setting a flag twice is setting it once; the two setters commute; and
      a merge set to the flag it has is the merge itself. */
  lemma SettersAlgebra(s: Source, first: bool, f2: bool, combine: bool, c2: bool)
    ensures SetFirstOn(f2, SetFirstOn(first, s)) == SetFirstOn(f2, s)
    ensures SetCombineOn(c2, SetCombineOn(combine, s)) == SetCombineOn(c2, s)
    ensures SetFirstOn(first, SetCombineOn(combine, s)) == SetCombineOn(combine, SetFirstOn(first, s))
    ensures s.Multi? ==> SetFirstOn(s.first, s) == s && SetCombineOn(s.combine, s) == s
  {
  }

  /** With combined containers, the first flag does not change Keys or Len. */
  lemma FirstIrrelevantWhenCombining(s: Source, first: bool, keys: seq<string>)
    requires s.Multi? && s.combine && |s.sources| != 1
    ensures Keys(SetFirstOn(first, s), keys) == Keys(s, keys)
    ensures Len(SetFirstOn(first, s), keys) == Len(s, keys)
  {
  }

  // ---- Mutate (multisource.go:59-72) ----

  /** The merge with the mutation applied to every child; flags and child
      count kept. */
  function MutateMulti(s: Source, m: Mutation): (r: Source)
    requires s.Multi?
    ensures r.Multi? && r.first == s.first && r.combine == s.combine
    ensures |r.sources| == |s.sources| && forall i | 0 <= i < |s.sources| :: r.sources[i] == m(s.sources[i])
  {
    Multi(seq(|s.sources|, i requires 0 <= i < |s.sources| => m(s.sources[i])), s.first, s.combine)
  }

  /** Mutating twice is mutating once with the two mutations in order. */
  lemma MutateMultiThen(s: Source, a: Mutation, b: Mutation)
    requires s.Multi?
    ensures MutateMulti(MutateMulti(s, a), b) == MutateMulti(s, Then(a, b))
  {
    var l := MutateMulti(MutateMulti(s, a), b).sources;
    var r := MutateMulti(s, Then(a, b)).sources;
    assert |l| == |r|;
    forall i | 0 <= i < |l| ensures l[i] == r[i] {
      assert l[i] == b(a(s.sources[i]));
    }
    assert l == r;
  }

  // ---- the loops of the object, one child or one pass at a time ----

  /** The inner loop of multisource.go:167-180: one child along the path,
      updating the shared counters in place. */
  method WalkOne(child: Source, keys: seq<string>, offsets: array<nat>) returns (res: Option<Source>)
    requires offsets.Length == |keys|
    modifies offsets
    ensures (res, offsets[..]) == WalkChild(child, keys, 0, old(offsets[..]))
  {
    ghost var before := offsets[..];
    var cur := child;
    var i := 0;
    while i < |keys|
      invariant 0 <= i <= |keys|
      invariant WalkChild(child, keys, 0, before) == WalkChild(cur, keys, i, offsets[..])
    {
      var next := Sources.Recurse(cur, [keys[i]]);
      if next.None? {
        return None;
      }
      cur := next.value;
      if Type(cur, []) == Slice {
        var length := match Sources.Len(cur, []) case Ok(k) => k case Err(_) => 0;
        if offsets[i] != 0 {
          cur := Offset([offsets[i]], cur);
        }
        offsets[i] := offsets[i] + length;
      }
      i := i + 1;
    }
    return Some(cur);
  }

  /** One turn of the outer loop: child j either joins the survivors or
      is dropped, and the rest of the walk starts from its counters. */
  lemma WalkAllStep(n: seq<Source>, cs: seq<Source>, j: nat, keys: seq<string>,
                    before: seq<nat>, cur: Option<Source>, after: seq<nat>)
    requires j < |cs| && |before| == |keys|
    requires (cur, after) == WalkChild(cs[j], keys, 0, before)
    ensures n + WalkChildren(cs[j..], keys, before) ==
              (if cur.Some? then n + [cur.value] else n) + WalkChildren(cs[j + 1..], keys, after)
  {
    MultiWalk.WalkChildrenCons(cs[j..], keys, before);
    assert cs[j..][0] == cs[j] && cs[j..][1..] == cs[j + 1..];
    ghost var rest := WalkChildren(cs[j + 1..], keys, after);
    if cur.Some? {
      assert n + ([cur.value] + rest) == (n + [cur.value]) + rest;
    } else {
      assert [] + rest == rest;
    }
  }

  /** The outer loop of multisource.go:159-198: every child in turn, with
      the per-depth counters shared between them, keeping the survivors. */
  method WalkAll(cs: seq<Source>, keys: seq<string>) returns (n: seq<Source>)
    ensures n == WalkChildren(cs, keys, Zeros(|keys|))
  {
    n := [];
    var offsets := new nat[|keys|](_ => 0);
    assert offsets[..] == Zeros(|keys|);
    var j := 0;
    while j < |cs|
      invariant 0 <= j <= |cs| && offsets.Length == |keys|
      invariant n + WalkChildren(cs[j..], keys, offsets[..]) == WalkChildren(cs, keys, Zeros(|keys|))
    {
      ghost var before := offsets[..];
      var cur := WalkOne(cs[j], keys, offsets);
      WalkAllStep(n, cs, j, keys, before, cur, offsets[..]);
      if cur.Some? {
        n := n + [cur.value];
      }
      j := j + 1;
    }
    assert cs[|cs|..] == [];
    assert WalkChildren([], keys, offsets[..]) == [] && n + [] == n;
  }

  /** lists in front of the lists r holds, or r's error. */
  function Prepend(lists: seq<seq<string>>, r: Result<seq<seq<string>>>): Result<seq<seq<string>>>
  {
    match r
    case Err(e) => Err(e)
    case Ok(more) => Ok(lists + more)
  }

  lemma PrependThen(lists: seq<seq<string>>, found: seq<string>, r: Result<seq<seq<string>>>)
    ensures Prepend(lists, Prepend([found], r)) == Prepend(lists + [found], r)
  {
    if r.Ok? {
      assert lists + ([found] + r.value) == (lists + [found]) + r.value;
    }
  }

  /** One step of the collecting loop at child i. */
  lemma CollectKeysStep(cs: seq<Source>, keys: seq<string>, i: nat)
    requires i < |cs|
    ensures !Exists(cs[i], keys) ==> CollectKeys(cs, keys, i) == CollectKeys(cs, keys, i + 1)
    ensures Exists(cs[i], keys) && Keys(cs[i], keys).Err? ==>
              CollectKeys(cs, keys, i) == Err(Keys(cs[i], keys).kind)
    ensures Exists(cs[i], keys) && Keys(cs[i], keys).Ok? ==>
              CollectKeys(cs, keys, i) == Prepend([Keys(cs[i], keys).value], CollectKeys(cs, keys, i + 1))
  {
  }

  /** The first loop of multisource.go:280-296: every existing child's
      keys in child order, how many children answered, and the first error. */
  method GatherKeys(cs: seq<Source>, keys: seq<string>)
      returns (results: array<seq<string>>, able: nat, failed: Option<ErrorKind>)
    ensures fresh(results) && results.Length == |cs|
    ensures failed.Some? <==> CollectKeys(cs, keys, 0).Err?
    ensures failed.Some? ==> CollectKeys(cs, keys, 0) == Err(failed.value)
    ensures failed.None? ==>
              && |CollectKeys(cs, keys, 0).value| == able
              && Flatten(results[..]) == Flatten(CollectKeys(cs, keys, 0).value)
  {
    results := new seq<string>[|cs|](_ => []);
    able := 0;
    ghost var lists: seq<seq<string>> := [];
    assert Prepend([], CollectKeys(cs, keys, 0)) == CollectKeys(cs, keys, 0) by {
      assert forall more: seq<seq<string>> :: [] + more == more;
    }
    var i := 0;
    while i < |cs|
      invariant 0 <= i <= |cs| && results.Length == |cs|
      invariant able == |lists|
      invariant Flatten(results[..i]) == Flatten(lists)
      invariant forall j | i <= j < results.Length :: results[j] == []
      invariant CollectKeys(cs, keys, 0) == Prepend(lists, CollectKeys(cs, keys, i))
    {
      CollectKeysStep(cs, keys, i);
      assert results[..i + 1] == results[..i] + [results[i]];
      if !Sources.Exists(cs[i], keys) {
        FlattenSnoc(results[..i], results[i]);
        assert results[i] == [] && Flatten(results[..i]) + [] == Flatten(results[..i]);
        i := i + 1;
        continue;
      }
      var found := Sources.Keys(cs[i], keys);
      if found.Err? {
        return results, able, Some(found.kind);
      }
      results[i] := found.value;
      assert results[..i + 1] == results[..i] + [found.value];
      FlattenSnoc(results[..i], found.value);
      FlattenSnoc(lists, found.value);
      PrependThen(lists, found.value, CollectKeys(cs, keys, i + 1));
      lists := lists + [found.value];
      able := able + 1;
      i := i + 1;
    }
    assert results[..] == results[..|cs|];
    assert lists + [] == lists;
    failed := None;
  }

  /** The de-duplicating pass of multisource.go:297-307 with its seen set. */
  method UnionOf(results: array<seq<string>>) returns (combined: seq<string>)
    ensures combined == Dedup(Flatten(results[..]))
  {
    combined := [];
    var seen: set<string> := {};
    var p := 0;
    while p < results.Length
      invariant 0 <= p <= results.Length
      invariant combined == Dedup(Flatten(results[..p]))
      invariant forall x :: x in seen <==> x in combined
    {
      var res := results[p];
      var q := 0;
      assert res[..0] == [] && Flatten(results[..p]) + [] == Flatten(results[..p]);
      while q < |res|
        invariant 0 <= q <= |res|
        invariant combined == Dedup(Flatten(results[..p]) + res[..q])
        invariant forall x :: x in seen <==> x in combined
      {
        var key := res[q];
        DedupSnoc(Flatten(results[..p]) + res[..q], key);
        assert res[..q + 1] == res[..q] + [key];
        assert Flatten(results[..p]) + res[..q + 1] == (Flatten(results[..p]) + res[..q]) + [key];
        if key !in seen {
          seen := seen + {key};
          combined := combined + [key];
        }
        q := q + 1;
      }
      assert results[..p + 1] == results[..p] + [res];
      FlattenSnoc(results[..p], res);
      assert res[..q] == res;
      p := p + 1;
    }
    assert results[..p] == results[..];
  }

  // ---- the object ----

  /** A merge whose child list can be extended in place. */
  class MultiSource {
    var sources: seq<Source>
    var first: bool
    var combine: bool

    /** The merge this object currently is. */
    function View(): Source
      reads this
    {
      Multi(sources, first, combine)
    }

    /** NewMultiSource over source values (multisource.go:35-57). */
    constructor (args: seq<Source>)
      ensures View() == NewMultiSource(args)
    {
      var r := NewMultiSource(args);
      sources := r.sources;
      first := r.first;
      combine := r.combine;
    }

    /** multisource.go:17-29: a new object with the same flags and its own
      copy of the child list. */
    method Copy() returns (c: MultiSource)
      ensures fresh(c) && c.View() == View()
    {
      c := new MultiSource([]);
      c.sources := sources;
      c.first := first;
      c.combine := combine;
    }

    /** NewMultiSource with an existing object as first argument
        (multisource.go:43-47): a copy with the rest appended. The original
        object is not modified. */
    static method FromExisting(m: MultiSource, rest: seq<Source>) returns (n: MultiSource)
      ensures fresh(n) && n.View() == NewMultiSource([m.View()] + rest)
    {
      n := m.Copy();
      n.sources := n.sources + rest;
      assert ([m.View()] + rest)[1..] == rest;
    }

    /** multisource.go:146-148: one more child, at the end. */
    method AddSource(s: Source)
      modifies this
      ensures sources == old(sources) + [s]
      ensures first == old(first) && combine == old(combine)
    {
      sources := sources + [s];
    }

    /** multisource.go:59-72: a new object over freshly filled children. */
    method Mutate(m: Mutation) returns (n: MultiSource)
      ensures fresh(n) && n.View() == MutateMulti(View(), m)
    {
      var a := new Source[|sources|](i requires 0 <= i < |sources| reads this => sources[i]);
      var i := 0;
      while i < |sources|
        invariant 0 <= i <= |sources| && a.Length == |sources|
        invariant forall j | 0 <= j < i :: a[j] == m(sources[j])
      {
        a[i] := m(sources[i]);
        i := i + 1;
      }
      n := new MultiSource([]);
      n.sources := a[..];
      n.first := first;
      n.combine := combine;
    }

    /** multisource.go:150-198: walk every child one key at a time with
        shared per-depth counters, shifting and counting sequences and
        dropping the children that reach nil. */
    method Recurse(keys: seq<string>) returns (r: Option<Source>)
      ensures r == Sources.Recurse(View(), keys)
    {
      if |keys| == 0 {
        return Some(View());
      }
      var n := WalkAll(sources, keys);
      if |n| == 0 {
        return None;
      }
      return Some(Multi(n, first, combine));
    }

    /** multisource.go:201-227: the authoritative child for a path. */
    method Find(keys: seq<string>) returns (r: Option<Source>)
      ensures r == Sources.Find(sources, first, keys)
    {
      var m := Recurse(keys);
      if m.None? {
        return None;
      }
      var kept := m.value.sources;
      if |kept| == 0 {
        return None;
      }
      if |kept| == 1 {
        return Some(kept[0]);
      }
      if first {
        var i := 0;
        while i < |kept|
          invariant 0 <= i <= |kept|
          invariant ScanForward(kept, 0) == ScanForward(kept, i)
        {
          if Sources.Exists(kept[i], []) {
            return Some(kept[i]);
          }
          i := i + 1;
        }
      } else {
        var i := |kept| - 1;
        while i >= 0
          invariant -1 <= i < |kept|
          invariant ScanBackward(kept, |kept|) == ScanBackward(kept, i + 1)
        {
          if Sources.Exists(kept[i], []) {
            return Some(kept[i]);
          }
          i := i - 1;
        }
      }
      return None;
    }

    /** multisource.go:229-232. */
    method Exists(keys: seq<string>) returns (b: bool)
      ensures b == Sources.Exists(View(), keys)
    {
      var found := Find(keys);
      b := found.Some?;
    }

    /** multisource.go:269-309: straight through with one child, the
        authoritative child's keys without combining, and otherwise the
        union of the existing children's keys, each key once in first-seen
        order. */
    method Keys(keys: seq<string>) returns (r: Result<seq<string>>)
      ensures r == Sources.Keys(View(), keys)
    {
      if |sources| == 1 {
        return Sources.Keys(sources[0], keys);
      }
      if !combine {
        var found := Find(keys);
        if found.Some? {
          return Sources.Keys(found.value, []);
        }
        return Err(DoesNotExist);
      }
      var results, able, failed := GatherKeys(sources, keys);
      if failed.Some? {
        return Err(failed.value);
      }
      if able == 0 {
        return Err(DoesNotExist);
      }
      var combined := UnionOf(results);
      return Ok(combined);
    }

    /** multisource.go:311-338: the same dispatch as Keys, summing the
        existing children's lengths when combining. */
    method Len(keys: seq<string>) returns (r: Result<nat>)
      ensures r == Sources.Len(View(), keys)
    {
      if |sources| == 1 {
        return Sources.Len(sources[0], keys);
      }
      if !combine {
        var found := Find(keys);
        if found.Some? {
          return Sources.Len(found.value, []);
        }
        return Err(DoesNotExist);
      }
      var able := 0;
      var total := 0;
      ghost var lens: seq<nat> := [];
      assert forall more: seq<nat> :: [] + more == more;
      var i := 0;
      while i < |sources|
        invariant 0 <= i <= |sources|
        invariant able == |lens| && total == Sum(lens)
        invariant CollectLens(sources, keys, 0) ==
                    match CollectLens(sources, keys, i)
                    case Err(e) => Err(e)
                    case Ok(more) => Ok(lens + more)
      {
        if !Sources.Exists(sources[i], keys) {
          i := i + 1;
          continue;
        }
        var l := Sources.Len(sources[i], keys);
        if l.Err? {
          return Err(l.kind);
        }
        SumAppend(lens, [l.value]);
        assert forall more: seq<nat> :: (lens + [l.value]) + more == lens + ([l.value] + more);
        total := total + l.value;
        lens := lens + [l.value];
        able := able + 1;
        i := i + 1;
      }
      if able == 0 {
        return Err(DoesNotExist);
      }
      assert lens + [] == lens;
      return Ok(total);
    }
  }
}
