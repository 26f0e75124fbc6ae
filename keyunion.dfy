/** The list arithmetic the merge engine applies to its children's answers:
    the first-seen-order union of key lists (multisource.go, Keys) and the
    plain sum of lengths (multisource.go, Len). */
module KeyUnion {

  function Flatten<T>(lists: seq<seq<T>>): (r: seq<T>)
    decreases |lists|
  {
    if lists == [] then [] else lists[0] + Flatten(lists[1..])
  }

  function Sum(ns: seq<nat>): nat
    decreases |ns|
  {
    if ns == [] then 0 else ns[0] + Sum(ns[1..])
  }

  predicate NoDuplicates<T(==)>(xs: seq<T>)
  {
    forall i, j | 0 <= i < j < |xs| :: xs[i] != xs[j]
  }

  /** The position of the first occurrence of x in xs. */
  function FirstIndex<T(==)>(xs: seq<T>, x: T): (k: nat)
    requires x in xs
    ensures k < |xs| && xs[k] == x
    ensures forall j | 0 <= j < k :: xs[j] != x
    decreases |xs|
  {
    if xs[0] == x then 0 else 1 + FirstIndex(xs[1..], x)
  }

  /** Keep each element the first time it is seen, in order: the loop over
      results with its seen set at multisource.go:297-307. */
  function Dedup<T(==)>(xs: seq<T>): seq<T>
    decreases |xs|
  {
    if xs == [] then []
    else
      var d := Dedup(xs[..|xs| - 1]);
      if xs[|xs| - 1] in d then d else d + [xs[|xs| - 1]]
  }

  /** The de-duplicated union of several key lists in first-seen order. */
  function Union<T(==)>(lists: seq<seq<T>>): seq<T>
  {
    Dedup(Flatten(lists))
  }

  lemma FirstIndexOfPrefix<T>(xs: seq<T>, x: T, y: T)
    requires y in xs
    ensures y in xs + [x] && FirstIndex(xs + [x], y) == FirstIndex(xs, y)
  {
    var k := FirstIndex(xs, y);
    var k' := FirstIndex(xs + [x], y);
    assert (xs + [x])[k] == y;
  }

  /** Dedup keeps exactly the elements of its input, each once, ordered by
      where they first occur. */
  lemma {:induction false} DedupSpec<T>(xs: seq<T>)
    ensures NoDuplicates(Dedup(xs))
    ensures forall x :: x in Dedup(xs) ==> x in xs
    ensures forall x :: x in xs ==> x in Dedup(xs)
    ensures forall i, j | 0 <= i < j < |Dedup(xs)| ::
              Dedup(xs)[i] in xs && Dedup(xs)[j] in xs &&
              FirstIndex(xs, Dedup(xs)[i]) < FirstIndex(xs, Dedup(xs)[j])
    decreases |xs|
  {
    if xs != [] {
      var init := xs[..|xs| - 1];
      var x := xs[|xs| - 1];
      assert xs == init + [x];
      DedupSpec(init);
      var d := Dedup(init);
      forall y | y in init ensures FirstIndex(xs, y) == FirstIndex(init, y) {
        FirstIndexOfPrefix(init, x, y);
      }
      if x in d {
        forall i, j | 0 <= i < j < |d|
          ensures d[i] in xs && d[j] in xs && FirstIndex(xs, d[i]) < FirstIndex(xs, d[j])
        {
          assert d[i] in d && d[j] in d;
        }
      } else {
        var r := d + [x];
        assert x !in init;
        assert forall y | y in d :: y in init;
        assert FirstIndex(xs, x) == |init| by {
          assert xs[|init|] == x;
        }
        forall i, j | 0 <= i < j < |r|
          ensures r[i] in xs && r[j] in xs && FirstIndex(xs, r[i]) < FirstIndex(xs, r[j])
        {
          assert i < |d| && r[i] == d[i] && d[i] in d;
          if j < |d| {
            assert r[j] == d[j] && d[j] in d && d[j] in init;
          } else {
            assert r[j] == x;
          }
        }
      }
    }
  }

  /** Flattening distributes over concatenation of the list of lists. */
  lemma {:induction false} FlattenAppend<T>(a: seq<seq<T>>, b: seq<seq<T>>)
    ensures Flatten(a + b) == Flatten(a) + Flatten(b)
    decreases |a|
  {
    if a == [] {
      assert a + b == b;
    } else {
      assert (a + b)[1..] == a[1..] + b;
      FlattenAppend(a[1..], b);
    }
  }

  /** An element is in the flattening exactly when it is in one of the lists. */
  lemma {:induction false} InFlatten<T>(lists: seq<seq<T>>, x: T)
    ensures x in Flatten(lists) <==> exists l | 0 <= l < |lists| :: x in lists[l]
    decreases |lists|
  {
    if lists != [] {
      InFlatten(lists[1..], x);
      if exists l | 0 <= l < |lists[1..]| :: x in lists[1..][l] {
        var l :| 0 <= l < |lists[1..]| && x in lists[1..][l];
        assert lists[l + 1] == lists[1..][l];
      }
      if exists l | 0 <= l < |lists| :: x in lists[l] {
        var l :| 0 <= l < |lists| && x in lists[l];
        if l > 0 { assert lists[1..][l - 1] == lists[l]; }
      }
    }
  }

  /** The union holds each key of each list exactly once. */
  lemma UnionSpec<T>(lists: seq<seq<T>>)
    ensures NoDuplicates(Union(lists))
    ensures forall x :: x in Union(lists) <==> exists l | 0 <= l < |lists| :: x in lists[l]
  {
    DedupSpec(Flatten(lists));
    forall x ensures x in Flatten(lists) <==> exists l | 0 <= l < |lists| :: x in lists[l] {
      InFlatten(lists, x);
    }
  }

  lemma {:induction false} SumAppend(a: seq<nat>, b: seq<nat>)
    ensures Sum(a + b) == Sum(a) + Sum(b)
    decreases |a|
  {
    if a == [] {
      assert a + b == b;
    } else {
      assert (a + b)[1..] == a[1..] + b;
      SumAppend(a[1..], b);
    }
  }

  /** Dedup grows one element at a time: the seen-set step of the loop. */
  lemma DedupSnoc<T>(xs: seq<T>, x: T)
    ensures Dedup(xs + [x]) == if x in Dedup(xs) then Dedup(xs) else Dedup(xs) + [x]
  {
    assert (xs + [x])[..|xs + [x]| - 1] == xs;
  }

  lemma FlattenSnoc<T>(lists: seq<seq<T>>, l: seq<T>)
    ensures Flatten(lists + [l]) == Flatten(lists) + l
  {
    FlattenAppend(lists, [l]);
    assert [l][1..] == [];
    assert Flatten([l]) == l + Flatten([l][1..]);
    assert l + [] == l;
  }
}
