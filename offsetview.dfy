/** Properties of the offset view (offset.go): a per-depth shift of integer
    keys in front of a wrapped source, and the as-written Recurse. */
module OffsetView {
  import opened Base
  import opened Decimal
  import opened Leaves
  import opened Offsets
  import opened Sources

  /** The source left by an empty-path Recurse: shift lists that are empty
      shift nothing and disappear, every other view is returned as is. */
  function Settled(s: Source): Source
  {
    match s
    case Offset(offs, src) => if offs == [] then Settled(src) else Offset(offs, Settled(src))
    case _ => s
  }

  /** An empty-path Recurse gives every view back (offset.go:90-97 re-wraps
      with the same offsets), except that an empty shift list is dropped. */
  lemma {:induction false} RecurseEmptyPath(s: Source)
    ensures Recurse(s, []) == Some(Settled(s))
    ensures !s.Offset? ==> Recurse(s, []) == Some(s)
    decreases s
  {
    if s.Offset? {
      TransformOk(s.offsets, [], []);
      RecurseEmptyPath(s.src);
    }
  }

  /** A key that is not an integer at a shifted depth: Exists is false, the
      getters, Keys and Len fail with BadKey, Type is Undefined and Recurse
      is None (offset.go:35-38, 44-50, 52-58, 84-89, 100-104, 120-125). */
  lemma OffsetBadKey(offs: seq<int>, s: Source, keys: seq<string>, i: nat, want: NodeType)
    requires i < |keys| && OffsetAt(offs, i) != 0 && Atoi(keys[i]).None?
    ensures !Exists(Offset(offs, s), keys)
    ensures Get(Offset(offs, s), keys, want) == Err(BadKey)
    ensures Keys(Offset(offs, s), keys) == Err(BadKey)
    ensures Len(Offset(offs, s), keys) == Err(BadKey)
    ensures Type(Offset(offs, s), keys) == Undefined
    ensures Recurse(Offset(offs, s), keys) == None
  {
    TransformFails(offs, keys);
  }

  /** An all-zero shift list is invisible to every accessor. */
  lemma ZeroOffsetIsTransparent(offs: seq<int>, s: Source, keys: seq<string>, want: NodeType)
    requires AllZero(offs)
    ensures Exists(Offset(offs, s), keys) == Exists(s, keys)
    ensures Get(Offset(offs, s), keys, want) == Get(s, keys, want)
    ensures Keys(Offset(offs, s), keys) == Keys(s, keys)
    ensures Len(Offset(offs, s), keys) == Len(s, keys)
    ensures Type(Offset(offs, s), keys) == Type(s, keys)
    ensures |offs| <= |keys| ==> Recurse(Offset(offs, s), keys) == Recurse(s, keys)
  {
    ZeroTransformIsIdentity(offs, keys);
  }

  /** The shift round trip (offset.go:39): under a one-depth shift d the key
      for i + d reaches what the key for i reaches in the wrapped source,
      through every accessor, the rest of the path unchanged. */
  lemma OffsetShift(d: int, s: Source, i: int, rest: seq<string>, want: NodeType)
    requires MinInt64 <= i + d <= MaxInt64
    ensures Exists(Offset([d], s), [Itoa(i + d)] + rest) == Exists(s, [Itoa(i)] + rest)
    ensures Get(Offset([d], s), [Itoa(i + d)] + rest, want) == Get(s, [Itoa(i)] + rest, want)
    ensures Keys(Offset([d], s), [Itoa(i + d)] + rest) == Keys(s, [Itoa(i)] + rest)
    ensures Len(Offset([d], s), [Itoa(i + d)] + rest) == Len(s, [Itoa(i)] + rest)
    ensures Type(Offset([d], s), [Itoa(i + d)] + rest) == Type(s, [Itoa(i)] + rest)
    ensures Recurse(Offset([d], s), [Itoa(i + d)] + rest) == Recurse(s, [Itoa(i)] + rest)
  {
    TransformSingleShift(d, i, rest);
  }

  /** Two shifted documents whose transformed paths fail together, or reach
      the same node, answer every query alike. */
  lemma SameLeafTarget(o1: seq<int>, u1: Value, k1: seq<string>,
                       o2: seq<int>, u2: Value, k2: seq<string>, want: NodeType)
    requires Transform(o1, k1).Err? == Transform(o2, k2).Err?
    requires Transform(o1, k1).Ok? ==>
               Navigate(u1, Transform(o1, k1).value) == Navigate(u2, Transform(o2, k2).value)
    ensures Exists(Offset(o1, Leaf(u1)), k1) == Exists(Offset(o2, Leaf(u2)), k2)
    ensures Get(Offset(o1, Leaf(u1)), k1, want) == Get(Offset(o2, Leaf(u2)), k2, want)
    ensures Type(Offset(o1, Leaf(u1)), k1) == Type(Offset(o2, Leaf(u2)), k2)
    ensures Keys(Offset(o1, Leaf(u1)), k1) == Keys(Offset(o2, Leaf(u2)), k2)
    ensures Len(Offset(o1, Leaf(u1)), k1) == Len(Offset(o2, Leaf(u2)), k2)
  {
  }

  /** Recurse carries the unconsumed tail of the shift list (offset.go:90-97):
      over a document, querying the view Recurse returns with a further path
      is querying the original view with the whole path. */
  lemma OffsetRecurseThenQuery(offs: seq<int>, v: Value, a: seq<string>, b: seq<string>, want: NodeType)
    requires Recurse(Offset(offs, Leaf(v)), a).Some?
    ensures var y := Recurse(Offset(offs, Leaf(v)), a).value;
            && Exists(y, b) == Exists(Offset(offs, Leaf(v)), a + b)
            && Get(y, b, want) == Get(Offset(offs, Leaf(v)), a + b, want)
            && Type(y, b) == Type(Offset(offs, Leaf(v)), a + b)
            && Keys(y, b) == Keys(Offset(offs, Leaf(v)), a + b)
            && Len(y, b) == Len(Offset(offs, Leaf(v)), a + b)
  {
    var ta := Transform(offs, a).value;
    var w := Navigate(v, ta).value;
    var rest := Drop(offs, |a|);
    TransformSplit(offs, a, b);
    if Transform(rest, b).Ok? {
      NavigateAppend(v, ta, Transform(rest, b).value);
    }
    SameLeafTarget(rest, w, b, offs, v, a + b, want);
    if |offs| <= |a| {
      assert rest == [];
      assert Recurse(Offset(offs, Leaf(v)), a).value == Leaf(w);
      ZeroOffsetIsTransparent([], Leaf(w), b, want);
    } else {
      assert Recurse(Offset(offs, Leaf(v)), a).value == Offset(rest, Leaf(w));
    }
  }

  // ---- Recurse as written in offset.go ----

  /** offset.go:84-98 exactly: the transform may panic (see
      TransformAsWritten), and when offsets remain the debug call's type
      assertion n.(offset) runs even in release builds, so a child Recurse
      that yields nil panics instead of returning nil. */
  function OffsetRecurseAsWritten(offs: seq<int>, src: Source, keys: seq<string>): Outcome<Option<Source>>
  {
    match TransformAsWritten(offs, keys)
    case Panicked => Panicked
    case Done(Err(_)) => Done(None)
    case Done(Ok(tk)) =>
      var r := Recurse(src, tk);
      if |offs| <= |keys| then Done(r)
      else if r.None? then Panicked
      else Done(WithOffset(r, offs[|keys|..]))
  }

  /** Wherever the Go code does not panic it computes the modelled Recurse. */
  lemma OffsetRecurseAsWrittenAgrees(offs: seq<int>, src: Source, keys: seq<string>)
    ensures OffsetRecurseAsWritten(offs, src, keys) != Panicked ==>
              OffsetRecurseAsWritten(offs, src, keys) == Done(Recurse(Offset(offs, src), keys))
    ensures (|keys| <= |offs| && Recurse(Offset(offs, src), keys).Some?) ==>
              OffsetRecurseAsWritten(offs, src, keys) != Panicked
  {
    TransformAsWrittenAgrees(offs, keys);
  }

  /** The counterexample: a two-depth shift over a one-element sequence and
      an out-of-range index. The child yields nil while one offset remains;
      the Go code panics where the modelled Recurse reports None. */
  lemma OffsetRecurseAsWrittenPanics()
    ensures OffsetRecurseAsWritten([1, 0], Leaf(SeqValue([StringValue("a")])), ["5"]) == Panicked
    ensures Recurse(Offset([1, 0], Leaf(SeqValue([StringValue("a")]))), ["5"]) == None
  {
    var leaf := Leaf(SeqValue([StringValue("a")]));
    assert DigitChar(5) == '5' && DigitChar(4) == '4';
    assert Itoa(5) == "5" && Itoa(4) == "4";
    AtoiItoa(5);
    AtoiItoa(4);
    assert ShiftKey(OffsetAt([1, 0], 0), "5") == Ok("4");
    TransformOk([1, 0], ["5"], ["4"]);
    assert Navigate(SeqValue([StringValue("a")]), ["4"]) == None;
    assert Atoi("5") == Some(5);
    assert [] + [Itoa(5 - 1)] == ["4"];
    assert StepAsWritten([1, 0], ["5"], 0, []) == StepAsWritten([1, 0], ["5"], 1, ["4"]);
    assert TransformAsWritten([1, 0], ["5"]) == Done(Ok(["4"]));
  }
}
