/** The key rewriting of the offset view (offset.go:28-42): at every depth
    with a nonzero shift d, the key must be an integer k and becomes the
    rendering of k - d; keys at depths with no shift pass through. */
module Offsets {
  import opened Base
  import opened Decimal

  /** The shift that applies at depth i. A depth beyond the configured list
      has no shift (see OffsetAt in README's findings). */
  function OffsetAt(offsets: seq<int>, i: nat): int
  {
    if i < |offsets| then offsets[i] else 0
  }

  /** One key under one shift. */
  function ShiftKey(d: int, key: string): (r: Result<string>)
    ensures r.Err? ==> r.kind == BadKey
  {
    if d == 0 then Ok(key)
    else match Atoi(key)
      case None => Err(BadKey)
      case Some(k) => Ok(Itoa(k - d))
  }

  /** The whole path under the shift list: it fails as soon as one key at a
      shifted depth is not an integer. */
  function Transform(offsets: seq<int>, keys: seq<string>): (r: Result<seq<string>>)
  {
    if forall i | 0 <= i < |keys| :: ShiftKey(OffsetAt(offsets, i), keys[i]).Ok? then
      Ok(seq(|keys|, i requires 0 <= i < |keys| => ShiftKey(OffsetAt(offsets, i), keys[i]).value))
    else Err(BadKey)
  }

  /** Transform succeeds with out when every key shifts to the matching
      element of out. */
  lemma TransformOk(offsets: seq<int>, keys: seq<string>, out: seq<string>)
    requires |out| == |keys|
    requires forall i | 0 <= i < |keys| :: ShiftKey(OffsetAt(offsets, i), keys[i]) == Ok(out[i])
    ensures Transform(offsets, keys) == Ok(out)
  {
    var t := seq(|keys|, i requires 0 <= i < |keys| => ShiftKey(OffsetAt(offsets, i), keys[i]).value);
    assert t == out;
  }

  /** The loop of offset.go:28-42, filling the output index by index. */
  method TransformKeys(offsets: seq<int>, keys: seq<string>) returns (r: Result<seq<string>>)
    ensures r == Transform(offsets, keys)
  {
    var n := new string[|keys|];
    var i := 0;
    while i < |keys|
      invariant 0 <= i <= |keys|
      invariant forall j | 0 <= j < i :: ShiftKey(OffsetAt(offsets, j), keys[j]) == Ok(n[j])
    {
      var d := OffsetAt(offsets, i);
      if d == 0 {
        n[i] := keys[i];
      } else {
        var k := Atoi(keys[i]);
        if k.None? {
          assert ShiftKey(d, keys[i]).Err?;
          return Err(BadKey);
        }
        n[i] := Itoa(k.value - d);
      }
      assert ShiftKey(d, keys[i]) == Ok(n[i]);
      i := i + 1;
    }
    TransformOk(offsets, keys, n[..]);
    r := Ok(n[..]);
  }

  // ---- properties of the transform ----

  /** A successful transform keeps the path's length, passes keys at
      unshifted depths through, and renders k - d at shifted ones. */
  lemma TransformShape(offsets: seq<int>, keys: seq<string>)
    requires Transform(offsets, keys).Ok?
    ensures |Transform(offsets, keys).value| == |keys|
    ensures forall i | 0 <= i < |keys| && OffsetAt(offsets, i) == 0 ::
              Transform(offsets, keys).value[i] == keys[i]
    ensures forall i | 0 <= i < |keys| && OffsetAt(offsets, i) != 0 ::
              Atoi(keys[i]).Some? &&
              Transform(offsets, keys).value[i] == Itoa(Atoi(keys[i]).value - OffsetAt(offsets, i))
  {
    forall i | 0 <= i < |keys| && OffsetAt(offsets, i) != 0
      ensures Atoi(keys[i]).Some?
    {
      assert ShiftKey(OffsetAt(offsets, i), keys[i]).Ok?;
    }
  }

  /** The transform fails exactly when some shifted key is not an integer,
      and then with BadKey. */
  lemma TransformFails(offsets: seq<int>, keys: seq<string>)
    ensures Transform(offsets, keys).Err? <==>
              exists i | 0 <= i < |keys| :: OffsetAt(offsets, i) != 0 && Atoi(keys[i]).None?
    ensures Transform(offsets, keys).Err? ==> Transform(offsets, keys).kind == BadKey
  {
    if Transform(offsets, keys).Err? {
      var i :| 0 <= i < |keys| && !ShiftKey(OffsetAt(offsets, i), keys[i]).Ok?;
      assert OffsetAt(offsets, i) != 0 && Atoi(keys[i]).None?;
    }
  }

  predicate AllZero(offsets: seq<int>)
  {
    forall i | 0 <= i < |offsets| :: offsets[i] == 0
  }

  /** An all-zero shift list rewrites nothing. */
  lemma ZeroTransformIsIdentity(offsets: seq<int>, keys: seq<string>)
    requires AllZero(offsets)
    ensures Transform(offsets, keys) == Ok(keys)
  {
    assert forall i | 0 <= i < |keys| :: OffsetAt(offsets, i) == 0;
    TransformOk(offsets, keys, keys);
  }

  /** Shifting the rendering of i + d by d gives the rendering of i. */
  lemma ShiftRendered(d: int, i: int)
    requires MinInt64 <= i + d <= MaxInt64
    ensures ShiftKey(d, Itoa(i + d)) == Ok(Itoa(i))
  {
    AtoiItoa(i + d);
  }

  /** A one-depth shift d turns the key for i + d into the key for i and
      leaves the rest of the path alone. */
  lemma TransformSingleShift(d: int, i: int, rest: seq<string>)
    requires MinInt64 <= i + d <= MaxInt64
    ensures Transform([d], [Itoa(i + d)] + rest) == Ok([Itoa(i)] + rest)
  {
    var keys := [Itoa(i + d)] + rest;
    ShiftRendered(d, i);
    assert forall j | 1 <= j < |keys| :: OffsetAt([d], j) == 0 && keys[j] == rest[j - 1];
    TransformOk([d], keys, [Itoa(i)] + rest);
  }

  /** The shift list left for the rest of a path once n keys are consumed. */
  function Drop(offsets: seq<int>, n: nat): (r: seq<int>)
    ensures forall i: nat :: OffsetAt(r, i) == OffsetAt(offsets, n + i)
  {
    if n <= |offsets| then offsets[n..] else []
  }

  lemma TransformElements(offsets: seq<int>, keys: seq<string>)
    requires Transform(offsets, keys).Ok?
    ensures |Transform(offsets, keys).value| == |keys|
    ensures forall i | 0 <= i < |keys| ::
              ShiftKey(OffsetAt(offsets, i), keys[i]) == Ok(Transform(offsets, keys).value[i])
  {
  }

  /** Transforming a path in two parts: the first part under the shift
      list, the second under what is left of it. */
  lemma TransformSplit(offsets: seq<int>, a: seq<string>, b: seq<string>)
    ensures Transform(offsets, a + b) ==
              match (Transform(offsets, a), Transform(Drop(offsets, |a|), b))
              case (Ok(x), Ok(y)) => Ok(x + y)
              case _ => Err(BadKey)
  {
    var keys := a + b;
    var rest := Drop(offsets, |a|);
    assert forall i | 0 <= i < |a| :: keys[i] == a[i];
    assert forall i | 0 <= i < |b| :: keys[|a| + i] == b[i] && OffsetAt(rest, i) == OffsetAt(offsets, |a| + i);
    if Transform(offsets, a).Ok? && Transform(rest, b).Ok? {
      var x := Transform(offsets, a).value;
      var y := Transform(rest, b).value;
      TransformElements(offsets, a);
      TransformElements(rest, b);
      forall i | 0 <= i < |keys|
        ensures ShiftKey(OffsetAt(offsets, i), keys[i]) == Ok((x + y)[i])
      {
        if i >= |a| {
          assert ShiftKey(OffsetAt(rest, i - |a|), b[i - |a|]) == Ok(y[i - |a|]);
        }
      }
      TransformOk(offsets, keys, x + y);
    } else if Transform(offsets, a).Err? {
      TransformFails(offsets, a);
      var i :| 0 <= i < |a| && OffsetAt(offsets, i) != 0 && Atoi(a[i]).None?;
      assert !ShiftKey(OffsetAt(offsets, i), keys[i]).Ok?;
    } else {
      TransformFails(rest, b);
      var i :| 0 <= i < |b| && OffsetAt(rest, i) != 0 && Atoi(b[i]).None?;
      assert !ShiftKey(OffsetAt(offsets, |a| + i), keys[|a| + i]).Ok?;
    }
  }

  // ---- the transform as written in offset.go ----

  /** The outcome of running the Go loop: a result, or a run-time panic. */
  datatype Outcome<+T> = Done(result: T) | Panicked

  /** offset.go:28-42 exactly: offsets[i] is read for EVERY key, so a path
      longer than the shift list indexes past its end, unless a bad key
      stops the loop first. */
  function TransformAsWritten(offsets: seq<int>, keys: seq<string>): Outcome<Result<seq<string>>>
  {
    StepAsWritten(offsets, keys, 0, [])
  }

  function StepAsWritten(offsets: seq<int>, keys: seq<string>, i: nat, n: seq<string>)
    : Outcome<Result<seq<string>>>
    requires i <= |keys|
    decreases |keys| - i
  {
    if i == |keys| then Done(Ok(n))
    else if i >= |offsets| then Panicked
    else if offsets[i] == 0 then StepAsWritten(offsets, keys, i + 1, n + [keys[i]])
    else match Atoi(keys[i])
      case None => Done(Err(BadKey))
      case Some(k) => StepAsWritten(offsets, keys, i + 1, n + [Itoa(k - offsets[i])])
  }

  lemma {:induction false} StepAsWrittenAgrees(offsets: seq<int>, keys: seq<string>, i: nat, n: seq<string>)
    requires i <= |keys| && |n| == i
    requires forall j | 0 <= j < i :: ShiftKey(OffsetAt(offsets, j), keys[j]) == Ok(n[j])
    ensures StepAsWritten(offsets, keys, i, n) != Panicked ==>
              StepAsWritten(offsets, keys, i, n) == Done(Transform(offsets, keys))
    ensures |keys| <= |offsets| ==> StepAsWritten(offsets, keys, i, n) != Panicked
    decreases |keys| - i
  {
    if i == |keys| {
      TransformOk(offsets, keys, n);
    } else if i < |offsets| {
      var s := ShiftKey(offsets[i], keys[i]);
      if s.Ok? {
        StepAsWrittenAgrees(offsets, keys, i + 1, n + [s.value]);
      } else {
        TransformFails(offsets, keys);
      }
    }
  }

  /** Wherever the Go loop does not panic (in particular whenever the path is
      no longer than the shift list) it computes Transform. */
  lemma TransformAsWrittenAgrees(offsets: seq<int>, keys: seq<string>)
    ensures TransformAsWritten(offsets, keys) != Panicked ==>
              TransformAsWritten(offsets, keys) == Done(Transform(offsets, keys))
    ensures |keys| <= |offsets| ==> TransformAsWritten(offsets, keys) != Panicked
  {
    StepAsWrittenAgrees(offsets, keys, 0, []);
  }

  /** The counterexample: the stitched view built by the merge engine wraps
      a child in a one-element shift list; a two-key path reaching it (as
      Keys and Len with combine=true do) panics in the Go loop, whereas the
      corrected transform shifts the first key and passes the second one. */
  lemma TransformAsWrittenPanics()
    ensures TransformAsWritten([3], ["4", "x"]) == Panicked
    ensures Transform([3], ["4", "x"]) == Ok(["1", "x"])
  {
    assert DigitChar(4) == '4' && DigitChar(1) == '1';
    assert Itoa(4) == "4";
    assert Itoa(1) == "1";
    TransformSingleShift(3, 1, ["x"]);
    assert [Itoa(1 + 3)] + ["x"] == ["4", "x"];
    assert [Itoa(1)] + ["x"] == ["1", "x"];
    assert StepAsWritten([3], ["4", "x"], 0, []) == StepAsWritten([3], ["4", "x"], 1, ["1"]);
  }
}
