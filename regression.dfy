/** The repository's own test scenarios (regression_test.go, offset_test.go)
    over stand-in documents: one whose QQ is the sequence a, b, c and one
    whose QQ is d, e, f. */
module Regression {
  import opened Base
  import opened Decimal
  import opened Leaves
  import opened Offsets
  import opened KeyUnion
  import opened Sources
  import opened OffsetView
  import opened Mutations
  import opened MultiWalk
  import opened MultiSources

  const QQ1: seq<Value> := [StringValue("a"), StringValue("b"), StringValue("c")]
  const QQ2: seq<Value> := [StringValue("d"), StringValue("e"), StringValue("f")]

  /** A document whose field QQ holds the sequence items. */
  function Doc(items: seq<Value>): Source
  {
    Leaf(MapValue([("QQ", SeqValue(items))]))
  }

  lemma DocQQ(items: seq<Value>)
    ensures Recurse(Doc(items), ["QQ"]) == Some(Leaf(SeqValue(items)))
    ensures Recurse(Doc(items), ["foo"]) == None
  {
    assert ["QQ"][1..] == [] && ["foo"][1..] == [];
  }

  /** The merge regression_test.go:23 reaches: the second QQ shifted by 3. */
  function Merged(): Source
  {
    Multi(Stitched([QQ1, QQ2], 0), true, true)
  }

  /** regression_test.go:14-20: each document's QQ is a sequence of
      length 3, asked directly or after recursing into it. */
  lemma Regression01Docs(items: seq<Value>)
    requires |items| == 3
    ensures Type(Recurse(Doc(items), ["QQ"]).value, []) == Slice
    ensures Len(Doc(items), ["QQ"]) == Ok(3)
    ensures Len(Recurse(Doc(items), ["QQ"]).value, []) == Ok(3)
  {
    DocQQ(items);
  }

  /** regression_test.go:17-22: combining with nothing gives the document
      itself, and two documents give a merge of both with both flags on. */
  lemma Regression01Combine()
    ensures CombineSources([None, Some(Doc(QQ1))]) == Some(Doc(QQ1))
    ensures CombineSources([Some(Doc(QQ1)), Some(Doc(QQ2))]) == Some(Multi([Doc(QQ1), Doc(QQ2)], true, true))
  {
    assert [None, Some(Doc(QQ1))][1..] == [Some(Doc(QQ1))];
    assert [Some(Doc(QQ1)), Some(Doc(QQ2))][1..] == [Some(Doc(QQ2))];
    assert [Some(Doc(QQ1))][1..] == [] && [Some(Doc(QQ2))][1..] == [];
    assert Present([None, Some(Doc(QQ1))]) == [Doc(QQ1)];
    assert Present([Some(Doc(QQ1)), Some(Doc(QQ2))]) == [Doc(QQ1), Doc(QQ2)];
  }

  /** regression_test.go:23-26: recursing into QQ stitches the two
      sequences, the second one shifted by the first one's length, and
      setting first and combine to what they are changes nothing. */
  lemma Regression01Stitch()
    ensures Recurse(Multi([Doc(QQ1), Doc(QQ2)], true, true), ["QQ"]) == Some(Merged())
    ensures Merged().sources == [Leaf(SeqValue(QQ1)), Offset([3], Leaf(SeqValue(QQ2)))]
    ensures Then(SetFirst(true), SetCombine(true))(Merged()) == Merged()
  {
    DocQQ(QQ1);
    DocQQ(QQ2);
    StitchRecurse([Doc(QQ1), Doc(QQ2)], [QQ1, QQ2], "QQ", true, true);
    StitchedAt([QQ1, QQ2], 0, 1);
    assert [QQ1, QQ2][..1] == [QQ1] && [QQ1][1..] == [];
    assert Flatten([QQ1]) == QQ1 + [];
  }

  /** regression_test.go:27-40: the merge has length 6, and index i reads
      the i-th of a..f both through GetString at i and through Recurse to i. */
  lemma Regression01Reads()
    ensures Len(Merged(), []) == Ok(6)
    ensures forall i | 0 <= i < 6 ::
              && GetString(Merged(), [Itoa(i)]) == Ok((QQ1 + QQ2)[i].s)
              && Recurse(Merged(), [Itoa(i)]).Some?
              && GetString(Recurse(Merged(), [Itoa(i)]).value, []) == Ok((QQ1 + QQ2)[i].s)
  {
    QQFlat();
    StitchedLen([QQ1, QQ2], true, true);
    forall i | 0 <= i < 6
      ensures GetString(Merged(), [Itoa(i)]) == Ok((QQ1 + QQ2)[i].s)
      ensures Recurse(Merged(), [Itoa(i)]).Some?
      ensures GetString(Recurse(Merged(), [Itoa(i)]).value, []) == Ok((QQ1 + QQ2)[i].s)
    {
      MergedAt(i);
    }
  }

  lemma QQFlat()
    ensures Flatten([QQ1, QQ2]) == QQ1 + QQ2 && |QQ1 + QQ2| == 6
  {
    var lists := [QQ1, QQ2];
    assert lists[1..] == [QQ2] && [QQ2][1..] == [];
    assert Flatten([QQ2]) == QQ2 + [];
  }

  lemma MergedAt(i: int)
    requires 0 <= i < 6
    ensures GetString(Merged(), [Itoa(i)]) == Ok((QQ1 + QQ2)[i].s)
    ensures Recurse(Merged(), [Itoa(i)]).Some?
    ensures GetString(Recurse(Merged(), [Itoa(i)]).value, []) == Ok((QQ1 + QQ2)[i].s)
  {
    QQFlat();
    StitchedReads([QQ1, QQ2], true, true, i, String);
    assert KindOf((QQ1 + QQ2)[i]) == String;
  }

  /** regression_test.go:43-49: a merge of one document, recursed into a
      field the document lacks, is None. */
  lemma Regression02()
    ensures NewMultiSource([Doc(QQ1)]) == Multi([Doc(QQ1)], true, true)
    ensures Recurse(NewMultiSource([Doc(QQ1)]), ["foo"]) == None
  {
    DocQQ(QQ1);
    RecurseDropsMissing([Doc(QQ1)], true, true, ["foo"], String);
  }

  lemma OffsetTestPlain()
    ensures GetString(Leaf(SeqValue(QQ1)), ["0"]) == Ok("a")
  {
    assert DigitChar(0) == '0' && Itoa(0) == "0";
    ChildAtIndex(QQ1, 0);
    assert ["0"][1..] == [];
  }

  lemma OffsetTestShifted()
    ensures GetString(Offset([2], Leaf(SeqValue(QQ1))), ["3"]) == Ok("b")
  {
    assert DigitChar(1) == '1' && DigitChar(3) == '3';
    assert Itoa(1) == "1" && Itoa(1 + 2) == "3";
    TransformSingleShift(2, 1, []);
    assert [Itoa(1 + 2)] + [] == ["3"] && [Itoa(1)] + [] == ["1"];
    assert Transform([2], ["3"]) == Ok(["1"]);
    ChildAtIndex(QQ1, 1);
    assert ["1"][1..] == [];
    assert Navigate(SeqValue(QQ1), ["1"]) == Some(StringValue("b"));
    assert Get(Offset([2], Leaf(SeqValue(QQ1))), ["3"], String) == Get(Leaf(SeqValue(QQ1)), ["1"], String);
  }

  /** offset_test.go:10-18: QQ of the first document reads a at 0, and
      shifted by 2 it reads b at 3. */
  lemma OffsetTest()
    ensures var s := Recurse(Doc(QQ1), ["QQ"]).value;
            && GetString(s, ["0"]) == Ok("a")
            && GetString(WithOffset(Some(s), [2]).value, ["3"]) == Ok("b")
  {
    DocQQ(QQ1);
    OffsetTestPlain();
    OffsetTestShifted();
  }

  /** find's single-child path (multisource.go:206-211) returns the survivor
      without asking whether it exists: a merge holding one empty merge
      reports that the empty path exists, while its type is Undefined. */
  lemma SingleChildIsNotChecked()
    ensures Exists(Multi([Multi([], true, true)], true, true), [])
    ensures Type(Multi([Multi([], true, true)], true, true), []) == Undefined
  {
  }

  /** Combined Len and Keys ask every child with the path as given
      (multisource.go:283, 324), not along the stitched walk: index 3 of
      the merged QQ exists and reads d, yet Len and Keys there report
      DoesNotExist, because neither document has a QQ element 3 of its own. */
  lemma CombinedAsksUnshifted()
    ensures var m := Multi([Doc(QQ1), Doc(QQ2)], true, true);
            && Exists(m, ["QQ", "3"])
            && GetString(m, ["QQ", "3"]) == Ok("d")
            && Len(m, ["QQ", "3"]) == Err(DoesNotExist)
            && Keys(m, ["QQ", "3"]) == Err(DoesNotExist)
  {
    var cs := [Doc(QQ1), Doc(QQ2)];
    var keys := ["QQ", "3"];
    var d := Leaf(StringValue("d"));
    QQ3Walk();
    assert Find(cs, true, keys) == Some(d);
    assert Get(d, [], String) == Ok(StringValue("d"));
    QQ3Absent(QQ1);
    QQ3Absent(QQ2);
    assert CollectLens(cs, keys, 2) == Ok([]);
    assert CollectLens(cs, keys, 1) == Ok([]);
    assert CollectLens(cs, keys, 0) == Ok([]);
    assert CollectKeys(cs, keys, 2) == Ok([]);
    assert CollectKeys(cs, keys, 1) == Ok([]);
    assert CollectKeys(cs, keys, 0) == Ok([]);
  }

  /** The walk along QQ, 3: the first document's sequence is kept unshifted
      and misses index 3; the second is shifted by 3, so index 3 is its d. */
  lemma QQ3Walk()
    ensures RecurseChildren([Doc(QQ1), Doc(QQ2)], ["QQ", "3"]) == Some([Leaf(StringValue("d"))])
  {
    var cs := [Doc(QQ1), Doc(QQ2)];
    var keys := ["QQ", "3"];
    var d := Leaf(StringValue("d"));
    QQ3First();
    QQ3Second();
    WalkChildrenCons(cs, keys, [0, 0]);
    WalkChildrenCons(cs[1..], keys, [3, 0]);
    assert cs[1..][1..] == [];
    assert [] + ([d] + []) == [d];
    assert Zeros(2) == [0, 0];
  }

  lemma QQ3First()
    ensures WalkChild(Doc(QQ1), ["QQ", "3"], 0, [0, 0]) == (None, [3, 0])
  {
    assert DigitChar(3) == '3' && Itoa(3) == "3";
    DocQQ(QQ1);
    LeafAt(QQ1, 3);
    assert [0, 0][0 := 0 + 3] == [3, 0];
    assert WalkChild(Doc(QQ1), ["QQ", "3"], 0, [0, 0]) == WalkChild(Leaf(SeqValue(QQ1)), ["QQ", "3"], 1, [3, 0]);
  }

  lemma QQ3Second()
    ensures WalkChild(Doc(QQ2), ["QQ", "3"], 0, [3, 0]) == (Some(Leaf(StringValue("d"))), [6, 0])
  {
    var d := Leaf(StringValue("d"));
    assert DigitChar(3) == '3' && Itoa(3) == "3";
    assert DigitChar(0) == '0' && Itoa(0) == "0";
    DocQQ(QQ2);
    RecurseShiftedOne(3, Leaf(SeqValue(QQ2)), 3);
    LeafAt(QQ2, 0);
    assert Recurse(Offset([3], Leaf(SeqValue(QQ2))), ["3"]) == Some(d);
    assert [3, 0][0 := 3 + 3] == [6, 0];
    assert WalkChild(Doc(QQ2), ["QQ", "3"], 0, [3, 0]) ==
             WalkChild(Offset([3], Leaf(SeqValue(QQ2))), ["QQ", "3"], 1, [6, 0]);
  }

  /** A document whose QQ has three elements has no QQ element 3. */
  lemma QQ3Absent(items: seq<Value>)
    requires |items| == 3
    ensures !Exists(Doc(items), ["QQ", "3"])
  {
    assert DigitChar(3) == '3' && Itoa(3) == "3";
    ChildOutOfRange(items, 3);
    assert ["QQ", "3"][1..] == ["3"];
    assert Navigate(SeqValue(items), ["3"]) == None;
  }

  /** A document holding a map at QQ between the two sequence documents is
      kept as it is and does not move the counter: the third child is
      still shifted by 3. */
  lemma MapChildBetween()
    ensures var mid := Leaf(MapValue([("QQ", MapValue([]))]));
            Recurse(Multi([Doc(QQ1), mid, Doc(QQ2)], true, true), ["QQ"]) ==
              Some(Multi([Leaf(SeqValue(QQ1)), Leaf(MapValue([])), Offset([3], Leaf(SeqValue(QQ2)))], true, true))
  {
    var mid := Leaf(MapValue([("QQ", MapValue([]))]));
    var xs := [Doc(QQ1), mid, Doc(QQ2)];
    DocQQ(QQ1);
    DocQQ(QQ2);
    assert ["QQ"][1..] == [];
    assert Recurse(mid, ["QQ"]) == Some(Leaf(MapValue([])));
    assert SeqLenAt(xs[0], "QQ") == 3 && SeqLenAt(xs[1], "QQ") == 0;
    assert LenBefore(xs, "QQ", 2) == 3;
    assert Survivors(xs, "QQ", 3) == [];
    assert Survivors(xs, "QQ", 2) == [Offset([3], Leaf(SeqValue(QQ2)))];
    assert Survivors(xs, "QQ", 1) == [Leaf(MapValue([])), Offset([3], Leaf(SeqValue(QQ2)))];
    assert Survivors(xs, "QQ", 0) == [Leaf(SeqValue(QQ1)), Leaf(MapValue([])), Offset([3], Leaf(SeqValue(QQ2)))];
    WalkOneKey(xs, "QQ", true, true);
  }

  /** Combined Keys of two maps, a b and b c: each key once, in the order
      first seen going through the children in order. */
  lemma KeysUnionOrder()
    ensures var m1 := Leaf(MapValue([("a", NullValue), ("b", NullValue)]));
            var m2 := Leaf(MapValue([("b", NullValue), ("c", NullValue)]));
            Keys(Multi([m1, m2], true, true), []) == Ok(["a", "b", "c"])
  {
    var m1 := Leaf(MapValue([("a", NullValue), ("b", NullValue)]));
    var m2 := Leaf(MapValue([("b", NullValue), ("c", NullValue)]));
    var cs := [m1, m2];
    var e1 := [("a", NullValue), ("b", NullValue)];
    var e2 := [("b", NullValue), ("c", NullValue)];
    assert MapKeys(e1)[0] == "a" && MapKeys(e1)[1] == "b";
    assert MapKeys(e2)[0] == "b" && MapKeys(e2)[1] == "c";
    assert MapKeys(e1) == ["a", "b"] && MapKeys(e2) == ["b", "c"];
    assert Keys(m1, []) == Ok(["a", "b"]);
    assert Keys(m2, []) == Ok(["b", "c"]);
    assert ExistingKeys(cs, [], 2) == [];
    assert ExistingKeys(cs, [], 1) == ["b", "c"];
    assert ExistingKeys(cs, [], 0) == ["a", "b", "b", "c"];
    KeysCombined(cs, true, []);
    assert ["a", "b", "b", "c"][..3] == ["a", "b", "b"];
    assert ["a", "b", "b"][..2] == ["a", "b"];
    assert ["a", "b"][..1] == ["a"];
    assert ["a"][..0] == [];
    assert Dedup(["a", "b", "b", "c"]) == ["a", "b", "c"];
  }
}
