/** The prefix comparison of the prefix view (prefixsource.go:38-48): walk
    the query and the remaining prefix side by side until one runs out. */
module Prefixes {

  /** Mismatch, or what is left of the prefix and of the query. */
  datatype MatchResult = Mismatch | Consumed(prefixLeft: seq<string>, keysLeft: seq<string>)

  function MatchPrefix(prefix: seq<string>, keys: seq<string>): (r: MatchResult)
    ensures r.Consumed? ==> r.prefixLeft == [] || r.keysLeft == []
    decreases |keys|
  {
    if |keys| == 0 || |prefix| == 0 then Consumed(prefix, keys)
    else if keys[0] != prefix[0] then Mismatch
    else MatchPrefix(prefix[1..], keys[1..])
  }

  function Min(a: nat, b: nat): nat { if a <= b then a else b }

  /** A mismatch is reported exactly when the two differ at some position
      both have; otherwise their common leading part is removed from both. */
  lemma {:induction false} MatchPrefixSpec(prefix: seq<string>, keys: seq<string>)
    ensures MatchPrefix(prefix, keys).Mismatch? <==>
              exists i | 0 <= i < Min(|prefix|, |keys|) :: keys[i] != prefix[i]
    ensures MatchPrefix(prefix, keys).Consumed? ==>
              var n := Min(|prefix|, |keys|);
              MatchPrefix(prefix, keys) == Consumed(prefix[n..], keys[n..])
    decreases |keys|
  {
    if |keys| != 0 && |prefix| != 0 && keys[0] == prefix[0] {
      MatchPrefixSpec(prefix[1..], keys[1..]);
      if exists i | 0 <= i < Min(|prefix|, |keys|) :: keys[i] != prefix[i] {
        var i :| 0 <= i < Min(|prefix|, |keys|) && keys[i] != prefix[i];
        assert keys[1..][i - 1] != prefix[1..][i - 1];
      }
      if exists i | 0 <= i < Min(|prefix| - 1, |keys| - 1) :: keys[1..][i] != prefix[1..][i] {
        var i :| 0 <= i < Min(|prefix| - 1, |keys| - 1) && keys[1..][i] != prefix[1..][i];
        assert keys[i + 1] != prefix[i + 1];
      }
    }
  }

  /** A query inside the prefix leaves the rest of the prefix to match. */
  lemma MatchInsidePrefix(prefix: seq<string>, keys: seq<string>)
    requires |keys| <= |prefix| && keys == prefix[..|keys|]
    ensures MatchPrefix(prefix, keys) == Consumed(prefix[|keys|..], [])
  {
    MatchPrefixSpec(prefix, keys);
    assert forall i | 0 <= i < |keys| :: keys[i] == prefix[i];
  }

  /** A query that starts with the whole prefix leaves the rest of the query. */
  lemma MatchThroughPrefix(prefix: seq<string>, rest: seq<string>)
    ensures MatchPrefix(prefix, prefix + rest) == Consumed([], rest)
  {
    var keys := prefix + rest;
    MatchPrefixSpec(prefix, keys);
    assert forall i | 0 <= i < |prefix| :: keys[i] == prefix[i];
    assert keys[|prefix|..] == rest;
  }
}
