/** The prefix view (prefixsource.go): a source re-rooted under a fixed
    path. Every accessor is a three-way dispatch on MatchPrefix: mismatch,
    prefix only partly consumed, or prefix fully consumed. */
module PrefixView {
  import opened Base
  import opened Prefixes
  import opened Sources
  import opened Mutations

  /** prefixsource.go:17-26: an empty prefix gives back the source itself,
      so every constructed prefix view has a non-empty prefix. */
  function NewPrefixSource(src: Source, prefix: seq<string>): (r: Source)
    ensures prefix == [] ==> r == src
    ensures prefix != [] ==> r.Prefix? && r.prefix == prefix && r.src == src
  {
    if prefix == [] then src else Prefix(prefix, src)
  }

  /** prefixsource.go:28-36: the mutation reaches only the wrapped source. */
  function PrefixMutate(s: Source, m: Mutation): (r: Source)
    requires s.Prefix?
    ensures r.Prefix? && r.prefix == s.prefix && r.src == m(s.src)
  {
    Prefix(s.prefix, m(s.src))
  }

  /** A path that differs from the prefix at a position both have: Exists is
      false, the getters, Keys and Len fail with DoesNotExist, Type is
      Undefined and Recurse is None. */
  lemma PrefixMismatch(p: seq<string>, s: Source, keys: seq<string>, i: nat, want: NodeType)
    requires i < |p| && i < |keys| && keys[i] != p[i]
    ensures !Exists(Prefix(p, s), keys)
    ensures Get(Prefix(p, s), keys, want) == Err(DoesNotExist)
    ensures Keys(Prefix(p, s), keys) == Err(DoesNotExist)
    ensures Len(Prefix(p, s), keys) == Err(DoesNotExist)
    ensures Type(Prefix(p, s), keys) == Undefined
    ensures Recurse(Prefix(p, s), keys) == None
  {
    MatchPrefixSpec(p, keys);
  }

  /** A path that stops inside the prefix: the node exists and is a map
      whose only key is the next prefix segment; Len and the scalar getters
      fail with WrongType; Recurse gives a view over the same source with
      the rest of the prefix, which is not empty. */
  lemma PrefixPartial(p: seq<string>, s: Source, keys: seq<string>, want: NodeType)
    requires |keys| < |p| && keys == p[..|keys|]
    ensures Exists(Prefix(p, s), keys)
    ensures Type(Prefix(p, s), keys) == Map
    ensures Keys(Prefix(p, s), keys) == Ok([p[|keys|]])
    ensures Len(Prefix(p, s), keys) == Err(WrongType)
    ensures Get(Prefix(p, s), keys, want) == Err(WrongType)
    ensures Recurse(Prefix(p, s), keys) == Some(Prefix(p[|keys|..], s)) && p[|keys|..] != []
  {
    MatchInsidePrefix(p, keys);
    if keys == [] {
      assert p[0..] == p;
    }
  }

  /** A path through the whole prefix: every accessor answers for the rest
      of the path in the wrapped source; Recurse gives the wrapped source
      itself when nothing is left. */
  lemma PrefixFull(p: seq<string>, s: Source, rest: seq<string>, want: NodeType)
    ensures Exists(Prefix(p, s), p + rest) == Exists(s, rest)
    ensures Get(Prefix(p, s), p + rest, want) == Get(s, rest, want)
    ensures Keys(Prefix(p, s), p + rest) == Keys(s, rest)
    ensures Len(Prefix(p, s), p + rest) == Len(s, rest)
    ensures Type(Prefix(p, s), p + rest) == Type(s, rest)
    ensures p + rest != [] ==>
              Recurse(Prefix(p, s), p + rest) == if rest == [] then Some(s) else Recurse(s, rest)
  {
    MatchThroughPrefix(p, rest);
  }

  /** Re-rooting then walking back through the prefix gives the original
      source: the same answers to every query, and Recurse along the prefix
      returns the source itself. */
  lemma PrefixRoundTrip(s: Source, p: seq<string>, rest: seq<string>, want: NodeType)
    ensures Exists(NewPrefixSource(s, p), p + rest) == Exists(s, rest)
    ensures Get(NewPrefixSource(s, p), p + rest, want) == Get(s, rest, want)
    ensures Keys(NewPrefixSource(s, p), p + rest) == Keys(s, rest)
    ensures Len(NewPrefixSource(s, p), p + rest) == Len(s, rest)
    ensures Type(NewPrefixSource(s, p), p + rest) == Type(s, rest)
    ensures p != [] ==> Recurse(NewPrefixSource(s, p), p) == Some(s)
  {
    if p == [] {
      assert p + rest == rest;
    } else {
      PrefixFull(p, s, rest, want);
      PrefixFull(p, s, [], want);
      assert p + [] == p;
    }
  }

  /** Mutating a prefix view changes nothing that a path ending inside the
      prefix, or leaving it, can observe. */
  lemma PrefixMutateInsidePrefix(s: Source, m: Mutation, keys: seq<string>, want: NodeType)
    requires s.Prefix?
    requires MatchPrefix(s.prefix, keys).Mismatch? || MatchPrefix(s.prefix, keys).prefixLeft != []
    ensures Exists(PrefixMutate(s, m), keys) == Exists(s, keys)
    ensures Get(PrefixMutate(s, m), keys, want) == Get(s, keys, want)
    ensures Keys(PrefixMutate(s, m), keys) == Keys(s, keys)
    ensures Len(PrefixMutate(s, m), keys) == Len(s, keys)
    ensures Type(PrefixMutate(s, m), keys) == Type(s, keys)
  {
  }

  /** Mutating twice is mutating once with the two mutations in order. */
  lemma PrefixMutateThen(s: Source, a: Mutation, b: Mutation)
    requires s.Prefix?
    ensures PrefixMutate(PrefixMutate(s, a), b) == PrefixMutate(s, Then(a, b))
  {
  }
}
