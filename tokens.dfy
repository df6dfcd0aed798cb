/** Tokens of the source text and the find/filter queries the patchers run
    over a node's token list. */
module Tokens {

  datatype Option<T> = None | Some(value: T)

  /** A lexer token: its type name (`type` in the lexer's output), its
      payload and its half-open source range `[start, end)`. */
  datatype Token = Token(kind: string, data: string, start: nat, end: nat)

  /** Tokens in ascending, non-overlapping source order, as the lexer
      produces them. */
  ghost predicate Ordered(ts: seq<Token>)
  {
    forall i, j :: 0 <= i < j < |ts| ==> ts[i].end <= ts[j].start
  }

  /** The index of the first token satisfying `p`, if there is one. */
  function FindIndex(ts: seq<Token>, p: Token -> bool): (r: Option<nat>)
    ensures r.None? <==> forall i :: 0 <= i < |ts| ==> !p(ts[i])
    ensures r.Some? ==> r.value < |ts| && p(ts[r.value])
    ensures r.Some? ==> forall i :: 0 <= i < r.value ==> !p(ts[i])
  {
    if ts == [] then None
    else if p(ts[0]) then Some(0)
    else match FindIndex(ts[1..], p)
      case None => None
      case Some(i) => Some(i + 1)
  }

  /** The first token satisfying `p` (`find` from the array utilities). */
  function Find(ts: seq<Token>, p: Token -> bool): (r: Option<Token>)
    ensures r.None? <==> forall i :: 0 <= i < |ts| ==> !p(ts[i])
    ensures r.Some? ==> exists i :: 0 <= i < |ts| && ts[i] == r.value && p(ts[i]) &&
                                    forall j :: 0 <= j < i ==> !p(ts[j])
  {
    match FindIndex(ts, p)
    case None => None
    case Some(i) => Some(ts[i])
  }

  /** The tokens satisfying `p`, in their original order (`Array.filter`). */
  function Filter(ts: seq<Token>, p: Token -> bool): (r: seq<Token>)
    ensures |r| <= |ts|
    ensures forall t :: t in r ==> t in ts && p(t)
    ensures forall t :: p(t) ==> multiset(r)[t] == multiset(ts)[t]
  {
    if ts == [] then []
    else
      assert ts == [ts[0]] + ts[1..];
      if p(ts[0]) then [ts[0]] + Filter(ts[1..], p) else Filter(ts[1..], p)
  }

  /** Filtering keeps the source order of the tokens it keeps. */
  lemma {:induction false} FilterOrdered(ts: seq<Token>, p: Token -> bool)
    requires Ordered(ts)
    ensures Ordered(Filter(ts, p))
  {
    if ts != [] {
      FilterOrdered(ts[1..], p);
      var rest := Filter(ts[1..], p);
      if p(ts[0]) {
        var r := [ts[0]] + rest;
        forall i, j | 0 <= i < j < |r| ensures r[i].end <= r[j].start {
          assert r[j] == rest[j - 1];
          if i == 0 {
            assert rest[j - 1] in ts[1..];
            var k :| 0 <= k < |ts| - 1 && ts[1..][k] == r[j];
            assert ts[k + 1] == r[j];
          } else {
            assert r[i] == rest[i - 1];
          }
        }
      }
    }
  }
}
