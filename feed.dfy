/**
 * The product feed as the generators see it: the sequence of `url` nodes an
 * lxml query matches, consumed through one lazy, single-pass iterator.
 */
module Feed {

  datatype Option<+T> = None | Some(value: T)

  /** A matched `url` node of the feed; `text` is lxml's `.text`, `None` when the element has no text. */
  datatype Node = Node(text: Option<string>)

  /**
   * The iterator over the matched nodes (`url_iter` / `iterator`). It is
   * shared by every batch: each pull advances it, and once exhausted it
   * stays exhausted.
   */
  class NodeIterator {
    const nodes: seq<Node>
    var pos: nat

    ghost predicate Valid()
      reads this
    {
      pos <= |nodes|
    }

    constructor (nodes: seq<Node>)
      ensures Valid()
      ensures this.nodes == nodes && pos == 0
    {
      this.nodes := nodes;
      pos := 0;
    }

    /** Python's `next()`: the next node, or `None` for `StopIteration`. */
    method Next() returns (n: Option<Node>)
      requires Valid()
      modifies this
      ensures Valid()
      ensures old(pos) < |nodes| ==> n == Some(nodes[old(pos)]) && pos == old(pos) + 1
      ensures old(pos) == |nodes| ==> n == None && pos == old(pos)
    {
      if pos < |nodes| {
        n := Some(nodes[pos]);
        pos := pos + 1;
      } else {
        n := None;
      }
    }
  }

  function Min(a: nat, b: nat): nat { if a < b then a else b }

  function Flatten<T>(ss: seq<seq<T>>): seq<T>
  {
    if ss == [] then [] else ss[0] + Flatten(ss[1..])
  }

  /**
   * The reference partition of `s` into consecutive slices of `cap` items,
   * the last one possibly shorter: what successive `islice(it, cap)` pulls
   * return until the iterator is exhausted.
   */
  function Chunks<T>(s: seq<T>, cap: nat): (cs: seq<seq<T>>)
    requires cap > 0
    ensures cs == [] <==> s == []
    ensures forall i :: 0 <= i < |cs| ==> 0 < |cs[i]| <= cap
    ensures forall i :: 0 <= i < |cs| - 1 ==> |cs[i]| == cap
    decreases |s|
  {
    if s == [] then [] else [s[..Min(cap, |s|)]] + Chunks(s[Min(cap, |s|)..], cap)
  }

  /** The slices of `Chunks` put back together give the whole sequence, in order. */
  lemma {:induction false} FlattenChunks<T>(s: seq<T>, cap: nat)
    requires cap > 0
    ensures Flatten(Chunks(s, cap)) == s
    decreases |s|
  {
    if s != [] {
      var n := Min(cap, |s|);
      FlattenChunks(s[n..], cap);
      assert s == s[..n] + s[n..];
    }
  }

  /**
   * There are `ceil(|s| / cap)` slices: all but the last are full, and the
   * last holds what is left after the full ones.
   */
  lemma {:induction false} ChunkCount<T>(s: seq<T>, cap: nat)
    requires cap > 0
    ensures (|Chunks(s, cap)| - 1) * cap < |s| <= |Chunks(s, cap)| * cap
    ensures s != [] ==> |Chunks(s, cap)[|Chunks(s, cap)| - 1]| == |s| - (|Chunks(s, cap)| - 1) * cap
    decreases |s|
  {
    var cs := Chunks(s, cap);
    if s != [] {
      var n := Min(cap, |s|);
      var rest := Chunks(s[n..], cap);
      ChunkCount(s[n..], cap);
      assert cs == [s[..n]] + rest;
      if |s| <= cap {
        assert rest == [];
      } else {
        assert n == cap && |s[n..]| == |s| - cap && |rest| > 0;
        MulSucc(|rest| - 1, cap);
        MulSucc(|rest|, cap);
      }
    }
  }

  // The lemmas from here on are plain sequence and arithmetic facts, not
  // claims about the feed: the loop proofs call them so that each step
  // stays small for the solver.

  /** A prefix of `s` is its first `n` items followed by the next `c`. */
  lemma PrefixSplit<T>(s: seq<T>, n: nat, c: nat)
    requires n + c <= |s|
    ensures s[..n] + s[n..][..c] == s[..n + c]
  {
    assert forall i :: 0 <= i < n + c ==> (s[..n] + s[n..][..c])[i] == s[i];
  }

  lemma ConcatAssoc<T>(a: seq<T>, b: seq<T>, c: seq<T>)
    ensures a + b + c == a + (b + c)
  {
  }

  lemma ConcatNil<T>(a: seq<T>)
    ensures a + [] == a
  {
  }

  lemma MulSucc(m: nat, cap: nat)
    ensures (m + 1) * cap == m * cap + cap
  {
  }
}
