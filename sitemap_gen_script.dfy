/**
 * The generator of `sitemap_gen_script.py`: the feed's `url` nodes are read
 * in batches of at most `cap` nodes; the nodes of a batch with a truthy text
 * become `url` entries of a fresh `urlset`; the first batch that yields no
 * entry ends the run; every other batch is written to
 * `zip77.ru/sitemap<k>.xml` (k = 0, 1, ...) and listed in a sitemap index,
 * which is itself written only when more than one sitemap was.
 */
module SitemapGenScript {
  import opened Feed
  import opened Sitemap
  import Decimal

  /** `Path('zip77.ru/')`, rendered without its trailing separator. */
  const OutputDir: string := "zip77.ru"

  /** Where the sitemap index goes. */
  const IndexPath: string := OutputDir + "/sitemap-index.xml"

  /** `str(output_dir_path / f'sitemap{k}.xml')`. */
  function SitemapPath(k: nat): string
  {
    OutputDir + "/sitemap" + Decimal.FromNat(k) + ".xml"
  }

  /** Python truthiness of the node's text: `None` and `""` are dropped, any other string (blanks too) is kept. */
  predicate Kept(n: Node)
  {
    n.text.Some? && n.text.value != ""
  }

  predicate HasKept(nodes: seq<Node>)
  {
    exists j :: 0 <= j < |nodes| && Kept(nodes[j])
  }

  /** The entries a batch of nodes yields: one per kept node, in order, with the node's text and the fixed priority. */
  function KeptUrls(nodes: seq<Node>): (urls: seq<Url>)
    ensures |urls| <= |nodes|
  {
    if nodes == [] then []
    else
      var last := nodes[|nodes| - 1];
      KeptUrls(nodes[..|nodes| - 1]) + (if Kept(last) then [Url(last.text, UrlPriority)] else [])
  }

  /** Every entry has a non-empty `loc` and the priority `"0.3"`. */
  lemma {:induction false} KeptUrlsShape(nodes: seq<Node>)
    ensures forall i :: 0 <= i < |KeptUrls(nodes)| ==>
      KeptUrls(nodes)[i].loc.Some? && KeptUrls(nodes)[i].loc.value != "" &&
      KeptUrls(nodes)[i].priority == UrlPriority
    decreases |nodes|
  {
    if nodes != [] {
      KeptUrlsShape(nodes[..|nodes| - 1]);
    }
  }

  /** Pulling one more node adds its entry at the end when its text is truthy, and nothing otherwise. */
  lemma KeptUrlsSnoc(s: seq<Node>, i: nat, j: nat)
    requires i < j <= |s|
    ensures KeptUrls(s[i..j]) ==
      KeptUrls(s[i..j - 1]) + (if Kept(s[j - 1]) then [Url(s[j - 1].text, UrlPriority)] else [])
  {
    assert s[i..j][..j - i - 1] == s[i..j - 1];
  }

  /** Batches are independent: the entries of `a + b` are those of `a` followed by those of `b`. */
  lemma {:induction false} KeptUrlsAppend(a: seq<Node>, b: seq<Node>)
    ensures KeptUrls(a + b) == KeptUrls(a) + KeptUrls(b)
    decreases |b|
  {
    if b == [] {
      assert a + b == a;
    } else {
      var ab := a + b;
      assert ab[..|ab| - 1] == a + b[..|b| - 1];
      KeptUrlsAppend(a, b[..|b| - 1]);
    }
  }

  /** A batch yields no entry exactly when none of its nodes has a truthy text. */
  lemma {:induction false} KeptUrlsEmpty(nodes: seq<Node>)
    ensures KeptUrls(nodes) == [] <==> !HasKept(nodes)
    decreases |nodes|
  {
    if nodes != [] {
      var init := nodes[..|nodes| - 1];
      KeptUrlsEmpty(init);
      if HasKept(init) {
        var j :| 0 <= j < |init| && Kept(init[j]);
        assert Kept(nodes[j]);
      }
      if HasKept(nodes) && !Kept(nodes[|nodes| - 1]) {
        var j :| 0 <= j < |nodes| && Kept(nodes[j]);
        assert Kept(init[j]);
      }
    }
  }

  /**
   * The sitemaps the loop writes from the unread nodes `rest`, numbering
   * files from `k`: a batch is the next `Min(cap, |rest|)` nodes, kept or
   * not; the first batch without entries ends the run.
   */
  function ScriptSitemaps(rest: seq<Node>, cap: nat, k: nat): seq<SitemapFile>
    decreases |rest|
  {
    var n := Min(cap, |rest|);
    var urls := KeptUrls(rest[..n]);
    if urls == [] then []
    else [SitemapFile(SitemapPath(k), urls)] + ScriptSitemaps(rest[n..], cap, k + 1)
  }

  /** How many nodes the loop pulls from `rest` before it stops, the final empty batch included. */
  function ScriptConsumed(rest: seq<Node>, cap: nat): (c: nat)
    ensures c <= |rest|
    decreases |rest|
  {
    var n := Min(cap, |rest|);
    if KeptUrls(rest[..n]) == [] then n else n + ScriptConsumed(rest[n..], cap)
  }

  /** One iteration of the loop: the batch pulled from `feed[start..]` either ends the run or is its next file. */
  lemma ScriptStep(feed: seq<Node>, start: nat, pos: nat, cap: nat, k: nat)
    requires start <= |feed| && pos == start + Min(cap, |feed| - start)
    ensures KeptUrls(feed[start..pos]) == [] ==> ScriptSitemaps(feed[start..], cap, k) == []
    ensures KeptUrls(feed[start..pos]) != [] ==>
      ScriptSitemaps(feed[start..], cap, k) == [SitemapFile(SitemapPath(k), KeptUrls(feed[start..pos]))] + ScriptSitemaps(feed[pos..], cap, k + 1)
  {
    var rest := feed[start..];
    assert rest[..pos - start] == feed[start..pos];
    assert rest[pos - start..] == feed[pos..];
  }

  /** The same iteration counted in nodes: an empty batch is the last one pulled, any other is followed by the rest of the run. */
  lemma ScriptStepConsumed(feed: seq<Node>, start: nat, pos: nat, cap: nat)
    requires start <= |feed| && pos == start + Min(cap, |feed| - start)
    ensures KeptUrls(feed[start..pos]) == [] ==> ScriptConsumed(feed[start..], cap) == pos - start
    ensures KeptUrls(feed[start..pos]) != [] ==>
      ScriptConsumed(feed[start..], cap) == pos - start + ScriptConsumed(feed[pos..], cap)
  {
    var rest := feed[start..];
    assert Min(cap, |rest|) == pos - start;
    assert rest[..pos - start] == feed[start..pos];
    assert rest[pos - start..] == feed[pos..];
  }

  /** The index written after the loop, with one `sitemap/loc` per sitemap file. */
  datatype IndexFile = IndexFile(path: string, locs: seq<string>)

  /** What a run leaves behind: the sitemaps in write order, the index entries, and the index file if one was written. */
  datatype ScriptOutput = ScriptOutput(sitemaps: seq<SitemapFile>, indexLocs: seq<string>, index: Option<IndexFile>)

  /** The `sitemapindex` root element, which lives for the whole run; `locs` are the texts of its `sitemap/loc` children. */
  class SitemapIndex {
    var locs: seq<string>

    constructor ()
      ensures locs == []
    {
      locs := [];
    }

    /** Appends a `sitemap` child whose `loc` text is `path`. */
    method AddSitemap(path: string)
      modifies this
      ensures locs == old(locs) + [path]
    {
      locs := locs + [path];
    }
  }

  /**
   * `for i_child_elem in islice(url_iter, cap)`: pulls up to `cap` nodes and
   * appends a `url` entry to `root` for each one whose text is truthy.
   */
  method ReadBatch(it: NodeIterator, root: UrlSet, cap: nat)
    requires it.Valid()
    modifies it, root
    ensures it.Valid()
    ensures it.pos == old(it.pos) + Min(cap, |it.nodes| - old(it.pos))
    ensures root.urls == old(root.urls) + KeptUrls(it.nodes[old(it.pos)..it.pos])
  {
    var taken: nat := 0;
    var exhausted := false;
    while taken < cap && !exhausted
      invariant it.Valid() && taken <= cap
      invariant it.pos == old(it.pos) + taken
      invariant exhausted ==> it.pos == |it.nodes|
      invariant root.urls == old(root.urls) + KeptUrls(it.nodes[old(it.pos)..it.pos])
      decreases cap - taken, if exhausted then 0 else 1
    {
      var next := it.Next();
      match next {
        case None =>
          exhausted := true;
        case Some(node) =>
          taken := taken + 1;
          KeptUrlsSnoc(it.nodes, old(it.pos), it.pos);
          if Kept(node) {
            ConcatAssoc(old(root.urls), KeptUrls(it.nodes[old(it.pos)..it.pos - 1]), [Url(node.text, UrlPriority)]);
            root.Append(Url(node.text, UrlPriority));
          } else {
            ConcatNil(KeptUrls(it.nodes[old(it.pos)..it.pos - 1]));
          }
      }
    }
  }

  /**
   * The script's main loop over the nodes of `feed`, pulling `cap` nodes
   * per batch (50,000 in the script).
   */
  method Run(feed: seq<Node>, cap: nat) returns (out: ScriptOutput, consumed: nat)
    ensures out.sitemaps == ScriptSitemaps(feed, cap, 0)
    ensures consumed == ScriptConsumed(feed, cap) && consumed <= |feed|
    ensures forall i :: 0 <= i < |out.sitemaps| ==>
      out.sitemaps[i].path == SitemapPath(i) && 0 < |out.sitemaps[i].urls| <= cap
    ensures |out.indexLocs| == |out.sitemaps|
    ensures forall i :: 0 <= i < |out.sitemaps| ==> out.indexLocs[i] == out.sitemaps[i].path
    ensures out.index.Some? <==> |out.sitemaps| > 1
    ensures out.index.Some? ==> out.index.value == IndexFile(IndexPath, out.indexLocs)
  {
    var indexRoot := new SitemapIndex();
    var urlIter := new NodeIterator(feed);
    var written: seq<SitemapFile> := [];
    var fileNumber: nat := 0;
    assert feed[urlIter.pos..] == feed;
    ghost var all := ScriptSitemaps(feed, cap, 0);
    ghost var total := ScriptConsumed(feed, cap);
    while true
      invariant urlIter.Valid()
      invariant fileNumber == |written|
      invariant written + ScriptSitemaps(feed[urlIter.pos..], cap, fileNumber) == all
      invariant urlIter.pos + ScriptConsumed(feed[urlIter.pos..], cap) == total
      invariant indexRoot.locs == Paths(written)
      decreases |feed| - urlIter.pos
    {
      var root := new UrlSet();
      ghost var start := urlIter.pos;
      ReadBatch(urlIter, root, cap);
      assert urlIter.nodes == feed && root.urls == KeptUrls(feed[start..urlIter.pos]);
      ScriptLoopStep(feed, cap, written, start, urlIter.pos, all);
      ScriptStepConsumed(feed, start, urlIter.pos, cap);
      if |root.urls| == 0 {
        consumed := urlIter.pos;
        break;
      }
      var file := SitemapFile(SitemapPath(fileNumber), root.urls);
      PathsSnoc(written, file);
      written := written + [file];
      indexRoot.AddSitemap(file.path);
      fileNumber := fileNumber + 1;
    }
    var index := if |indexRoot.locs| > 1 then Some(IndexFile(IndexPath, indexRoot.locs)) else None;
    out := ScriptOutput(written, indexRoot.locs, index);
    ScriptOutputShape(feed, cap, out);
  }

  /**
   * The loop invariant is kept by one batch: an empty batch leaves exactly
   * the files already written, any other batch adds the next file.
   */
  lemma ScriptLoopStep(feed: seq<Node>, cap: nat, written: seq<SitemapFile>, start: nat, pos: nat, all: seq<SitemapFile>)
    requires start <= |feed| && pos == start + Min(cap, |feed| - start)
    requires written + ScriptSitemaps(feed[start..], cap, |written|) == all
    ensures KeptUrls(feed[start..pos]) == [] ==> written == all
    ensures KeptUrls(feed[start..pos]) != [] ==>
      written + [SitemapFile(SitemapPath(|written|), KeptUrls(feed[start..pos]))] + ScriptSitemaps(feed[pos..], cap, |written| + 1)
        == all
  {
    ScriptStep(feed, start, pos, cap, |written|);
    var urls := KeptUrls(feed[start..pos]);
    if urls == [] {
      ConcatNil(written);
    } else {
      var f := SitemapFile(SitemapPath(|written|), urls);
      ConcatAssoc(written, [f], ScriptSitemaps(feed[pos..], cap, |written| + 1));
    }
  }

  /** The files of a run are numbered from 0 and each file is listed in the index under its own path. */
  lemma ScriptOutputShape(feed: seq<Node>, cap: nat, out: ScriptOutput)
    requires out.sitemaps == ScriptSitemaps(feed, cap, 0) && out.indexLocs == Paths(out.sitemaps)
    ensures forall i :: 0 <= i < |out.sitemaps| ==>
      out.sitemaps[i].path == SitemapPath(i) && 0 < |out.sitemaps[i].urls| <= cap
    ensures |out.indexLocs| == |out.sitemaps|
    ensures forall i :: 0 <= i < |out.sitemaps| ==> out.indexLocs[i] == out.sitemaps[i].path
  {
    ScriptFileShape(feed, cap, 0);
    PathsAt(out.sitemaps);
  }

  /** The index entries for `files`: each file's path, in write order. */
  function Paths(files: seq<SitemapFile>): seq<string>
  {
    if files == [] then [] else Paths(files[..|files| - 1]) + [files[|files| - 1].path]
  }

  lemma PathsSnoc(files: seq<SitemapFile>, f: SitemapFile)
    ensures Paths(files + [f]) == Paths(files) + [f.path]
  {
    assert (files + [f])[..|files|] == files;
  }

  lemma {:induction false} PathsAt(files: seq<SitemapFile>)
    ensures |Paths(files)| == |files|
    ensures forall i :: 0 <= i < |files| ==> Paths(files)[i] == files[i].path
    decreases |files|
  {
    if files != [] {
      PathsAt(files[..|files| - 1]);
    }
  }

  /** Files are numbered 0, 1, 2, ... with no gap, and each holds between 1 and `cap` entries. */
  lemma {:induction false} ScriptFileShape(rest: seq<Node>, cap: nat, k: nat)
    ensures forall i :: 0 <= i < |ScriptSitemaps(rest, cap, k)| ==>
      ScriptSitemaps(rest, cap, k)[i].path == SitemapPath(k + i) &&
      0 < |ScriptSitemaps(rest, cap, k)[i].urls| <= cap
    decreases |rest|
  {
    var n := Min(cap, |rest|);
    if KeptUrls(rest[..n]) != [] {
      ScriptFileShape(rest[n..], cap, k + 1);
    }
  }

  /** A batch that yields entries is written as file `k`, and the loop carries on after it. */
  lemma ScriptUnfold(rest: seq<Node>, cap: nat, k: nat)
    requires KeptUrls(rest[..Min(cap, |rest|)]) != []
    ensures ScriptSitemaps(rest, cap, k) ==
      [SitemapFile(SitemapPath(k), KeptUrls(rest[..Min(cap, |rest|)]))] + ScriptSitemaps(rest[Min(cap, |rest|)..], cap, k + 1)
    ensures ScriptConsumed(rest, cap) == Min(cap, |rest|) + ScriptConsumed(rest[Min(cap, |rest|)..], cap)
  {
  }

  /** The entries of all files, in file order, are the entries of the nodes the loop consumed, in feed order. */
  lemma {:induction false} ScriptUrlsInOrder(rest: seq<Node>, cap: nat, k: nat)
    ensures AllUrls(ScriptSitemaps(rest, cap, k)) == KeptUrls(rest[..ScriptConsumed(rest, cap)])
    decreases |rest|
  {
    var n := Min(cap, |rest|);
    var head := KeptUrls(rest[..n]);
    if head == [] {
      assert ScriptSitemaps(rest, cap, k) == [] && ScriptConsumed(rest, cap) == n;
    } else {
      var tail := rest[n..];
      var c := ScriptConsumed(tail, cap);
      var files := ScriptSitemaps(tail, cap, k + 1);
      ScriptUnfold(rest, cap, k);
      ScriptUrlsInOrder(tail, cap, k + 1);
      AllUrlsCons(SitemapFile(SitemapPath(k), head), files);
      KeptUrlsAppend(rest[..n], tail[..c]);
      PrefixSplit(rest, n, c);
      calc {
        AllUrls(ScriptSitemaps(rest, cap, k));
        AllUrls([SitemapFile(SitemapPath(k), head)] + files);
        head + AllUrls(files);
        head + KeptUrls(tail[..c]);
        KeptUrls(rest[..n + c]);
      }
    }
  }

  /**
   * Dropped nodes still take their slot: the loop consumes `cap` nodes per
   * written file plus one more (empty) batch, or the whole feed if that is shorter.
   */
  lemma {:induction false} ScriptConsumedSlots(rest: seq<Node>, cap: nat, k: nat)
    ensures ScriptConsumed(rest, cap) == Min(|rest|, (|ScriptSitemaps(rest, cap, k)| + 1) * cap)
    decreases |rest|
  {
    var n := Min(cap, |rest|);
    if KeptUrls(rest[..n]) == [] {
      assert ScriptSitemaps(rest, cap, k) == [] && ScriptConsumed(rest, cap) == n;
    } else {
      var tail := rest[n..];
      var m := |ScriptSitemaps(tail, cap, k + 1)|;
      ScriptUnfold(rest, cap, k);
      ScriptConsumedSlots(tail, cap, k + 1);
      MulSucc(m + 1, cap);
      var p := (m + 1) * cap;
      assert ScriptConsumed(rest, cap) == n + Min(|tail|, p);
      assert |ScriptSitemaps(rest, cap, k)| + 1 == m + 2;
      if n < cap {
        assert tail == [] && ScriptSitemaps(tail, cap, k + 1) == [];
        assert p == cap;
      }
    }
  }

  /**
   * File `i` is made of the `i`-th slice of `cap` nodes of the feed, and the
   * run stops at the first slice that yields no entry.
   */
  lemma {:induction false} ScriptFollowsChunks(rest: seq<Node>, cap: nat, k: nat)
    requires cap > 0
    ensures |ScriptSitemaps(rest, cap, k)| <= |Chunks(rest, cap)|
    ensures forall i :: 0 <= i < |ScriptSitemaps(rest, cap, k)| ==>
      ScriptSitemaps(rest, cap, k)[i].urls == KeptUrls(Chunks(rest, cap)[i])
    ensures |ScriptSitemaps(rest, cap, k)| < |Chunks(rest, cap)| ==>
      KeptUrls(Chunks(rest, cap)[|ScriptSitemaps(rest, cap, k)|]) == []
    decreases |rest|
  {
    var n := Min(cap, |rest|);
    if rest != [] && KeptUrls(rest[..n]) != [] {
      ScriptFollowsChunks(rest[n..], cap, k + 1);
      var files := ScriptSitemaps(rest, cap, k);
      var chunks := Chunks(rest, cap);
      assert files[1..] == ScriptSitemaps(rest[n..], cap, k + 1);
      assert chunks[1..] == Chunks(rest[n..], cap);
    }
  }

  /**
   * The loop only stops because the iterator is exhausted (the assumption of
   * the comment on the break) exactly when no slice of `cap` nodes is entirely
   * filtered out.
   */
  lemma ScriptReachesEndIff(feed: seq<Node>, cap: nat)
    requires cap > 0
    ensures |ScriptSitemaps(feed, cap, 0)| == |Chunks(feed, cap)| <==>
      forall i :: 0 <= i < |Chunks(feed, cap)| ==> HasKept(Chunks(feed, cap)[i])
  {
    var files := ScriptSitemaps(feed, cap, 0);
    var chunks := Chunks(feed, cap);
    ScriptFollowsChunks(feed, cap, 0);
    ScriptFileShape(feed, cap, 0);
    if |files| == |chunks| {
      forall i | 0 <= i < |chunks|
        ensures HasKept(chunks[i])
      {
        KeptUrlsEmpty(chunks[i]);
      }
    } else {
      KeptUrlsEmpty(chunks[|files|]);
    }
  }

  /** With every text non-empty, every node is written, in order. */
  lemma ScriptWritesAllWhenAllKept(feed: seq<Node>, cap: nat)
    requires cap > 0
    requires forall j :: 0 <= j < |feed| ==> Kept(feed[j])
    ensures AllUrls(ScriptSitemaps(feed, cap, 0)) == KeptUrls(feed)
    ensures |ScriptSitemaps(feed, cap, 0)| == |Chunks(feed, cap)|
  {
    var chunks := Chunks(feed, cap);
    ChunksOfKept(feed, cap);
    forall i | 0 <= i < |chunks|
      ensures HasKept(chunks[i])
    {
      assert Kept(chunks[i][0]);
    }
    ScriptReachesEndIff(feed, cap);
    ScriptConsumedWhenReachingEnd(feed, cap, 0);
    ScriptUrlsInOrder(feed, cap, 0);
    assert feed[..|feed|] == feed;
  }

  /** A run that writes one file per slice has read the whole feed. */
  lemma {:induction false} ScriptConsumedWhenReachingEnd(rest: seq<Node>, cap: nat, k: nat)
    requires cap > 0
    requires |ScriptSitemaps(rest, cap, k)| == |Chunks(rest, cap)|
    ensures ScriptConsumed(rest, cap) == |rest|
    decreases |rest|
  {
    var n := Min(cap, |rest|);
    if rest != [] {
      assert KeptUrls(rest[..n]) != [];
      assert Chunks(rest, cap)[1..] == Chunks(rest[n..], cap);
      ScriptConsumedWhenReachingEnd(rest[n..], cap, k + 1);
    }
  }

  /** Slicing keeps the nodes: when every node has a truthy text, so does every node of every slice. */
  lemma {:induction false} ChunksOfKept(s: seq<Node>, cap: nat)
    requires cap > 0
    requires forall j :: 0 <= j < |s| ==> Kept(s[j])
    ensures forall i, j :: 0 <= i < |Chunks(s, cap)| && 0 <= j < |Chunks(s, cap)[i]| ==> Kept(Chunks(s, cap)[i][j])
    decreases |s|
  {
    if s != [] {
      var n := Min(cap, |s|);
      ChunksOfKept(s[n..], cap);
      assert Chunks(s, cap)[1..] == Chunks(s[n..], cap);
    }
  }

  /**
   * A batch of `cap` nodes without text ends the run while the iterator still
   * holds a node with an address: here the feed's only address is never written.
   */
  lemma ScriptStopsEarly()
    ensures var feed := [Node(None), Node(Some("https://a/1"))];
      ScriptSitemaps(feed, 1, 0) == [] && ScriptConsumed(feed, 1) == 1 &&
      KeptUrls(feed) == [Url(Some("https://a/1"), UrlPriority)]
  {
    var feed := [Node(None), Node(Some("https://a/1"))];
    assert feed[..1] == [Node(None)];
    assert feed[..1][..0] == [];
    assert feed[..|feed| - 1] == [Node(None)];
  }

  /**
   * The general case: when the first `cap` nodes all lack a truthy text and
   * a later node has one, the script writes nothing, while the loop its
   * comment describes writes that node.
   */
  lemma ScriptDropsAfterFilteredBatch(feed: seq<Node>, cap: nat)
    requires 0 < cap < |feed|
    requires !HasKept(feed[..cap]) && HasKept(feed[cap..])
    ensures ScriptSitemaps(feed, cap, 0) == []
    ensures KeptUrls(feed) != [] && AllUrls(IntendedSitemaps(feed, cap, 0)) == KeptUrls(feed)
  {
    KeptUrlsEmpty(feed[..cap]);
    KeptUrlsEmpty(feed[cap..]);
    assert feed == feed[..cap] + feed[cap..];
    KeptUrlsAppend(feed[..cap], feed[cap..]);
    IntendedWritesAllKept(feed, cap, 0);
  }

  /** Distinct file numbers give distinct paths, so no sitemap overwrites another. */
  lemma SitemapPathInjective(a: nat, b: nat)
    ensures SitemapPath(a) == SitemapPath(b) ==> a == b
  {
    if SitemapPath(a) == SitemapPath(b) {
      var pa, pb := SitemapPath(a), SitemapPath(b);
      var pre := OutputDir + "/sitemap";
      assert pa[|pre|..|pa| - 4] == Decimal.FromNat(a);
      assert pb[|pre|..|pb| - 4] == Decimal.FromNat(b);
      Decimal.FromNatInjective(a, b);
    }
  }

  /** The index never lands on a sitemap's path. */
  lemma IndexPathIsNoSitemapPath(k: nat)
    ensures IndexPath != SitemapPath(k)
  {
    var pre := OutputDir + "/sitemap";
    Decimal.FromNatDigits(k);
    assert IndexPath[|pre|] == '-';
    assert SitemapPath(k)[|pre|] == Decimal.FromNat(k)[0];
  }

  /**
   * The loop as the comment on its break intends it: the run ends only when
   * a pull returns no node; a batch whose nodes are all filtered out is
   * skipped without writing a file or using a file number.
   */
  function IntendedSitemaps(rest: seq<Node>, cap: nat, k: nat): seq<SitemapFile>
    decreases |rest|
  {
    var n := Min(cap, |rest|);
    if n == 0 then []
    else if KeptUrls(rest[..n]) == [] then IntendedSitemaps(rest[n..], cap, k)
    else [SitemapFile(SitemapPath(k), KeptUrls(rest[..n]))] + IntendedSitemaps(rest[n..], cap, k + 1)
  }

  /** The intended loop numbers its files from `k` without gaps, each with 1 to `cap` entries. */
  lemma {:induction false} IntendedFileShape(rest: seq<Node>, cap: nat, k: nat)
    ensures forall i :: 0 <= i < |IntendedSitemaps(rest, cap, k)| ==>
      IntendedSitemaps(rest, cap, k)[i].path == SitemapPath(k + i) &&
      0 < |IntendedSitemaps(rest, cap, k)[i].urls| <= cap
    decreases |rest|
  {
    var n := Min(cap, |rest|);
    if n > 0 {
      if KeptUrls(rest[..n]) == [] {
        IntendedFileShape(rest[n..], cap, k);
      } else {
        IntendedFileShape(rest[n..], cap, k + 1);
        assert IntendedSitemaps(rest, cap, k)[1..] == IntendedSitemaps(rest[n..], cap, k + 1);
      }
    }
  }

  /** The intended loop writes every node with a truthy text, in feed order. */
  lemma {:induction false} IntendedWritesAllKept(rest: seq<Node>, cap: nat, k: nat)
    requires cap > 0
    ensures AllUrls(IntendedSitemaps(rest, cap, k)) == KeptUrls(rest)
    decreases |rest|
  {
    var n := Min(cap, |rest|);
    if n > 0 {
      var files := IntendedSitemaps(rest, cap, k);
      var head := KeptUrls(rest[..n]);
      assert rest == rest[..n] + rest[n..];
      KeptUrlsAppend(rest[..n], rest[n..]);
      assert KeptUrls(rest) == head + KeptUrls(rest[n..]);
      if head == [] {
        IntendedWritesAllKept(rest[n..], cap, k);
      } else {
        var tail := IntendedSitemaps(rest[n..], cap, k + 1);
        IntendedWritesAllKept(rest[n..], cap, k + 1);
        assert files == [SitemapFile(SitemapPath(k), head)] + tail;
        assert files[1..] == tail;
        assert AllUrls(files) == head + AllUrls(tail);
      }
    } else {
      assert rest == [];
    }
  }

  /** When no slice of `cap` nodes is entirely filtered out, the script writes what the intended loop writes. */
  lemma {:induction false} ScriptAgreesWithIntended(rest: seq<Node>, cap: nat, k: nat)
    requires cap > 0
    requires forall i :: 0 <= i < |Chunks(rest, cap)| ==> HasKept(Chunks(rest, cap)[i])
    ensures ScriptSitemaps(rest, cap, k) == IntendedSitemaps(rest, cap, k)
    decreases |rest|
  {
    if rest != [] {
      var n := Min(cap, |rest|);
      var chunks := Chunks(rest, cap);
      assert chunks[0] == rest[..n];
      KeptUrlsEmpty(rest[..n]);
      assert chunks[1..] == Chunks(rest[n..], cap);
      forall i | 0 <= i < |Chunks(rest[n..], cap)|
        ensures HasKept(Chunks(rest[n..], cap)[i])
      {
        assert Chunks(rest[n..], cap)[i] == chunks[i + 1];
      }
      ScriptAgreesWithIntended(rest[n..], cap, k + 1);
    }
  }

  /**
   * The feed `["https://a/1", "", "https://a/2"]` read two nodes at a time:
   * the empty text takes a slot of the first batch, so two files are written.
   */
  lemma ScriptSmallFeedScenario()
    ensures var feed := [Node(Some("https://a/1")), Node(Some("")), Node(Some("https://a/2"))];
      ScriptSitemaps(feed, 2, 0) == [
        SitemapFile("zip77.ru/sitemap0.xml", [Url(Some("https://a/1"), "0.3")]),
        SitemapFile("zip77.ru/sitemap1.xml", [Url(Some("https://a/2"), "0.3")])]
  {
    var feed := [Node(Some("https://a/1")), Node(Some("")), Node(Some("https://a/2"))];
    var u1, u2 := Url(Some("https://a/1"), "0.3"), Url(Some("https://a/2"), "0.3");
    assert KeptUrls(feed[..2]) == [u1] by {
      assert feed[..2][..1] == [feed[0]] && feed[..2][..1][..0] == [];
    }
    ScriptUnfold(feed, 2, 0);
    var rest := feed[2..];
    assert KeptUrls(rest[..1]) == [u2] by {
      assert rest[..1] == [feed[2]] && rest[..1][..0] == [];
    }
    ScriptUnfold(rest, 2, 1);
    var empty := rest[1..];
    assert empty == [] && empty[..0] == [];
    assert ScriptSitemaps(empty, 2, 2) == [];
    SitemapPathExamples();
  }

  /**
   * 120,000 nodes with text, read 50,000 at a time: three files of 50,000,
   * 50,000 and 20,000 entries, numbered 0 to 2, holding every node.
   */
  lemma ScriptMultiFileScenario(feed: seq<Node>)
    requires |feed| == 120000
    requires forall j :: 0 <= j < |feed| ==> Kept(feed[j])
    ensures var files := ScriptSitemaps(feed, MaxUrlsPerFile, 0);
      |files| == 3 &&
      files[0].path == SitemapPath(0) && |files[0].urls| == 50000 &&
      files[1].path == SitemapPath(1) && |files[1].urls| == 50000 &&
      files[2].path == SitemapPath(2) && |files[2].urls| == 20000 &&
      AllUrls(files) == KeptUrls(feed)
  {
    var cap := MaxUrlsPerFile;
    var files := ScriptSitemaps(feed, cap, 0);
    var chunks := Chunks(feed, cap);
    assert AllUrls(files) == KeptUrls(feed) && |files| == |chunks| by {
      ScriptWritesAllWhenAllKept(feed, cap);
    }
    assert |chunks| == 3 && |chunks[2]| == 20000 by {
      ChunkCount(feed, cap);
    }
    assert forall i :: 0 <= i < 3 ==> files[i].path == SitemapPath(i) by {
      ScriptFileShape(feed, cap, 0);
    }
    assert forall i :: 0 <= i < 3 ==> |files[i].urls| == |chunks[i]| by {
      ScriptFollowsChunks(feed, cap, 0);
      ChunksOfKept(feed, cap);
      forall i | 0 <= i < 3
        ensures |KeptUrls(chunks[i])| == |chunks[i]|
      {
        KeptUrlsOfKept(chunks[i]);
      }
    }
  }

  /** The first paths: `zip77.ru/sitemap0.xml`, `zip77.ru/sitemap1.xml`, ..., `zip77.ru/sitemap10.xml`. */
  lemma SitemapPathExamples()
    ensures SitemapPath(0) == "zip77.ru/sitemap0.xml"
    ensures SitemapPath(1) == "zip77.ru/sitemap1.xml"
    ensures SitemapPath(2) == "zip77.ru/sitemap2.xml"
    ensures SitemapPath(10) == "zip77.ru/sitemap10.xml"
  {
    assert SitemapPath(0) == "zip77.ru/sitemap0.xml" by {
      assert Decimal.FromNat(0) == "0";
      assert SitemapPath(0) == "zip77.ru/sitemap" + "0" + ".xml";
    }
    assert SitemapPath(1) == "zip77.ru/sitemap1.xml" by {
      assert Decimal.FromNat(1) == "1";
      assert SitemapPath(1) == "zip77.ru/sitemap" + "1" + ".xml";
    }
    assert SitemapPath(2) == "zip77.ru/sitemap2.xml" by {
      assert Decimal.FromNat(2) == "2";
      assert SitemapPath(2) == "zip77.ru/sitemap" + "2" + ".xml";
    }
    assert SitemapPath(10) == "zip77.ru/sitemap10.xml" by {
      assert Decimal.FromNat(10) == "10";
      assert SitemapPath(10) == "zip77.ru/sitemap" + "10" + ".xml";
    }
  }

  /** A batch whose nodes all have text yields one entry per node, with the node's text, in order. */
  lemma {:induction false} KeptUrlsOfKept(nodes: seq<Node>)
    requires forall j :: 0 <= j < |nodes| ==> Kept(nodes[j])
    ensures |KeptUrls(nodes)| == |nodes|
    ensures forall j :: 0 <= j < |nodes| ==> KeptUrls(nodes)[j] == Url(nodes[j].text, UrlPriority)
    decreases |nodes|
  {
    if nodes != [] {
      KeptUrlsOfKept(nodes[..|nodes| - 1]);
    }
  }
}
