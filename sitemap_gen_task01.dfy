/**
 * The generator of `sitemap_gen_task01.py`: the nodes matched by
 * `//offer/url` are read in batches of at most `cap` nodes; every node of a
 * batch, whatever its text, becomes a `url` entry of one shared `urlset`
 * root; a batch without nodes ends the run; every other batch is written to
 * `sitemap_01.xml`, `sitemap_02.xml`, ... and the root is cleared for the next.
 */
module SitemapGenTask01 {
  import opened Feed
  import opened Sitemap
  import Decimal

  /** `FILENAME_PREFIX`. */
  const FilenamePrefix: string := "sitemap"

  /** `f'{FILENAME_PREFIX}_{str(k).zfill(2)}.xml'`, relative to the working directory. */
  function SitemapPath(k: nat): string
  {
    FilenamePrefix + "_" + Decimal.ZFill(Decimal.FromNat(k), 2) + ".xml"
  }

  /** The entries a batch of nodes yields: one per node, with the node's text (even `None`) and the fixed priority. */
  function NodeUrls(nodes: seq<Node>): (urls: seq<Url>)
    ensures |urls| == |nodes|
  {
    if nodes == [] then []
    else NodeUrls(nodes[..|nodes| - 1]) + [Url(nodes[|nodes| - 1].text, UrlPriority)]
  }

  /**
   * The sitemaps the loop writes from the unread nodes `rest`, numbering
   * files from `k`: a batch is the next `Min(cap, |rest|)` nodes. Every node
   * yields an entry, so the root is empty exactly when the batch has no
   * node, and that batch ends the run.
   */
  function Task01Sitemaps(rest: seq<Node>, cap: nat, k: nat): seq<SitemapFile>
    decreases |rest|
  {
    var n := Min(cap, |rest|);
    if n == 0 then []
    else [SitemapFile(SitemapPath(k), NodeUrls(rest[..n]))] + Task01Sitemaps(rest[n..], cap, k + 1)
  }

  /** One iteration of the loop: the batch pulled from `feed[start..]` either ends the run or is its next file. */
  lemma Task01Step(feed: seq<Node>, start: nat, pos: nat, cap: nat, k: nat)
    requires start <= |feed| && pos == start + Min(cap, |feed| - start)
    ensures pos == start ==> Task01Sitemaps(feed[start..], cap, k) == []
    ensures pos > start ==>
      Task01Sitemaps(feed[start..], cap, k) ==
      [SitemapFile(SitemapPath(k), NodeUrls(feed[start..pos]))] + Task01Sitemaps(feed[pos..], cap, k + 1)
  {
    var rest := feed[start..];
    assert rest[..pos - start] == feed[start..pos];
    assert rest[pos - start..] == feed[pos..];
  }

  /**
   * The loop invariant is kept by one batch: an empty pull leaves exactly
   * the files already written, any other pull adds the next file.
   */
  lemma Task01LoopStep(feed: seq<Node>, cap: nat, written: seq<SitemapFile>, k: nat, start: nat, pos: nat, all: seq<SitemapFile>)
    requires start <= |feed| && pos == start + Min(cap, |feed| - start)
    requires written + Task01Sitemaps(feed[start..], cap, k) == all
    ensures pos == start ==> written == all
    ensures pos > start ==>
      written + [SitemapFile(SitemapPath(k), NodeUrls(feed[start..pos]))] + Task01Sitemaps(feed[pos..], cap, k + 1) == all
  {
    Task01Step(feed, start, pos, cap, k);
    if pos == start {
      ConcatNil(written);
    } else {
      var f := SitemapFile(SitemapPath(k), NodeUrls(feed[start..pos]));
      ConcatAssoc(written, [f], Task01Sitemaps(feed[pos..], cap, k + 1));
    }
  }

  /**
   * `for i_node in islice(iterator, cap)`: pulls up to `cap` nodes and
   * appends a `url` entry to `root` for each of them.
   */
  method ReadBatch(it: NodeIterator, root: UrlSet, cap: nat)
    requires it.Valid()
    modifies it, root
    ensures it.Valid()
    ensures it.pos == old(it.pos) + Min(cap, |it.nodes| - old(it.pos))
    ensures root.urls == old(root.urls) + NodeUrls(it.nodes[old(it.pos)..it.pos])
  {
    var taken: nat := 0;
    var exhausted := false;
    while taken < cap && !exhausted
      invariant it.Valid() && taken <= cap
      invariant it.pos == old(it.pos) + taken
      invariant exhausted ==> it.pos == |it.nodes|
      invariant root.urls == old(root.urls) + NodeUrls(it.nodes[old(it.pos)..it.pos])
      decreases cap - taken, if exhausted then 0 else 1
    {
      var next := it.Next();
      match next {
        case None =>
          exhausted := true;
        case Some(node) =>
          taken := taken + 1;
          NodeUrlsSnoc(it.nodes, old(it.pos), it.pos);
          ConcatAssoc(old(root.urls), NodeUrls(it.nodes[old(it.pos)..it.pos - 1]), [Url(node.text, UrlPriority)]);
          root.Append(Url(node.text, UrlPriority));
      }
    }
  }

  /**
   * The script's loop over the nodes of `feed`, pulling `cap` nodes per
   * batch (50,000 in the script), with one root reused for every file.
   */
  method Run(feed: seq<Node>, cap: nat) returns (written: seq<SitemapFile>)
    ensures written == Task01Sitemaps(feed, cap, 1)
  {
    var nodeIter := new NodeIterator(feed);
    var root := new UrlSet();
    var fileNumber: nat := 1;
    written := [];
    assert feed[nodeIter.pos..] == feed;
    ghost var all := Task01Sitemaps(feed, cap, fileNumber);
    while true
      invariant nodeIter.Valid() && root.urls == []
      invariant fileNumber == |written| + 1
      invariant written + Task01Sitemaps(feed[nodeIter.pos..], cap, fileNumber) == all
      decreases |feed| - nodeIter.pos
    {
      ghost var start := nodeIter.pos;
      ReadBatch(nodeIter, root, cap);
      assert nodeIter.nodes == feed && root.urls == NodeUrls(feed[start..nodeIter.pos]);
      Task01LoopStep(feed, cap, written, fileNumber, start, nodeIter.pos, all);
      if |root.urls| == 0 {
        break;
      }
      var file := SitemapFile(SitemapPath(fileNumber), root.urls);
      written := written + [file];
      root.Clear();
      fileNumber := fileNumber + 1;
    }
  }

  /** Pulling one more node adds its entry at the end. */
  lemma NodeUrlsSnoc(s: seq<Node>, i: nat, j: nat)
    requires i < j <= |s|
    ensures NodeUrls(s[i..j]) == NodeUrls(s[i..j - 1]) + [Url(s[j - 1].text, UrlPriority)]
  {
    assert s[i..j][..j - i - 1] == s[i..j - 1];
  }

  /** Entries of consecutive batches line up: the entries of `a + b` are those of `a` followed by those of `b`. */
  lemma {:induction false} NodeUrlsAppend(a: seq<Node>, b: seq<Node>)
    ensures NodeUrls(a + b) == NodeUrls(a) + NodeUrls(b)
    decreases |b|
  {
    if b == [] {
      assert a + b == a;
    } else {
      var ab := a + b;
      assert ab[..|ab| - 1] == a + b[..|b| - 1];
      NodeUrlsAppend(a, b[..|b| - 1]);
    }
  }

  /** Each node yields exactly one entry, at its own position, with its text and the fixed priority. */
  lemma {:induction false} NodeUrlsAt(nodes: seq<Node>)
    ensures forall i :: 0 <= i < |nodes| ==> NodeUrls(nodes)[i] == Url(nodes[i].text, UrlPriority)
    decreases |nodes|
  {
    if nodes != [] {
      NodeUrlsAt(nodes[..|nodes| - 1]);
    }
  }

  /**
   * File `i` holds exactly the `i`-th slice of `cap` nodes, one entry per
   * node: the root keeps nothing from the previous file, and the run writes
   * one file per slice, numbered from `k` without gaps.
   */
  lemma {:induction false} Task01FollowsChunks(rest: seq<Node>, cap: nat, k: nat)
    requires cap > 0
    ensures |Task01Sitemaps(rest, cap, k)| == |Chunks(rest, cap)|
    ensures forall i :: 0 <= i < |Chunks(rest, cap)| ==>
      Task01Sitemaps(rest, cap, k)[i] == SitemapFile(SitemapPath(k + i), NodeUrls(Chunks(rest, cap)[i]))
    decreases |rest|
  {
    if rest != [] {
      var n := Min(cap, |rest|);
      Task01FollowsChunks(rest[n..], cap, k + 1);
      assert Task01Sitemaps(rest, cap, k)[1..] == Task01Sitemaps(rest[n..], cap, k + 1);
      assert Chunks(rest, cap)[1..] == Chunks(rest[n..], cap);
    }
  }

  /**
   * The run ends only once the iterator is exhausted: every file but the
   * last has exactly `cap` entries, the last between 1 and `cap`, and the
   * files together hold every node of the feed, in order.
   */
  lemma Task01CoversFeed(feed: seq<Node>, cap: nat)
    requires cap > 0
    ensures AllUrls(Task01Sitemaps(feed, cap, 1)) == NodeUrls(feed)
    ensures forall i :: 0 <= i < |Task01Sitemaps(feed, cap, 1)| ==>
      0 < |Task01Sitemaps(feed, cap, 1)[i].urls| <= cap
    ensures forall i :: 0 <= i < |Task01Sitemaps(feed, cap, 1)| - 1 ==>
      |Task01Sitemaps(feed, cap, 1)[i].urls| == cap
    ensures (|Task01Sitemaps(feed, cap, 1)| - 1) * cap < |feed| <= |Task01Sitemaps(feed, cap, 1)| * cap
  {
    Task01FollowsChunks(feed, cap, 1);
    ChunkCount(feed, cap);
    FlattenChunks(feed, cap);
    Task01UrlsAreChunkUrls(feed, cap, 1);
  }

  /** The entries of all files are the entries of the slices put back together. */
  lemma {:induction false} Task01UrlsAreChunkUrls(rest: seq<Node>, cap: nat, k: nat)
    requires cap > 0
    ensures AllUrls(Task01Sitemaps(rest, cap, k)) == NodeUrls(Flatten(Chunks(rest, cap)))
    decreases |rest|
  {
    if rest != [] {
      var n := Min(cap, |rest|);
      Task01UrlsAreChunkUrls(rest[n..], cap, k + 1);
      assert Task01Sitemaps(rest, cap, k)[1..] == Task01Sitemaps(rest[n..], cap, k + 1);
      assert Chunks(rest, cap)[1..] == Chunks(rest[n..], cap);
      NodeUrlsAppend(rest[..n], Flatten(Chunks(rest[n..], cap)));
    }
  }

  /**
   * File numbers are zero-padded to two digits (`sitemap_01.xml` ...
   * `sitemap_09.xml`), and longer numbers are written as they are
   * (`sitemap_10.xml`, `sitemap_100.xml`).
   */
  lemma Task01PathPadding(k: nat)
    ensures k < 10 ==> SitemapPath(k) == FilenamePrefix + "_0" + Decimal.FromNat(k) + ".xml"
    ensures k >= 10 ==> SitemapPath(k) == FilenamePrefix + "_" + Decimal.FromNat(k) + ".xml"
  {
    var s := Decimal.FromNat(k);
    if k < 10 {
      assert Decimal.ZFill(s, 2) == "0" + s;
    }
  }

  /** Distinct file numbers give distinct paths, so no sitemap overwrites another. */
  lemma Task01PathInjective(a: nat, b: nat)
    ensures SitemapPath(a) == SitemapPath(b) ==> a == b
  {
    if SitemapPath(a) == SitemapPath(b) {
      var pa, pb := SitemapPath(a), SitemapPath(b);
      var pre := FilenamePrefix + "_";
      assert pa[|pre|..|pa| - 4] == Decimal.ZFill(Decimal.FromNat(a), 2);
      assert pb[|pre|..|pb| - 4] == Decimal.ZFill(Decimal.FromNat(b), 2);
      Decimal.ZFillFromNatInjective(a, b, 2);
    }
  }

  /** The first paths: `sitemap_01.xml`, `sitemap_02.xml`, `sitemap_03.xml`, and `sitemap_100.xml`. */
  lemma Task01PathExamples()
    ensures SitemapPath(1) == "sitemap_01.xml"
    ensures SitemapPath(2) == "sitemap_02.xml"
    ensures SitemapPath(3) == "sitemap_03.xml"
    ensures SitemapPath(100) == "sitemap_100.xml"
  {
    assert SitemapPath(1) == "sitemap_01.xml" by {
      assert Decimal.FromNat(1) == "1";
      assert Decimal.ZFill("1", 2) == "01";
    }
    assert SitemapPath(2) == "sitemap_02.xml" by {
      assert Decimal.FromNat(2) == "2";
      assert Decimal.ZFill("2", 2) == "02";
    }
    assert SitemapPath(3) == "sitemap_03.xml" by {
      assert Decimal.FromNat(3) == "3";
      assert Decimal.ZFill("3", 2) == "03";
    }
    assert SitemapPath(100) == "sitemap_100.xml" by {
      assert Decimal.FromNat(1) == "1";
      assert Decimal.FromNat(10) == "10";
      assert Decimal.FromNat(100) == "100";
      assert Decimal.ZFill("100", 2) == "100";
    }
  }

  /**
   * 120,000 nodes read 50,000 at a time: three files of 50,000, 50,000 and
   * 20,000 entries, numbered 1 to 3, holding every node.
   */
  lemma Task01MultiFileScenario(feed: seq<Node>)
    requires |feed| == 120000
    ensures var files := Task01Sitemaps(feed, MaxUrlsPerFile, 1);
      |files| == 3 &&
      files[0].path == SitemapPath(1) && |files[0].urls| == 50000 &&
      files[1].path == SitemapPath(2) && |files[1].urls| == 50000 &&
      files[2].path == SitemapPath(3) && |files[2].urls| == 20000 &&
      AllUrls(files) == NodeUrls(feed)
  {
    var cap := MaxUrlsPerFile;
    var chunks := Chunks(feed, cap);
    assert |chunks| == 3 && |chunks[2]| == 20000 by {
      ChunkCount(feed, cap);
    }
    Task01FollowsChunks(feed, cap, 1);
    Task01CoversFeed(feed, cap);
  }
}
