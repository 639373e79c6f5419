# Sitemap generator, modelled in Dafny

The repository turns a product feed into XML sitemaps. Two scripts do it, each
with its own loop:

- `sitemap_gen_script.py` reads the feed's `url` nodes through one lazy
  iterator, 50,000 nodes per batch. Every node whose text is truthy in Python
  becomes a `url` entry (`loc` = the node's text, `priority` = `"0.3"`) of a
  fresh `urlset` root. The first batch that yields no entry ends the loop.
  Every other batch is written to `zip77.ru/sitemap<k>.xml` (k = 0, 1, ...)
  and gets a `sitemap/loc` entry in a long-lived `sitemapindex` root. After
  the loop that index is written to `zip77.ru/sitemap-index.xml`, but only
  when it lists more than one sitemap.
- `sitemap_gen_task01.py` reads the nodes matched by `//offer/url` in batches
  of 50,000 with no filter: every node, even one without text, yields an
  entry. It reuses one `urlset` root, which it clears after each write. It
  names files `sitemap_01.xml`, `sitemap_02.xml`, ...: the number starts at
  1 and is zero-padded to two digits. A pull that returns no node ends the
  loop.

The model has five modules:

- `Feed` (`feed.dfy`): a matched node is `Node(text: Option<string>)`. The
  lxml iterator is the class `NodeIterator`: a fixed node sequence and a
  position that `Next` advances. `Chunks` is the reference partition of a
  sequence into slices of `cap` nodes. It is what successive
  `islice(iterator, cap)` pulls return.
- `Sitemap` (`sitemap.dfy`): the `urlset` root is the class `UrlSet`, whose
  `urls` field the methods `Append` and `Clear` change in place. A written
  file is recorded as `SitemapFile(path, urls)`.
- `Decimal` (`decimal.dfy`): Python's `str(n)` for a non-negative int
  (`FromNat`) and `str.zfill` on digit strings (`ZFill`). Each comes with a reading-back
  function `Value` and round-trip lemmas.
- `SitemapGenScript` (`sitemap_gen_script.dfy`) models the first script:
  - `ReadBatch` is the `islice` loop with its filter, proved against
    `KeptUrls`;
  - `Run` is the `while True` loop, proved against the function
    `ScriptSitemaps`, which describes the files the loop writes;
  - the index root is the class `SitemapIndex`;
  - `IntendedSitemaps` describes the loop as the comment on its `break`
    describes it (see Findings).
- `SitemapGenTask01` (`sitemap_gen_task01.dfy`) models the second script:
  - `ReadBatch` is the unfiltered `islice` loop, proved against `NodeUrls`;
  - `Run` is the `while True` loop with the reused, cleared root, proved
    against `Task01Sitemaps`.

The batch size is the parameter `cap`. The scenario lemmas use the scripts'
value `MaxUrlsPerFile` = 50,000.

## Model

| member | source | states |
|---|---|---|
| `Feed.NodeIterator.constructor` | sitemap_gen_script.py:28 | a fresh iterator over the matched nodes starts before the first node |
| `Feed.NodeIterator.Next` | sitemap_gen_script.py:39 | a pull returns the next node in document order and advances by one; once exhausted it returns nothing and stays exhausted |
| `Feed.Chunks` | sitemap_gen_task01.py:21 | the slices successive pulls of `cap` nodes return are non-empty, at most `cap` long, all but the last exactly `cap` long, and there are none exactly when there are no nodes |
| `Feed.FlattenChunks` | sitemap_gen_task01.py:21 | the slices put back together are the whole node sequence, in order |
| `Feed.ChunkCount` | sitemap_gen_task01.py:20-27 | there are ceil(n / cap) slices, and the last holds what the full slices leave |
| `Sitemap.UrlSet.constructor` | sitemap_gen_script.py:34 | a new `urlset` root has no `url` child |
| `Sitemap.UrlSet.Append` | sitemap_gen_script.py:43-52 | a new `url` child goes after the existing ones, which are unchanged |
| `Sitemap.UrlSet.Clear` | sitemap_gen_task01.py:33 | after `clear()` the root has no child left |
| `Decimal.FromNat` | sitemap_gen_script.py:60 | `str(n)` for a non-negative int: its decimal digits, most significant first (properties in the rows below) |
| `Decimal.FromNatLength` | sitemap_gen_script.py:60 | `str(n)` is never empty and is a single digit exactly when n < 10 |
| `Decimal.FromNatDigits` | sitemap_gen_script.py:60 | `str(n)` is made of decimal digits and has no leading zero unless n = 0 |
| `Decimal.ValueOfFromNat` | sitemap_gen_script.py:60 | reading the digits of `str(n)` back gives n |
| `Decimal.FromNatInjective` | sitemap_gen_script.py:60 | distinct numbers render as distinct strings |
| `Decimal.ZFill` | sitemap_gen_task01.py:29 | on a digit string, `zfill(w)` yields max(w, len) characters |
| `Decimal.ZFillPads` | sitemap_gen_task01.py:29 | `zfill` keeps the string as a suffix and adds only `'0'`s in front |
| `Decimal.ValueOfZFill` | sitemap_gen_task01.py:29 | the padded number still reads back as n |
| `Decimal.ZFillFromNatInjective` | sitemap_gen_task01.py:29 | distinct numbers stay distinct once padded to the same width |
| `SitemapGenScript.SitemapPath` | sitemap_gen_script.py:60 | file k is `zip77.ru/sitemap` + `str(k)` + `.xml`, unpadded |
| `SitemapGenScript.Kept` | sitemap_gen_script.py:40 | the filter: a node whose text is `None` or `""` is dropped, any other text (blanks too) is kept |
| `SitemapGenScript.KeptUrls` | sitemap_gen_script.py:39-52 | a batch yields at most one entry per node |
| `SitemapGenScript.KeptUrlsShape` | sitemap_gen_script.py:40-52 | every entry has a non-empty `loc` and priority `"0.3"` |
| `SitemapGenScript.KeptUrlsSnoc` | sitemap_gen_script.py:39-52 | loop-step helper for `ReadBatch`: `KeptUrls` unfolded on one more pulled node |
| `SitemapGenScript.KeptUrlsAppend` | sitemap_gen_script.py:39-52 | the entries of consecutive nodes are the entries of each part in order |
| `SitemapGenScript.KeptUrlsEmpty` | sitemap_gen_script.py:40 | a batch yields no entry if and only if none of its nodes has a truthy text |
| `SitemapGenScript.KeptUrlsOfKept` | sitemap_gen_script.py:40-52 | when every text is truthy, entry i is node i's text with priority `"0.3"` |
| `SitemapGenScript.ScriptSitemaps` | sitemap_gen_script.py:32-70 | the files the loop writes: batches of min(cap, nodes left) nodes; the first batch without a kept node ends the run; every other batch is file k, k+1, ... (what `Run` is proved to write) |
| `SitemapGenScript.ScriptConsumed` | sitemap_gen_script.py:39 | the number of nodes the loop pulls, which `Run` returns as `consumed`, never exceeds the length of the feed |
| `SitemapGenScript.ScriptStep` | sitemap_gen_script.py:32-56 | loop-step helper for `Run`: `ScriptSitemaps` unfolded on one batch (an empty batch ends the run, any other is the next file) |
| `SitemapGenScript.ScriptStepConsumed` | sitemap_gen_script.py:39-56 | loop-step helper for `Run`: `ScriptConsumed` unfolded on one batch (an empty batch is the last one pulled, any other is followed by the rest of the run) |
| `SitemapGenScript.ScriptUnfold` | sitemap_gen_script.py:39-70 | proof helper: `ScriptSitemaps` and `ScriptConsumed` unfolded on a batch with entries |
| `SitemapGenScript.SitemapIndex.constructor` | sitemap_gen_script.py:23 | the index root starts with no `sitemap` child |
| `SitemapGenScript.SitemapIndex.AddSitemap` | sitemap_gen_script.py:65-68 | one `sitemap/loc` entry with the given path is appended, the others unchanged |
| `SitemapGenScript.ReadBatch` | sitemap_gen_script.py:39-52 | pulls min(cap, nodes left) nodes and appends the entries of the kept ones, in order, after the root's existing children |
| `SitemapGenScript.Run` | sitemap_gen_script.py:26-75 | writes exactly `ScriptSitemaps(feed, cap, 0)`; the iterator stops at `consumed == ScriptConsumed(feed, cap)` nodes, at most the feed's length; file i goes to `zip77.ru/sitemap<i>.xml` with 1 to cap entries; index entry i is file i's path; the index is written if and only if more than one sitemap was, at `zip77.ru/sitemap-index.xml` with those entries |
| `SitemapGenScript.ScriptLoopStep` | sitemap_gen_script.py:32-70 | loop-step helper for `Run`: its invariant survives an iteration, and the break leaves exactly the files of the whole run |
| `SitemapGenScript.ScriptOutputShape` | sitemap_gen_script.py:31-70 | the files of a run are numbered from 0 without gaps, hold 1 to cap entries each, and are listed in the index under their own paths in write order |
| `SitemapGenScript.PathsSnoc` | sitemap_gen_script.py:65-68 | loop-step helper for `Run`: `Paths` unfolded on one more file |
| `SitemapGenScript.PathsAt` | sitemap_gen_script.py:65-68 | the index has one entry per file, and entry i is file i's path |
| `SitemapGenScript.ScriptFileShape` | sitemap_gen_script.py:31-70 | files are numbered k, k+1, ... with no gap, and each holds between 1 and cap entries, so no empty sitemap is written |
| `SitemapGenScript.ScriptUrlsInOrder` | sitemap_gen_script.py:32-70 | the entries of all files, in file order, are the entries of the kept nodes among the first `ScriptConsumed(feed, cap)` nodes (the `consumed` that `Run` returns), in feed order |
| `SitemapGenScript.ScriptConsumedSlots` | sitemap_gen_script.py:39-40 | filtered nodes still use their slot: `ScriptConsumed`, the number of nodes `Run` pulls, is cap per file plus one final batch, or the whole feed if that is shorter |
| `SitemapGenScript.ScriptFollowsChunks` | sitemap_gen_script.py:39-56 | file i is made of the i-th slice of cap nodes, and the run stops at the first slice without a kept node |
| `SitemapGenScript.ScriptReachesEndIff` | sitemap_gen_script.py:54-56 | the loop writes one file per slice if and only if every slice holds a node with a truthy text |
| `SitemapGenScript.ScriptWritesAllWhenAllKept` | sitemap_gen_script.py:32-70 | when every text is truthy, every node is written, in order, one file per slice |
| `SitemapGenScript.ScriptConsumedWhenReachingEnd` | sitemap_gen_script.py:39-56 | a run that writes one file per slice has `ScriptConsumed(feed, cap)` = the feed's length, so `Run`'s iterator reaches the end |
| `SitemapGenScript.ChunksOfKept` | sitemap_gen_script.py:39-40 | when every node is kept, so is every node of every slice |
| `SitemapGenScript.ScriptStopsEarly` | sitemap_gen_script.py:54-56 | a concrete feed whose only address follows a batch without text: nothing is written and that address is lost |
| `SitemapGenScript.ScriptDropsAfterFilteredBatch` | sitemap_gen_script.py:54-56 | whenever the first cap nodes have no truthy text and a later node has one, the script writes nothing, while the intended loop writes every kept node |
| `SitemapGenScript.SitemapPathInjective` | sitemap_gen_script.py:60 | distinct file numbers give distinct paths, so no sitemap overwrites another |
| `SitemapGenScript.IndexPathIsNoSitemapPath` | sitemap_gen_script.py:74 | the index path is never a sitemap's path |
| `SitemapGenScript.IntendedSitemaps` | sitemap_gen_script.py:54-56 | the corrected loop: the run ends only on a batch without nodes; a batch whose nodes are all filtered out is skipped without using a file number |
| `SitemapGenScript.IntendedFileShape` | sitemap_gen_script.py:54-70 | the corrected loop numbers files from k without gaps, each with 1 to cap entries |
| `SitemapGenScript.IntendedWritesAllKept` | sitemap_gen_script.py:54-56 | the corrected loop writes every node with a truthy text, in feed order |
| `SitemapGenScript.ScriptAgreesWithIntended` | sitemap_gen_script.py:54-56 | when no slice is entirely filtered out, the script writes exactly what the corrected loop writes |
| `SitemapGenScript.ScriptSmallFeedScenario` | sitemap_gen_script.py:32-70 | the feed ["https://a/1", "", "https://a/2"] read 2 at a time gives `sitemap0.xml` with the first address and `sitemap1.xml` with the second |
| `SitemapGenScript.ScriptMultiFileScenario` | sitemap_gen_script.py:39-70 | 120,000 kept nodes give files 0..2 of 50,000, 50,000 and 20,000 entries holding every node |
| `SitemapGenScript.SitemapPathExamples` | sitemap_gen_script.py:60 | the first paths are `zip77.ru/sitemap0.xml`, `...1.xml`, `...2.xml`, and file 10 is `zip77.ru/sitemap10.xml` |
| `SitemapGenTask01.SitemapPath` | sitemap_gen_task01.py:29 | file k is `sitemap_` + `str(k).zfill(2)` + `.xml` in the working directory |
| `SitemapGenTask01.Task01Sitemaps` | sitemap_gen_task01.py:20-34 | the files the loop writes: batches of min(cap, nodes left) nodes, one entry per node; an empty batch ends the run; every other batch is file k, k+1, ... (what `Run` is proved to write) |
| `SitemapGenTask01.NodeUrls` | sitemap_gen_task01.py:21-24 | a batch yields exactly one entry per node |
| `SitemapGenTask01.NodeUrlsSnoc` | sitemap_gen_task01.py:21-24 | loop-step helper for `ReadBatch`: `NodeUrls` unfolded on one more pulled node |
| `SitemapGenTask01.NodeUrlsAppend` | sitemap_gen_task01.py:21-24 | the entries of consecutive nodes are the entries of each part in order |
| `SitemapGenTask01.NodeUrlsAt` | sitemap_gen_task01.py:22-24 | entry i has node i's text (even `None`) and priority `URL_PRIORITY` = `"0.3"` |
| `SitemapGenTask01.Task01Step` | sitemap_gen_task01.py:20-27 | loop-step helper for `Run`: `Task01Sitemaps` unfolded on one pull (an empty pull ends the run, any other is the next file) |
| `SitemapGenTask01.Task01LoopStep` | sitemap_gen_task01.py:20-34 | loop-step helper for `Run`: its invariant survives an iteration, and the break leaves exactly the files of the whole run |
| `SitemapGenTask01.ReadBatch` | sitemap_gen_task01.py:21-24 | pulls min(cap, nodes left) nodes and appends one entry per node, in order, after the root's existing children |
| `SitemapGenTask01.Run` | sitemap_gen_task01.py:14-34 | writes exactly `Task01Sitemaps(feed, cap, 1)` (its loop invariant keeps the root empty at the start of every batch, so the `clear()` is needed) |
| `SitemapGenTask01.Task01FollowsChunks` | sitemap_gen_task01.py:20-34 | one file per slice of cap nodes; file i is `sitemap_<i+1>` padded, holding exactly slice i's entries, with nothing carried over from the previous file |
| `SitemapGenTask01.Task01CoversFeed` | sitemap_gen_task01.py:20-34 | the files hold every node in order; every file but the last has exactly cap entries, the last 1 to cap; there are ceil(n / cap) files |
| `SitemapGenTask01.Task01UrlsAreChunkUrls` | sitemap_gen_task01.py:21-34 | the entries of all files are the entries of the slices put back together |
| `SitemapGenTask01.Task01PathPadding` | sitemap_gen_task01.py:29 | numbers below 10 get one leading `'0'`; longer numbers are unchanged |
| `SitemapGenTask01.Task01PathInjective` | sitemap_gen_task01.py:29 | distinct file numbers give distinct file names |
| `SitemapGenTask01.Task01PathExamples` | sitemap_gen_task01.py:29 | files 1, 2, 3 are `sitemap_01.xml`, `sitemap_02.xml`, `sitemap_03.xml`, and file 100 is `sitemap_100.xml` |
| `SitemapGenTask01.Task01MultiFileScenario` | sitemap_gen_task01.py:19-34 | 120,000 nodes give files 1..3 of 50,000, 50,000 and 20,000 entries holding every node |

## Left out

- Parsing the gzip feed with lxml, and the `IOError` / `XMLSyntaxError` handlers that only print a message (`sitemap_gen_script.py:8-16`, `sitemap_gen_task01.py:12`). Both are foreign library calls and I/O.
- The query semantics of `find('shop/offers').iter('url')` and `iterfind('//offer/url')`. The matched nodes are the input sequence.
- XML serialisation: pretty-printing, UTF-8, the XML declaration, escaping and the `xmlns` attribute. A write is recorded as the file's path and its entries. lxml's `clear()` in `sitemap_gen_task01.py:33` also removes the root's `xmlns` attribute, so files after the first are written without the namespace. Attributes are not modelled, so the model does not show this.
- Creating the output directory and opening file handles. A failing write is not modelled.
- `Path('zip77.ru/')` is rendered as the prefix `zip77.ru/`. Other platforms' path separators are not modelled.
- The laziness of the iterator and memory use. The feed is a finite sequence.
- `ZFill` models `str.zfill` on digit strings only: Python puts the padding after a leading sign (`"-5".zfill(3) == "-05"`), which `ZFill` does not. The counter padded at `sitemap_gen_task01.py:29` starts at 1 and only grows, so it never has a sign.
- Features that exist only as TODO comments: command-line arguments, a configurable prefix, priority and batch size, gzip output, robots.txt checks.
- The batch size is the parameter `cap`; the scripts fix it at 50,000. With `cap` = 0, which the scripts never use, both loops write nothing.
- Three behaviours of the code that are easy to misread, each modelled as written:
  - the first script's first file is `sitemap0.xml`: the counter starts at 0 (`sitemap_gen_script.py:31`) and goes into the name unpadded (`sitemap_gen_script.py:60`);
  - whitespace-only text is kept, because the test at `sitemap_gen_script.py:40` is Python truthiness;
  - a node without text still uses one of its batch's slots, because `islice` counts the nodes it pulls before the filter runs (`sitemap_gen_script.py:39-40`), so ["https://a/1", "", "https://a/2"] read 2 at a time gives two files.

## Findings

| source | as written | input that shows it | evidently intended | confidence | as-written member | corrected member |
|---|---|---|---|---|---|---|
| sitemap_gen_script.py:54-56 | the loop ends at the first batch that yields no entry, though the comment says it checks whether the iterator is exhausted | 50,000 nodes without text followed by one node with an address: nothing is written and the address is lost | the loop ends only when a pull returns no node; a batch whose nodes are all filtered out is skipped | not executed | `SitemapGenScript.ScriptDropsAfterFilteredBatch` | `SitemapGenScript.IntendedWritesAllKept` |

`IntendedSitemaps` is the corrected loop. `IntendedFileShape` and
`IntendedWritesAllKept` prove its properties, and `ScriptAgreesWithIntended`
shows that the two loops agree whenever no slice of `cap` nodes is entirely
filtered out. `Run` models the loop as written.
