/**
 * Sitemap content shared by both generators: the `url` entries of a
 * `urlset` root element, the root element itself (built up in place), and
 * a written sitemap file recorded as its path and its entries.
 */
module Sitemap {
  import opened Feed

  /** The `priority` text every entry carries (`URL_PRIORITY`). */
  const UrlPriority: string := "0.3"

  /** The number of nodes each batch pulls from the feed iterator. */
  const MaxUrlsPerFile: nat := 50000

  /** A `url` element: the text of its `loc` child and of its `priority` child. */
  datatype Url = Url(loc: Option<string>, priority: string)

  /** A sitemap file as written: where it went and the `url` entries of its `urlset` root. */
  datatype SitemapFile = SitemapFile(path: string, urls: seq<Url>)

  /** The `urlset` root element; `urls` are its `url` children, in document order. */
  class UrlSet {
    var urls: seq<Url>

    constructor ()
      ensures urls == []
    {
      urls := [];
    }

    /** `etree.SubElement(root, 'url')` with its `loc` and `priority` children. */
    method Append(u: Url)
      modifies this
      ensures urls == old(urls) + [u]
    {
      urls := urls + [u];
    }

    /** lxml's `clear()`: every child is removed. */
    method Clear()
      modifies this
      ensures urls == []
    {
      urls := [];
    }
  }

  /** The entries of all `files`, file after file. */
  function AllUrls(files: seq<SitemapFile>): seq<Url>
  {
    if files == [] then [] else files[0].urls + AllUrls(files[1..])
  }

  // A proof step for callers that unfold `AllUrls` on a non-empty list, not a property of the scripts.
  lemma AllUrlsCons(f: SitemapFile, files: seq<SitemapFile>)
    ensures AllUrls([f] + files) == f.urls + AllUrls(files)
  {
    assert ([f] + files)[1..] == files;
  }
}
