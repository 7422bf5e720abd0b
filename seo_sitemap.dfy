/**
 * The three sitemap documents of the programmatic SEO generator
 * (`generateSitemap`, `generateMainSitemap`, `generateSitemapIndex` in
 * programmatic-seo/generate-pages.js), following the sitemaps.org 0.9 protocol.
 * The `lastmod` date, which the source reads from the wall clock, is a parameter.
 */
module SeoSitemap {
  import opened Wrappers
  import opened Strings

  /** One `<url>` element of a `<urlset>`. */
  datatype UrlEntry = UrlEntry(loc: string, lastmod: string, changefreq: string, priority: string)

  /** The declaration and opening tag of a `<urlset>` document. */
  const UrlSetHead := "<?xml version=\"1.0\" encoding=\"UTF-8\"?>\n<urlset xmlns=\"http://www.sitemaps.org/schemas/sitemap/0.9\">\n"
  const UrlSetClose := "</urlset>"
  /** The declaration and opening tag of a `<sitemapindex>` document. */
  const IndexHead := "<?xml version=\"1.0\" encoding=\"UTF-8\"?>\n<sitemapindex xmlns=\"http://www.sitemaps.org/schemas/sitemap/0.9\">\n"
  const IndexClose := "</sitemapindex>"

  // The fixed text around the four fields of a `<url>` element.
  const LocOpen := "  <url>\n    <loc>"
  const LastmodOpen := "</loc>\n    <lastmod>"
  const ChangefreqOpen := "</lastmod>\n    <changefreq>"
  const PriorityOpen := "</changefreq>\n    <priority>"
  const EntryClose := "</priority>\n  </url>\n"

  /** The text of one `<url>` element, indented as the generator writes it. */
  function UrlBlock(e: UrlEntry): string
  {
    LocOpen + e.loc + LastmodOpen + e.lastmod + ChangefreqOpen + e.changefreq + PriorityOpen + e.priority + EntryClose
  }

  /** The `<url>` elements of `es`, in order. */
  function UrlBlocks(es: seq<UrlEntry>): string
  {
    if es == [] then "" else UrlBlocks(es[..|es| - 1]) + UrlBlock(es[|es| - 1])
  }

  /** A complete `<urlset>` document listing `es`. */
  function UrlSet(es: seq<UrlEntry>): string
  {
    UrlSetHead + UrlBlocks(es) + UrlSetClose
  }

  /** The entries of sitemap-programmatic.xml: one per generated URL, monthly, priority 0.6. */
  function ProgrammaticEntries(urls: seq<string>, today: string): (es: seq<UrlEntry>)
    ensures |es| == |urls|
    ensures forall i :: 0 <= i < |urls| ==> es[i] == UrlEntry(urls[i], today, "monthly", "0.6")
  {
    seq(|urls|, i requires 0 <= i < |urls| => UrlEntry(urls[i], today, "monthly", "0.6"))
  }

  /** The document head and the first `i + 1` blocks: the head and the first `i`, then block `i`. */
  lemma HeadBlocksSnoc(es: seq<UrlEntry>, i: nat)
    requires i < |es|
    ensures UrlSetHead + UrlBlocks(es[..i + 1]) == UrlSetHead + UrlBlocks(es[..i]) + UrlBlock(es[i])
  {
    assert es[..i + 1][..i] == es[..i];
    Associative(UrlSetHead, UrlBlocks(es[..i]), UrlBlock(es[i]));
  }

  /** `generateSitemap(urls)`: appends one `<url>` block per URL to the document text. */
  method GenerateSitemap(urls: seq<string>, today: string) returns (xml: string)
    ensures xml == UrlSet(ProgrammaticEntries(urls, today))
  {
    ghost var es := ProgrammaticEntries(urls, today);
    xml := UrlSetHead;
    var i := 0;
    while i < |urls|
      invariant 0 <= i <= |urls|
      invariant xml == UrlSetHead + UrlBlocks(es[..i])
    {
      HeadBlocksSnoc(es, i);
      xml := xml + UrlBlock(UrlEntry(urls[i], today, "monthly", "0.6"));
      i := i + 1;
    }
    assert es[..i] == es;
    xml := xml + UrlSetClose;
  }

  /**
   * `generateMainSitemap()`: the source's fixed template, its literal text cut
   * at the field boundaries.
   */
  function MainSitemap(toolUrl: string, today: string): string
  {
    "<?xml version=\"1.0\" encoding=\"UTF-8\"?>\n<urlset xmlns=\"http://www.sitemaps.org/schemas/sitemap/0.9\">\n"
    + ("  <url>\n    <loc>" + toolUrl + "</loc>\n    <lastmod>" + today + "</lastmod>\n    <changefreq>"
       + "weekly" + "</changefreq>\n    <priority>" + "1.0" + "</priority>\n  </url>\n")
    + ("  <url>\n    <loc>" + (toolUrl + "/pricing") + "</loc>\n    <lastmod>" + today + "</lastmod>\n    <changefreq>"
       + "monthly" + "</changefreq>\n    <priority>" + "0.8" + "</priority>\n  </url>\n")
    + "</urlset>"
  }

  /** The main sitemap is a `<urlset>` of exactly two entries: the root (weekly, 1.0), then /pricing (monthly, 0.8). */
  lemma MainSitemapEntries(toolUrl: string, today: string)
    ensures MainSitemap(toolUrl, today)
         == UrlSet([UrlEntry(toolUrl, today, "weekly", "1.0"), UrlEntry(toolUrl + "/pricing", today, "monthly", "0.8")])
  {
    var e0, e1 := UrlEntry(toolUrl, today, "weekly", "1.0"), UrlEntry(toolUrl + "/pricing", today, "monthly", "0.8");
    var es := [e0, e1];
    assert es[..1] == [e0] && [e0][..0] == [];
    assert UrlBlocks([e0]) == UrlBlock(e0) by {
      assert UrlBlocks([e0]) == "" + UrlBlock(e0);
    }
    assert UrlBlocks(es) == UrlBlock(e0) + UrlBlock(e1);
    Associative(UrlSetHead, UrlBlock(e0), UrlBlock(e1));
  }

  // The text of one `<sitemap>` element of an index.
  const SitemapOpen := "  <sitemap>\n    <loc>"
  const SitemapClose := "</loc>\n  </sitemap>\n"

  /** The `<sitemap>` elements of a sitemap index, in order. */
  function IndexBlocks(locs: seq<string>): string
  {
    if locs == [] then "" else SitemapOpen + locs[0] + SitemapClose + IndexBlocks(locs[1..])
  }

  /** A `<sitemapindex>` document referencing `locs`. */
  function SitemapIndexOf(locs: seq<string>): string
  {
    IndexHead + IndexBlocks(locs) + IndexClose
  }

  /**
   * `generateSitemapIndex()`: the source's fixed template, its literal text cut
   * at the field boundaries.
   */
  function SitemapIndex(toolUrl: string): string
  {
    "<?xml version=\"1.0\" encoding=\"UTF-8\"?>\n<sitemapindex xmlns=\"http://www.sitemaps.org/schemas/sitemap/0.9\">\n"
    + ("  <sitemap>\n    <loc>" + (toolUrl + "/sitemap-main.xml") + "</loc>\n  </sitemap>\n"
       + ("  <sitemap>\n    <loc>" + (toolUrl + "/sitemap-programmatic.xml") + "</loc>\n  </sitemap>\n" + ""))
    + "</sitemapindex>"
  }

  /** The index references sitemap-main.xml, then sitemap-programmatic.xml, and nothing else. */
  lemma SitemapIndexOrder(toolUrl: string)
    ensures SitemapIndex(toolUrl) == SitemapIndexOf([toolUrl + "/sitemap-main.xml", toolUrl + "/sitemap-programmatic.xml"])
  {
    var locs := [toolUrl + "/sitemap-main.xml", toolUrl + "/sitemap-programmatic.xml"];
    assert locs[1..] == [locs[1]] && locs[1..][1..] == [];
    assert IndexBlocks(locs[1..]) == SitemapOpen + locs[1] + SitemapClose + "";
    assert IndexBlocks(locs) == SitemapOpen + locs[0] + SitemapClose + IndexBlocks(locs[1..]);
  }

  // Reading a <urlset> back, for fields that contain no '<'.

  /** The text of `s` after the literal `open`, split at the first '<': the field value and what follows it. */
  function ReadField(s: string, open: string): Option<(string, string)>
  {
    if !(open <= s) then None
    else
      var rest := s[|open|..];
      match IndexOf(rest, "<")
      case None => None
      case Some(k) => Some((rest[..k], rest[k..]))
  }

  /** Reads one `<url>` element from the front of `s`. */
  function ReadEntry(s: string): Option<(UrlEntry, string)>
  {
    match ReadField(s, LocOpen)
    case None => None
    case Some((loc, s1)) =>
      match ReadField(s1, LastmodOpen)
      case None => None
      case Some((lastmod, s2)) =>
        match ReadField(s2, ChangefreqOpen)
        case None => None
        case Some((changefreq, s3)) =>
          match ReadField(s3, PriorityOpen)
          case None => None
          case Some((priority, s4)) =>
            if EntryClose <= s4 then Some((UrlEntry(loc, lastmod, changefreq, priority), s4[|EntryClose|..]))
            else None
  }

  /** Reads `<url>` elements up to the closing `</urlset>`. */
  function ReadEntries(s: string): Option<seq<UrlEntry>>
    decreases |s|
  {
    if s == UrlSetClose then Some([])
    else match ReadEntry(s)
      case None => None
      case Some((e, rest)) =>
        if |rest| < |s| then
          match ReadEntries(rest)
          case None => None
          case Some(es) => Some([e] + es)
        else None
  }

  /** Reads the entries of a `<urlset>` document. */
  function ParseUrlSet(xml: string): Option<seq<UrlEntry>>
  {
    if UrlSetHead <= xml then ReadEntries(xml[|UrlSetHead|..]) else None
  }

  /** An entry whose fields the reader can take back: they hold no '<'. */
  predicate PlainEntry(e: UrlEntry)
  {
    '<' !in e.loc && '<' !in e.lastmod && '<' !in e.changefreq && '<' !in e.priority
  }

  lemma FirstAngle(v: string, tail: string)
    requires '<' !in v && |tail| > 0 && tail[0] == '<'
    ensures IndexOf(v + tail, "<") == Some(|v|)
  {
    var s := v + tail;
    IndexOfFirst(s, "<");
    assert OccursAt(s, "<", |v|);
    assert forall j: nat :: j < |v| ==> s[j] == v[j];
    forall j: nat | j < |v|
      ensures !OccursAt(s, "<", j)
    {
      if j + 1 <= |s| {
        assert s[j..j + 1][0] == s[j] == v[j];
      }
    }
  }

  lemma ReadFieldOf(open: string, v: string, tail: string)
    requires '<' !in v && |tail| > 0 && tail[0] == '<'
    ensures ReadField(open + (v + tail), open) == Some((v, tail))
  {
    var s := open + (v + tail);
    assert s[|open|..] == v + tail;
    FirstAngle(v, tail);
    assert (v + tail)[..|v|] == v && (v + tail)[|v|..] == tail;
  }

  /** The text of a `<url>` element followed by `rest`, nested to the right field by field. */
  function BlockThen(e: UrlEntry, rest: string): string
  {
    LocOpen + (e.loc + (LastmodOpen + (e.lastmod + (ChangefreqOpen + (e.changefreq
      + (PriorityOpen + (e.priority + (EntryClose + rest))))))))
  }

  lemma BlockThenIs(e: UrlEntry, rest: string)
    ensures UrlBlock(e) + rest == BlockThen(e, rest)
  {
    var p1 := LocOpen + e.loc;
    var p2 := p1 + LastmodOpen;
    var p3 := p2 + e.lastmod;
    var p4 := p3 + ChangefreqOpen;
    var p5 := p4 + e.changefreq;
    var p6 := p5 + PriorityOpen;
    var p7 := p6 + e.priority;
    Associative(p7, EntryClose, rest);
    Associative(p6, e.priority, EntryClose + rest);
    Associative(p5, PriorityOpen, e.priority + (EntryClose + rest));
    Associative(p4, e.changefreq, PriorityOpen + (e.priority + (EntryClose + rest)));
    Associative(p3, ChangefreqOpen, e.changefreq + (PriorityOpen + (e.priority + (EntryClose + rest))));
    Associative(p2, e.lastmod, ChangefreqOpen + (e.changefreq + (PriorityOpen + (e.priority + (EntryClose + rest)))));
    Associative(p1, LastmodOpen, e.lastmod + (ChangefreqOpen + (e.changefreq + (PriorityOpen + (e.priority + (EntryClose + rest))))));
    Associative(LocOpen, e.loc, LastmodOpen + (e.lastmod + (ChangefreqOpen + (e.changefreq + (PriorityOpen + (e.priority + (EntryClose + rest)))))));
  }

  lemma ReadEntryOf(e: UrlEntry, rest: string)
    requires PlainEntry(e)
    ensures ReadEntry(UrlBlock(e) + rest) == Some((e, rest))
  {
    BlockThenIs(e, rest);
    var s4 := EntryClose + rest;
    var s3 := PriorityOpen + (e.priority + s4);
    var s2 := ChangefreqOpen + (e.changefreq + s3);
    var s1 := LastmodOpen + (e.lastmod + s2);
    ReadFieldOf(LocOpen, e.loc, s1);
    ReadFieldOf(LastmodOpen, e.lastmod, s2);
    ReadFieldOf(ChangefreqOpen, e.changefreq, s3);
    ReadFieldOf(PriorityOpen, e.priority, s4);
    assert s4[|EntryClose|..] == rest;
  }

  lemma {:induction false} UrlBlocksCons(e: UrlEntry, es: seq<UrlEntry>)
    ensures UrlBlocks([e] + es) == UrlBlock(e) + UrlBlocks(es)
    decreases |es|
  {
    if es == [] {
      assert [e] + es == [e] && [e][..0] == [];
      assert UrlBlocks([e]) == "" + UrlBlock(e);
    } else {
      var front := es[..|es| - 1];
      assert ([e] + es)[..|es|] == [e] + front;
      UrlBlocksCons(e, front);
      Associative(UrlBlock(e), UrlBlocks(front), UrlBlock(es[|es| - 1]));
    }
  }

  /** A `<url>` block followed by anything is not the closing tag, and is longer than what follows it. */
  lemma BlockNotClose(e: UrlEntry, rest: string)
    ensures UrlBlock(e) + rest != UrlSetClose
    ensures |rest| < |UrlBlock(e) + rest|
  {
    var b := UrlBlock(e);
    assert b == LocOpen + (e.loc + LastmodOpen + e.lastmod + ChangefreqOpen + e.changefreq + PriorityOpen + e.priority + EntryClose);
    assert (b + rest)[0] == LocOpen[0] == ' ';
    assert UrlSetClose[0] == '<';
  }

  /** One step of `ReadEntries`: an entry read off the front is put before the entries read from the rest. */
  lemma ReadEntriesStep(s: string, e: UrlEntry, rest: string, es: seq<UrlEntry>)
    requires s != UrlSetClose && ReadEntry(s) == Some((e, rest)) && |rest| < |s|
    requires ReadEntries(rest) == Some(es)
    ensures ReadEntries(s) == Some([e] + es)
  {
  }

  lemma {:induction false} ReadEntriesOf(es: seq<UrlEntry>)
    requires forall i :: 0 <= i < |es| ==> PlainEntry(es[i])
    ensures ReadEntries(UrlBlocks(es) + UrlSetClose) == Some(es)
    decreases |es|
  {
    if es == [] {
      assert UrlBlocks(es) + UrlSetClose == UrlSetClose;
    } else {
      var e, t := es[0], es[1..];
      assert es == [e] + t;
      ReadEntriesOf(t);
      ReadEntriesCons(e, t);
    }
  }

  /** One more plain entry in front of a block sequence that reads back reads back with it. */
  lemma ReadEntriesCons(e: UrlEntry, es: seq<UrlEntry>)
    requires PlainEntry(e)
    requires ReadEntries(UrlBlocks(es) + UrlSetClose) == Some(es)
    ensures ReadEntries(UrlBlocks([e] + es) + UrlSetClose) == Some([e] + es)
  {
    UrlBlocksCons(e, es);
    var rest := UrlBlocks(es) + UrlSetClose;
    Associative(UrlBlock(e), UrlBlocks(es), UrlSetClose);
    BlockNotClose(e, rest);
    ReadEntryOf(e, rest);
    ReadEntriesStep(UrlBlock(e) + rest, e, rest, es);
  }

  /** Reading the programmatic sitemap back gives one entry per URL, in order, for URLs and a date without '<'. */
  lemma ParseProgrammaticSitemap(urls: seq<string>, today: string)
    requires '<' !in today
    requires forall i :: 0 <= i < |urls| ==> '<' !in urls[i]
    ensures ParseUrlSet(UrlSet(ProgrammaticEntries(urls, today))) == Some(ProgrammaticEntries(urls, today))
  {
    var es := ProgrammaticEntries(urls, today);
    ReadEntriesOf(es);
    Associative(UrlSetHead, UrlBlocks(es), UrlSetClose);
    assert UrlSet(es)[|UrlSetHead|..] == UrlBlocks(es) + UrlSetClose;
  }
}
