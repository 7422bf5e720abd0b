/**
 * `generateAllPages` of programmatic-seo/generate-pages.js: for every
 * combination of dimension names, one page per tuple of the product of those
 * dimensions' values, then the programmatic sitemap of the page URLs, the main
 * sitemap and the sitemap index. Writing the files is not modelled; the
 * generator's outputs are returned instead.
 */
module SeoGenerate {
  import opened Wrappers
  import opened Strings
  import opened SeoBindings
  import opened SeoCartesian
  import opened SeoPages
  import opened SeoPageFacts
  import opened SeoSitemap

  /** The configuration file: the tool URL, the dimension table and the combinations to generate. */
  datatype Config = Config(toolUrl: string, dimensions: seq<Dimension>, combinations: seq<seq<string>>)

  /** `dimMap[dim.name] = dim.values_en` for every dimension in order; a later entry of a name wins. */
  function DimMapOf(dims: seq<Dimension>): (m: map<string, seq<string>>)
    ensures m.Keys == set i | 0 <= i < |dims| :: dims[i].name
  {
    if dims == [] then map[]
    else DimMapOf(dims[..|dims| - 1])[dims[|dims| - 1].name := dims[|dims| - 1].values]
  }

  /** The dimension map holds, for each name, the values of the last dimension with that name. */
  lemma {:induction false} DimMapLastWins(dims: seq<Dimension>, i: nat)
    requires i < |dims|
    requires forall j :: i < j < |dims| ==> dims[j].name != dims[i].name
    ensures DimMapOf(dims)[dims[i].name] == dims[i].values
    decreases |dims|
  {
    if i < |dims| - 1 {
      DimMapLastWins(dims[..|dims| - 1], i);
    }
  }

  /** The loop that builds `dimMap`. */
  method BuildDimMap(dims: seq<Dimension>) returns (m: map<string, seq<string>>)
    ensures m == DimMapOf(dims)
  {
    m := map[];
    var i := 0;
    while i < |dims|
      invariant 0 <= i <= |dims|
      invariant m == DimMapOf(dims[..i])
    {
      assert dims[..i + 1][..i] == dims[..i];
      m := m[dims[i].name := dims[i].values];
      i := i + 1;
    }
    assert dims[..i] == dims;
  }

  /** `combo.map(dimName => dimMap[dimName] || [])`. */
  function ArraysOf(dimMap: map<string, seq<string>>, combo: seq<string>): (arrays: seq<seq<string>>)
    ensures |arrays| == |combo|
  {
    seq(|combo|, i requires 0 <= i < |combo| => if combo[i] in dimMap then dimMap[combo[i]] else [])
  }

  /** The value tuples of a combination: the product of its dimensions' values. */
  function Tuples(config: Config, combo: seq<string>): (ts: seq<seq<string>>)
    ensures forall k :: 0 <= k < |ts| ==> |ts[k]| == |combo|
  {
    var arrays := ArraysOf(DimMapOf(config.dimensions), combo);
    ProductTupleLengths(arrays);
    Product(arrays)
  }

  /** A page builder: the page of a value tuple and the object that binds it. */
  type PageBuilder = (seq<string>, Bindings) -> Page

  /** `generatePageContent` with the generator's tables, tool URL and dimension table. */
  function Builder(content: ContentTables, config: Config): PageBuilder
  {
    (values, dv) => PageOf(content, config.toolUrl, config.dimensions, values, dv)
  }

  /** A built page carries the slug of its tuple and the URL of that slug under the tool URL. */
  lemma BuilderPage(content: ContentTables, config: Config, values: seq<string>, dv: Bindings)
    ensures Builder(content, config)(values, dv).slug == Slug(values)
    ensures Builder(content, config)(values, dv).url == config.toolUrl + "/p/" + Slug(values) + "/"
  {
  }

  /** The pages of the tuples `ts`, in order: each tuple bound to the combination's names, then built. */
  function PagesOf(build: PageBuilder, combo: seq<string>, ts: seq<seq<string>>): (ps: seq<Page>)
    requires forall k :: 0 <= k < |ts| ==> |ts[k]| == |combo|
    ensures |ps| == |ts|
  {
    if ts == [] then []
    else PagesOf(build, combo, ts[..|ts| - 1]) + [build(ts[|ts| - 1], BindingsOf(combo, ts[|ts| - 1]))]
  }

  /** The n-th page is the page of the n-th tuple. */
  lemma {:induction false} PagesOfAt(build: PageBuilder, combo: seq<string>, ts: seq<seq<string>>, n: nat)
    requires forall k :: 0 <= k < |ts| ==> |ts[k]| == |combo|
    requires n < |ts|
    ensures PagesOf(build, combo, ts)[n] == build(ts[n], BindingsOf(combo, ts[n]))
    decreases |ts|
  {
    if n < |ts| - 1 {
      PagesOfAt(build, combo, ts[..|ts| - 1], n);
    }
  }

  /** One more tuple adds its page at the end. */
  lemma PagesOfSnoc(build: PageBuilder, combo: seq<string>, ts: seq<seq<string>>, k: nat)
    requires forall j :: 0 <= j < |ts| ==> |ts[j]| == |combo|
    requires k < |ts|
    ensures PagesOf(build, combo, ts[..k + 1]) == PagesOf(build, combo, ts[..k]) + [build(ts[k], BindingsOf(combo, ts[k]))]
  {
    assert ts[..k + 1][..k] == ts[..k];
  }

  /** The pages of one combination, in product order. */
  function ComboPages(build: PageBuilder, config: Config, combo: seq<string>): (ps: seq<Page>)
    ensures |ps| == |Tuples(config, combo)|
  {
    PagesOf(build, combo, Tuples(config, combo))
  }

  /** The pages of the first `n` combinations, combination after combination. */
  function PagesUpTo(build: PageBuilder, config: Config, n: nat): seq<Page>
    requires n <= |config.combinations|
  {
    if n == 0 then []
    else PagesUpTo(build, config, n - 1) + ComboPages(build, config, config.combinations[n - 1])
  }

  /** One more combination adds its pages at the end. */
  lemma PagesUpToSnoc(build: PageBuilder, config: Config, c: nat)
    requires c < |config.combinations|
    ensures PagesUpTo(build, config, c + 1) == PagesUpTo(build, config, c) + ComboPages(build, config, config.combinations[c])
  {
  }

  /** Every page the generator writes, in order. */
  function AllPages(build: PageBuilder, config: Config): seq<Page>
  {
    PagesUpTo(build, config, |config.combinations|)
  }

  /** `allUrls`: the URL of each page, in order. */
  function Urls(pages: seq<Page>): (urls: seq<string>)
    ensures |urls| == |pages|
    ensures forall k :: 0 <= k < |pages| ==> urls[k] == pages[k].url
  {
    seq(|pages|, k requires 0 <= k < |pages| => pages[k].url)
  }

  /** The number of pages a list of combinations yields: the sum of their product sizes. */
  function PageTotal(config: Config, n: nat): nat
    requires n <= |config.combinations|
  {
    if n == 0 then 0
    else PageTotal(config, n - 1) + LengthProduct(ArraysOf(DimMapOf(config.dimensions), config.combinations[n - 1]))
  }

  // Loops

  /** `combo.forEach((dimName, i) => { dimValues[dimName] = values[i]; })` on a fresh object. */
  method BindCombination(combo: seq<string>, values: seq<string>) returns (dv: Bindings)
    requires |combo| <= |values|
    ensures dv == BindingsOf(combo, values)
  {
    dv := [];
    var i := 0;
    while i < |combo|
      invariant 0 <= i <= |combo|
      invariant dv == BindingsOf(combo[..i], values)
    {
      assert combo[..i + 1][..i] == combo[..i];
      dv := Assign(dv, combo[i], values[i]);
      i := i + 1;
    }
    assert combo[..i] == combo;
  }

  /** The body of the inner loop of `generateAllPages`: bind the tuple, then build its page. */
  method GenerateTuplePage(content: ContentTables, config: Config, combo: seq<string>, values: seq<string>)
    returns (page: Page)
    requires |values| == |combo|
    ensures page == Builder(content, config)(values, BindingsOf(combo, values))
  {
    var dv := BindCombination(combo, values);
    page := GeneratePageContent(content, config.toolUrl, config.dimensions, values, dv);
  }

  /** The inner loop of `generateAllPages`: the pages of one combination. */
  method GenerateComboPages(content: ContentTables, config: Config, dimMap: map<string, seq<string>>, combo: seq<string>)
    returns (pages: seq<Page>)
    requires dimMap == DimMapOf(config.dimensions)
    ensures pages == ComboPages(Builder(content, config), config, combo)
  {
    var arrays := ArraysOf(dimMap, combo);
    var cartesian := CartesianProduct(arrays);
    assert cartesian == Tuples(config, combo);
    pages := [];
    var k := 0;
    while k < |cartesian|
      invariant 0 <= k <= |cartesian|
      invariant pages == PagesOf(Builder(content, config), combo, cartesian[..k])
    {
      var page := GenerateTuplePage(content, config, combo, cartesian[k]);
      PagesOfSnoc(Builder(content, config), combo, cartesian, k);
      pages := pages + [page];
      k := k + 1;
    }
    assert cartesian[..k] == cartesian;
  }

  /** The outer loop of `generateAllPages`: the pages of every combination and their URLs. */
  method GeneratePages(content: ContentTables, config: Config) returns (pages: seq<Page>, urls: seq<string>)
    ensures pages == AllPages(Builder(content, config), config)
    ensures urls == Urls(pages)
  {
    var dimMap := BuildDimMap(config.dimensions);
    pages := [];
    urls := [];
    var c := 0;
    while c < |config.combinations|
      invariant 0 <= c <= |config.combinations|
      invariant pages == PagesUpTo(Builder(content, config), config, c)
      invariant urls == Urls(pages)
    {
      var comboPages := GenerateComboPages(content, config, dimMap, config.combinations[c]);
      UrlsAppend(pages, comboPages);
      PagesUpToSnoc(Builder(content, config), config, c);
      pages := pages + comboPages;
      urls := urls + Urls(comboPages);
      c := c + 1;
    }
  }

  /**
   * `generateAllPages()`: the pages of every combination, their URLs, the three
   * sitemaps (dated `today`) and the page count it returns.
   */
  method GenerateAllPages(content: ContentTables, config: Config, today: string)
    returns (pages: seq<Page>, urls: seq<string>, programmatic: string, mainMap: string, index: string, count: nat)
    ensures pages == AllPages(Builder(content, config), config)
    ensures urls == Urls(pages)
    ensures programmatic == UrlSet(ProgrammaticEntries(urls, today))
    ensures mainMap == MainSitemap(config.toolUrl, today)
    ensures index == SitemapIndex(config.toolUrl)
    ensures count == |urls|
  {
    pages, urls := GeneratePages(content, config);
    programmatic := GenerateSitemap(urls, today);
    mainMap := MainSitemap(config.toolUrl, today);
    index := SitemapIndex(config.toolUrl);
    count := |urls|;
  }

  lemma UrlsAppend(a: seq<Page>, b: seq<Page>)
    ensures Urls(a + b) == Urls(a) + Urls(b)
  {
  }

  // Properties

  /** The number of tuples of the first `n` combinations. */
  function TupleTotal(config: Config, n: nat): nat
    requires n <= |config.combinations|
  {
    if n == 0 then 0 else TupleTotal(config, n - 1) + |Tuples(config, config.combinations[n - 1])|
  }

  lemma {:induction false} PagesUpToLength(build: PageBuilder, config: Config, n: nat)
    requires n <= |config.combinations|
    ensures |PagesUpTo(build, config, n)| == TupleTotal(config, n)
  {
    if n > 0 {
      PagesUpToLength(build, config, n - 1);
    }
  }

  lemma {:induction false} TupleTotalIsPageTotal(config: Config, n: nat)
    requires n <= |config.combinations|
    ensures TupleTotal(config, n) == PageTotal(config, n)
  {
    if n > 0 {
      TupleTotalIsPageTotal(config, n - 1);
      ProductSize(ArraysOf(DimMapOf(config.dimensions), config.combinations[n - 1]));
    }
  }

  /** The generator writes as many pages as the sizes of the combinations' products add up to. */
  lemma PageCount(build: PageBuilder, config: Config)
    ensures |AllPages(build, config)| == PageTotal(config, |config.combinations|)
  {
    PagesUpToLength(build, config, |config.combinations|);
    TupleTotalIsPageTotal(config, |config.combinations|);
  }

  /** A combination naming a dimension the table lacks yields no page. */
  lemma MissingDimensionNoPages(build: PageBuilder, config: Config, combo: seq<string>, i: nat)
    requires i < |combo| && forall d :: d in config.dimensions ==> d.name != combo[i]
    ensures ComboPages(build, config, combo) == []
  {
    var m := DimMapOf(config.dimensions);
    var arrays := ArraysOf(m, combo);
    assert forall j :: 0 <= j < |config.dimensions| ==> config.dimensions[j].name != combo[i] by {
      forall j | 0 <= j < |config.dimensions|
        ensures config.dimensions[j].name != combo[i]
      {
        assert config.dimensions[j] in config.dimensions;
      }
    }
    assert arrays[i] == [];
    if |Product(arrays)| > 0 {
      ProductTupleShape(arrays, Product(arrays)[0]);
    }
  }

  /**
   * The k-th page of a combination is the page of its k-th tuple: its slug
   * joins the tuple's values and its URL is the tool URL, "/p/", the slug and "/".
   */
  lemma ComboPageAt(content: ContentTables, config: Config, combo: seq<string>, k: nat)
    requires k < |Tuples(config, combo)|
    ensures var t := Tuples(config, combo)[k];
      var p := ComboPages(Builder(content, config), config, combo)[k];
      p == PageOf(content, config.toolUrl, config.dimensions, t, BindingsOf(combo, t)) &&
      p.slug == Slug(t) &&
      p.url == config.toolUrl + "/p/" + p.slug + "/"
  {
    var t := Tuples(config, combo)[k];
    PagesOfAt(Builder(content, config), combo, Tuples(config, combo), k);
    BuilderPage(content, config, t, BindingsOf(combo, t));
  }

  /**
   * The k-th page of a combination binds each name of the combination to its
   * own value of the k-th tuple, and nothing else.
   */
  lemma ComboPageBindings(config: Config, combo: seq<string>, k: nat, i: nat, other: string)
    requires DistinctNames(combo) && k < |Tuples(config, combo)| && i < |combo|
    requires other !in combo
    ensures var t := Tuples(config, combo)[k];
      |t| == |combo| &&
      Lookup(BindingsOf(combo, t), combo[i]) == Some(t[i]) &&
      Values(BindingsOf(combo, t)) == t &&
      Lookup(BindingsOf(combo, t), other) == None
  {
    var t := Tuples(config, combo)[k];
    BindingsOfLookup(combo, t, i);
    BindingsOfUnbound(combo, t, other);
  }

  /** The dimension table names each dimension once, and no dimension offers an empty value. */
  predicate WellFormedTable(dims: seq<Dimension>)
  {
    (forall j, k :: 0 <= j < k < |dims| ==> dims[j].name != dims[k].name) &&
    (forall j, v :: 0 <= j < |dims| && v in dims[j].values ==> v != "")
  }

  /** With a well-formed table, the arrays of a combination are its dimensions' value lists. */
  lemma ArraysOfTable(dims: seq<Dimension>, combo: seq<string>, i: nat, d: nat)
    requires WellFormedTable(dims) && i < |combo| && d < |dims| && dims[d].name == combo[i]
    ensures ArraysOf(DimMapOf(dims), combo)[i] == dims[d].values
  {
    DimMapLastWins(dims, d);
  }

  /** With a well-formed table, no tuple of a combination holds an empty value. */
  lemma TupleValuesNonEmpty(config: Config, combo: seq<string>, t: seq<string>)
    requires WellFormedTable(config.dimensions) && t in Tuples(config, combo)
    ensures |t| == |combo| && forall j :: 0 <= j < |t| ==> t[j] != ""
  {
    var dims := config.dimensions;
    var m := DimMapOf(dims);
    var arrays := ArraysOf(m, combo);
    ProductTupleShape(arrays, t);
    forall j | 0 <= j < |t|
      ensures t[j] != ""
    {
      assert t[j] in arrays[j];
      assert combo[j] in m;
      var e :| 0 <= e < |dims| && dims[e].name == combo[j];
      ArraysOfTable(dims, combo, j, e);
    }
  }

  /** A related link of a combination's page swaps one of the combination's own dimensions. */
  lemma SwappedDimensionInCombo(config: Config, combo: seq<string>, t: seq<string>, l: RelatedLink) returns (i: nat)
    requires |t| == |combo|
    requires ValidLink(config.dimensions, BindingsOf(combo, t), l)
    ensures i < |combo| && combo[i] == config.dimensions[l.dimIndex].name
  {
    var name := config.dimensions[l.dimIndex].name;
    if name !in combo {
      BindingsOfUnbound(combo, t, name);
      assert false;
    }
    i :| 0 <= i < |combo| && combo[i] == name;
  }

  /** Replacing one value of a tuple by another value of the same dimension gives another tuple of the combination. */
  lemma SwapInTuples(config: Config, combo: seq<string>, k: nat, i: nat, d: nat, v: string) returns (n: nat)
    requires WellFormedTable(config.dimensions)
    requires k < |Tuples(config, combo)| && i < |combo|
    requires d < |config.dimensions| && config.dimensions[d].name == combo[i] && v in config.dimensions[d].values
    ensures n < |Tuples(config, combo)|
    ensures Tuples(config, combo)[n] == Tuples(config, combo)[k][i := v]
  {
    var arrays := ArraysOf(DimMapOf(config.dimensions), combo);
    var t := Tuples(config, combo)[k];
    ArraysOfTable(config.dimensions, combo, i, d);
    ProductTupleShape(arrays, t);
    n := ProductComplete(arrays, t[i := v]);
  }

  /**
   * No related link is dead: with a well-formed table and a combination of
   * distinct names, every related link of the page of a combination's k-th
   * tuple is the slug of another tuple of the same combination, hence of
   * another page it generates (`ComboPageAt`).
   */
  lemma RelatedLinksResolve(config: Config, combo: seq<string>, k: nat, l: RelatedLink)
    returns (n: nat)
    requires WellFormedTable(config.dimensions) && DistinctNames(combo)
    requires k < |Tuples(config, combo)|
    requires l in RelatedLinks(config.dimensions, BindingsOf(combo, Tuples(config, combo)[k]))
    ensures n < |Tuples(config, combo)| && n != k
    ensures Slug(Tuples(config, combo)[n]) == l.slug
  {
    var dims := config.dimensions;
    var t := Tuples(config, combo)[k];
    var dv := BindingsOf(combo, t);
    RelatedLinksShape(dims, dv);
    assert ValidLink(dims, dv, l);
    var i := SwappedDimensionInCombo(config, combo, t, l);
    TupleValuesNonEmpty(config, combo, t);
    SwapSlugOfCombination(combo, t, i, l.value);
    BindingsOfLookup(combo, t, i);
    n := SwapInTuples(config, combo, k, i, l.dimIndex, l.value);
    assert Tuples(config, combo)[n][i] != t[i];
  }
}
