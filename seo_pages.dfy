/**
 * One programmatic SEO page (`generatePageContent` in
 * programmatic-seo/generate-pages.js): the fields derived from a value tuple
 * and its `dimValues` — slug, URL, title, description and the lead body
 * paragraph — and the related-page links (`generateRelatedLinks`). The rest of
 * the HTML template is fixed text and is not modelled.
 */
module SeoPages {
  import opened Wrappers
  import opened Strings
  import opened SeoText
  import opened SeoBindings

  /** One entry of the dimension table: a name and its English values, in order. */
  datatype Dimension = Dimension(name: string, values: seq<string>)

  /**
   * The paragraph tables of the generator: the lead paragraph per focus area
   * (`{product}` stands for the product's display name) and the paragraph per
   * industry.
   */
  datatype ContentTables = ContentTables(focusArea: map<string, string>, industry: map<string, string>)

  /** A focus text: the words before the product's placeholder, `{product}`, and the words after it. */
  function FocusText(before: string, after: string): (t: string)
    ensures OccursAt(t, "{product}", |before|)
    ensures Contains(t, "{product}")
  {
    OccursBetween(before, "{product}", after);
    OccursContains(before + "{product}" + after, "{product}", |before|);
    before + "{product}" + after
  }

  /** The words around the placeholder in each focus text of the generator. */
  const TechnologyBefore := "Explore the cutting-edge technological advancements that will transform "
  const TechnologyAfter := ". From AI integration to quantum computing, discover the innovations that will reshape how we interact with technology."
  const UserExperienceBefore := "Discover how "
  const UserExperienceAfter := " will revolutionize user interaction in the future. Seamless interfaces, intuitive design, and personalized experiences will define the next generation."
  const SocialImpactBefore := "Examine the profound social implications of "
  const SocialImpactAfter := "'s evolution. From changing work patterns to new forms of community, explore how society will adapt."
  const BusinessModelBefore := "Analyze the economic transformation of "
  const BusinessModelAfter := ". New revenue streams, subscription models, and decentralized ownership will reshape the business landscape."
  const AiIntegrationBefore := "See how artificial intelligence will be deeply woven into "
  const AiIntegrationAfter := ". Smart automation, predictive capabilities, and conversational interfaces will become standard."
  const SustainabilityBefore := "Explore the green revolution in "
  const SustainabilityAfter := ". Carbon neutrality, circular economy principles, and eco-friendly design will drive the future."
  const PrivacyBefore := "Understand how "
  const PrivacyAfter := " will balance innovation with privacy. Decentralized data, encryption, and user sovereignty will be paramount."
  const AccessibilityBefore := "Discover how "
  const AccessibilityAfter := " will become universally accessible. Inclusive design, multi-modal interfaces, and adaptive technologies will serve everyone."

  /** The focus-area table as the generator defines it, each text as the words around its placeholder. */
  const SourceFocusParts: map<string, (string, string)> := map[
    "technology" := (TechnologyBefore, TechnologyAfter),
    "user-experience" := (UserExperienceBefore, UserExperienceAfter),
    "social-impact" := (SocialImpactBefore, SocialImpactAfter),
    "business-model" := (BusinessModelBefore, BusinessModelAfter),
    "ai-integration" := (AiIntegrationBefore, AiIntegrationAfter),
    "sustainability" := (SustainabilityBefore, SustainabilityAfter),
    "privacy" := (PrivacyBefore, PrivacyAfter),
    "accessibility" := (AccessibilityBefore, AccessibilityAfter)
  ]

  /** The focus-area texts: each entry's words with `{product}` between them. */
  const SourceFocusTexts: map<string, string> :=
    map k | k in SourceFocusParts :: FocusText(SourceFocusParts[k].0, SourceFocusParts[k].1)

  /** The industry table as the generator defines it. */
  const SourceIndustryTexts: map<string, string> := map[
    "tech" := "The technology sector continues to push boundaries with exponential innovation.",
    "healthcare" := "Healthcare is being revolutionized by AI diagnostics, telemedicine, and personalized treatments.",
    "finance" := "Finance is transforming with blockchain, DeFi, and AI-powered investment strategies.",
    "education" := "Education is becoming more personalized, accessible, and AI-enhanced.",
    "retail" := "Retail is evolving with immersive shopping, automated logistics, and hyper-personalization.",
    "entertainment" := "Entertainment is merging reality with virtual worlds in unprecedented ways.",
    "manufacturing" := "Manufacturing is becoming smarter with IoT, 3D printing, and robotic automation.",
    "agriculture" := "Agriculture is being transformed by precision farming and sustainable practices.",
    "energy" := "Energy is transitioning to clean, distributed, and smart grid systems.",
    "real-estate" := "Real estate is evolving with smart buildings and virtual property.",
    "travel" := "Travel is being reimagined with sustainable transport and seamless experiences.",
    "food" := "Food systems are being revolutionized by lab-grown proteins and AI nutrition.",
    "fashion" := "Fashion is embracing sustainability, personalization, and digital wearables.",
    "sports" := "Sports are integrating AR/VR, analytics, and new forms of competition.",
    "media" := "Media is becoming immersive, interactive, and AI-generated."
  ]

  /** The tables as the generator defines them. */
  const SourceContent := ContentTables(SourceFocusTexts, SourceIndustryTexts)

  /** `table[key] || ''`. */
  function TableText(table: map<string, string>, key: string): (r: string)
    ensures key !in table ==> r == ""
  {
    if key in table then table[key] else ""
  }

  /** `famous_product || product_type || 'technology'`. */
  function ProductName(dv: Bindings): string
  {
    OrElse(Lookup(dv, "famous_product"), OrElse(Lookup(dv, "product_type"), "technology"))
  }

  /** `time_horizon || '10-years'`. */
  function TimeHorizon(dv: Bindings): (h: string)
    ensures h != ""
  {
    OrElse(Lookup(dv, "time_horizon"), "10-years")
  }

  /** "in <horizon>", with the first '-' turned into a space when the horizon mentions "year". */
  function YearDisplay(h: string): string
  {
    if Contains(h, "year") then "in " + ReplaceFirst(h, "-", " ") else "in " + h
  }

  /** "Future of <Product> in <horizon>": the title before its focus and industry parts. */
  function TitleHead(dv: Bindings): string
  {
    "Future of " + Capitalize(ProductName(dv)) + (" " + YearDisplay(TimeHorizon(dv)))
  }

  /**
   * The page title (without the " | AI Future Visualizer" suffix of `<title>`):
   * the head, then " - <Focus>" when a focus area is set, then " in <Industry>"
   * when an industry is set.
   */
  function Title(dv: Bindings): string
  {
    var focus := Lookup(dv, "focus_area");
    var industry := Lookup(dv, "industry");
    var t := TitleHead(dv);
    var t := if Truthy(focus) then t + (" - " + Capitalize(focus.value)) else t;
    if Truthy(industry) then t + (" in " + Capitalize(industry.value)) else t
  }

  const DescriptionTail := ". AI-powered predictions for the future of technology, user experience, and society."

  /** The full description, as the JSON-LD block carries it. */
  function Description(dv: Bindings): string
  {
    "Discover what " + Capitalize(ProductName(dv)) + " will look like" + (" " + YearDisplay(TimeHorizon(dv))) + DescriptionTail
  }

  /** The meta, og and twitter descriptions are cut to this many characters. */
  const MetaLimit := 155

  /** The focus-area paragraph; `<p></p>` when the focus area has no table entry. */
  function FocusParagraph(content: ContentTables, focus: string, productDisplay: string): string
  {
    "<p>" + ReplaceFirst(TableText(content.focusArea, focus), "{product}", productDisplay) + "</p>"
  }

  /** The industry paragraph; `<p></p>` when the industry has no table entry. */
  function IndustryParagraph(content: ContentTables, industry: string): string
  {
    "<p>" + TableText(content.industry, industry) + "</p>"
  }

  /** `bodyContent`: the focus-area paragraph when a focus area is set, then the industry paragraph when an industry is set. */
  function BodyContent(content: ContentTables, dv: Bindings): string
  {
    var focus := Lookup(dv, "focus_area");
    var industry := Lookup(dv, "industry");
    var b := if Truthy(focus) then "" + FocusParagraph(content, focus.value, Capitalize(ProductName(dv))) else "";
    if Truthy(industry) then b + IndustryParagraph(content, industry.value) else b
  }

  const FallbackOpen := "<p>Explore what "
  const FallbackClose := " will evolve into in the coming years. Our AI analyzes current trends, technological trajectories, and societal shifts to predict the future.</p>"

  /** The generic paragraph shown when a page has no focus-area or industry text. */
  function FallbackParagraph(productDisplay: string): (r: string)
    ensures |r| > |productDisplay|
  {
    assert FallbackOpen[0] == '<';
    FallbackOpen + productDisplay + FallbackClose
  }

  /** `bodyContent || <fallback paragraph>`. */
  function BodyLead(body: string, productDisplay: string): (r: string)
    ensures r != ""
  {
    if body != "" then body else FallbackParagraph(productDisplay)
  }

  /** `combo.join('-')`. */
  function Slug(values: seq<string>): string
  {
    Join(values, "-")
  }

  /** `${tool_url}/p/${slug}/`. */
  function PageUrl(toolUrl: string, slug: string): string
  {
    toolUrl + "/p/" + slug + "/"
  }

  // Related links

  /** A related-page link: the dimension it swaps (by position in the table), the new value, the link's slug and text. */
  datatype RelatedLink = RelatedLink(dimIndex: nat, value: string, slug: string, title: string)

  /** `values.filter(v => v !== current)`. */
  function Without(values: seq<string>, current: string): (r: seq<string>)
    ensures |r| <= |values|
    ensures forall v :: v in r <==> v in values && v != current
  {
    if values == [] then []
    else if values[0] == current then Without(values[1..], current)
    else [values[0]] + Without(values[1..], current)
  }

  /** The filter keeps each value different from `current` in place: it distributes over concatenation. */
  lemma {:induction false} WithoutAppend(a: seq<string>, b: seq<string>, current: string)
    ensures Without(a + b, current) == Without(a, current) + Without(b, current)
  {
    if a == [] {
      assert a + b == b;
    } else {
      assert (a + b)[0] == a[0] && (a + b)[1..] == a[1..] + b;
      WithoutAppend(a[1..], b, current);
    }
  }

  /** A single value is kept exactly when it differs from `current`. */
  lemma WithoutSingleton(v: string, current: string)
    ensures Without([v], current) == (if v == current then [] else [v])
  {
  }

  /** `.slice(0, 2)` of the other values: the first two values different from the current one. */
  function Alternatives(values: seq<string>, current: string): (r: seq<string>)
    ensures |r| <= 2
    ensures forall v :: v in r ==> v in values && v != current
    ensures r <= Without(values, current)
    ensures |r| == if |Without(values, current)| < 2 then |Without(values, current)| else 2
  {
    Take(Without(values, current), 2)
  }

  /** `.filter(Boolean)` on strings. */
  function NonEmpty(vs: seq<string>): (r: seq<string>)
    ensures forall k :: 0 <= k < |r| ==> r[k] != ""
    ensures (forall k :: 0 <= k < |vs| ==> vs[k] != "") ==> r == vs
  {
    if vs == [] then []
    else if vs[0] == "" then NonEmpty(vs[1..])
    else [vs[0]] + NonEmpty(vs[1..])
  }

  /** The slug of `{ ...dimValues, [name]: v }`: its values in key order, empty ones dropped, joined by '-'. */
  function SwapSlug(dv: Bindings, name: string, v: string): string
  {
    Join(NonEmpty(Values(Assign(dv, name, v))), "-")
  }

  function LinkTo(dims: seq<Dimension>, d: nat, v: string, dv: Bindings): RelatedLink
    requires d < |dims|
  {
    RelatedLink(d, v, SwapSlug(dv, dims[d].name, v), "Future of " + Capitalize(v))
  }

  /** The links contributed by dimension `d`: none unless the tuple sets it. */
  function DimLinks(dims: seq<Dimension>, d: nat, dv: Bindings): (ls: seq<RelatedLink>)
    requires d < |dims|
    ensures |ls| <= 2
    ensures !Truthy(Lookup(dv, dims[d].name)) ==> ls == []
    ensures Truthy(Lookup(dv, dims[d].name)) ==>
      var alts := Alternatives(dims[d].values, Lookup(dv, dims[d].name).value);
      |ls| == |alts| && forall k :: 0 <= k < |ls| ==> ls[k] == LinkTo(dims, d, alts[k], dv)
  {
    var current := Lookup(dv, dims[d].name);
    if !Truthy(current) then []
    else
      var alts := Alternatives(dims[d].values, current.value);
      seq(|alts|, k requires 0 <= k < |alts| => LinkTo(dims, d, alts[k], dv))
  }

  /** The links of the first `n` dimensions, in table order. */
  function Candidates(dims: seq<Dimension>, dv: Bindings, n: nat): seq<RelatedLink>
    requires n <= |dims|
  {
    if n == 0 then [] else Candidates(dims, dv, n - 1) + DimLinks(dims, n - 1, dv)
  }

  /** `links.slice(0, 6)`. */
  function RelatedLinks(dims: seq<Dimension>, dv: Bindings): seq<RelatedLink>
  {
    Take(Candidates(dims, dv, |dims|), 6)
  }

  function Anchor(l: RelatedLink): string
  {
    "<a href=\"/p/" + l.slug + "/\">" + l.title + "</a>"
  }

  function Anchors(ls: seq<RelatedLink>): (r: seq<string>)
    ensures |r| == |ls|
    ensures forall k :: 0 <= k < |ls| ==> r[k] == Anchor(ls[k])
  {
    seq(|ls|, k requires 0 <= k < |ls| => Anchor(ls[k]))
  }

  const LinkSeparator := "\n      "

  /** The related-links HTML of a page. */
  function RelatedHtml(dims: seq<Dimension>, dv: Bindings): string
  {
    Join(Anchors(RelatedLinks(dims, dv)), LinkSeparator)
  }

  lemma AnchorsAppend(a: seq<RelatedLink>, b: seq<RelatedLink>)
    ensures Anchors(a + b) == Anchors(a) + Anchors(b)
  {
  }

  lemma AnchorsSnoc(ls: seq<RelatedLink>, j: nat)
    requires j < |ls|
    ensures Anchors(ls[..j + 1]) == Anchors(ls[..j]) + [Anchor(ls[j])]
  {
    assert ls[..j + 1] == ls[..j] + [ls[j]];
    AnchorsAppend(ls[..j], [ls[j]]);
  }

  lemma AnchorsTake(ls: seq<RelatedLink>, n: nat)
    ensures Anchors(Take(ls, n)) == Take(Anchors(ls), n)
  {
  }

  /** The inner loop of `generateRelatedLinks`: pushes the anchors of dimension `d`'s alternative values. */
  method PushDimensionLinks(dims: seq<Dimension>, d: nat, dv: Bindings, links0: seq<string>) returns (links: seq<string>)
    requires d < |dims|
    ensures links == links0 + Anchors(DimLinks(dims, d, dv))
  {
    links := links0;
    ghost var mine := DimLinks(dims, d, dv);
    var current := Lookup(dv, dims[d].name);
    if Truthy(current) {
      var otherValues := Alternatives(dims[d].values, current.value);
      var j := 0;
      while j < |otherValues|
        invariant 0 <= j <= |otherValues|
        invariant links == links0 + Anchors(mine[..j])
      {
        var link := LinkTo(dims, d, otherValues[j], dv);
        assert mine[j] == link;
        AnchorsSnoc(mine, j);
        Associative(links0, Anchors(mine[..j]), [Anchor(link)]);
        links := links + [Anchor(link)];
        j := j + 1;
      }
      assert mine[..j] == mine;
    } else {
      assert links0 + Anchors(mine) == links0;
    }
  }

  /** The anchors of one more dimension's candidates are those of the dimensions before it, then its own. */
  lemma AnchorsCandidatesStep(dims: seq<Dimension>, dv: Bindings, d: nat)
    requires d < |dims|
    ensures Anchors(Candidates(dims, dv, d + 1)) == Anchors(Candidates(dims, dv, d)) + Anchors(DimLinks(dims, d, dv))
  {
    AnchorsAppend(Candidates(dims, dv, d), DimLinks(dims, d, dv));
  }

  /** `generateRelatedLinks(currentCombo, dimValues)`: collects the anchors dimension by dimension, then keeps six. */
  method GenerateRelatedLinks(dims: seq<Dimension>, dv: Bindings) returns (html: string)
    ensures html == RelatedHtml(dims, dv)
  {
    var links: seq<string> := [];
    var d := 0;
    while d < |dims|
      invariant 0 <= d <= |dims|
      invariant links == Anchors(Candidates(dims, dv, d))
    {
      AnchorsCandidatesStep(dims, dv, d);
      links := PushDimensionLinks(dims, d, dv, links);
      d := d + 1;
    }
    AnchorsTake(Candidates(dims, dv, |dims|), 6);
    html := Join(Take(links, 6), LinkSeparator);
  }

  // The page

  /**
   * The parts of the HTML document `generatePageContent` returns that depend on
   * the combination; the fixed template around them is not modelled.
   */
  datatype Page = Page(slug: string, url: string, title: string, description: string,
                       bodyContent: string, productDisplay: string, relatedLinks: string)

  /** The `description.substring(0, 155)` used in the meta, og and twitter tags. */
  function MetaDescription(p: Page): (m: string)
    ensures m <= p.description
    ensures |p.description| <= MetaLimit ==> m == p.description
    ensures |p.description| > MetaLimit ==> |m| == MetaLimit
  {
    Take(p.description, MetaLimit)
  }

  /** The first paragraph of the section: `bodyContent`, or the fallback when it is empty. */
  function Lead(p: Page): (l: string)
    ensures l != ""
    ensures p.bodyContent != "" ==> l == p.bodyContent
  {
    BodyLead(p.bodyContent, p.productDisplay)
  }

  /** The page `generatePageContent(values, dimValues)` builds. */
  function PageOf(content: ContentTables, toolUrl: string, dims: seq<Dimension>, values: seq<string>, dv: Bindings): (p: Page)
    ensures p.url == toolUrl + "/p/" + p.slug + "/"
  {
    Page(Slug(values), PageUrl(toolUrl, Slug(values)), Title(dv), Description(dv),
         BodyContent(content, dv), Capitalize(ProductName(dv)), RelatedHtml(dims, dv))
  }

  /** `generatePageContent(combo, dimValues)`: builds title, description and body by appending. */
  method GeneratePageContent(content: ContentTables, toolUrl: string, dims: seq<Dimension>, combo: seq<string>, dv: Bindings)
    returns (page: Page)
    ensures page == PageOf(content, toolUrl, dims, combo, dv)
  {
    var productName := ProductName(dv);
    var productDisplay := Capitalize(productName);
    var timeHorizon := TimeHorizon(dv);
    var focusArea := Lookup(dv, "focus_area");
    var industry := Lookup(dv, "industry");

    var title := "Future of " + productDisplay;
    var description := "Discover what " + productDisplay + " will look like";
    var bodyContent := "";

    if timeHorizon != "" {
      var yearDisplay := YearDisplay(timeHorizon);
      title := title + (" " + yearDisplay);
      description := description + (" " + yearDisplay);
    }
    assert title == TitleHead(dv);
    if Truthy(focusArea) {
      title := title + (" - " + Capitalize(focusArea.value));
      bodyContent := bodyContent + FocusParagraph(content, focusArea.value, productDisplay);
    }
    if Truthy(industry) {
      title := title + (" in " + Capitalize(industry.value));
      bodyContent := bodyContent + IndustryParagraph(content, industry.value);
    }
    description := description + DescriptionTail;
    assert title == Title(dv) && bodyContent == BodyContent(content, dv) && description == Description(dv);

    var slug := Join(combo, "-");
    var url := toolUrl + "/p/" + slug + "/";
    var relatedLinks := GenerateRelatedLinks(dims, dv);
    page := Page(slug, url, title, description, bodyContent, productDisplay, relatedLinks);
  }
}
