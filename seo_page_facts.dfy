/**
 * Properties of the page model: the defaults of the title, the year display,
 * when the body falls back to the generic paragraph, the slug round trip, and
 * what every related link is.
 */
module SeoPageFacts {
  import opened Wrappers
  import opened Strings
  import opened SeoText
  import opened SeoBindings
  import opened SeoPages

  // Title and description

  /** A horizon that mentions "year" has its first '-' shown as a space; any other horizon is shown as is. */
  lemma YearDisplayShape(h: string)
    ensures YearDisplay(h)[..3] == "in "
    ensures !Contains(h, "year") ==> YearDisplay(h) == "in " + h
    ensures Contains(h, "year") ==> |YearDisplay(h)| == 3 + |h|
    ensures Contains(h, "year") ==> forall k :: 0 <= k < |h| ==>
      YearDisplay(h)[3 + k] == (if IndexOf(h, "-") == Some(k) then ' ' else h[k])
  {
    assert "-" == ['-'] && " " == [' '];
    ReplaceFirstChar(h, '-', ' ');
  }

  /** Only the first hyphen of the horizon becomes a space. */
  lemma YearDisplayKeepsLaterHyphens(h: string, k: nat)
    requires Contains(h, "year") && k < |h| && h[k] == '-' && IndexOf(h, "-") != Some(k)
    ensures YearDisplay(h)[3 + k] == '-'
  {
    YearDisplayShape(h);
  }

  /** With no product, no horizon, no focus area and no industry the title falls back to its defaults. */
  lemma TitleDefaults(dv: Bindings)
    requires !Truthy(Lookup(dv, "famous_product")) && !Truthy(Lookup(dv, "product_type"))
    requires !Truthy(Lookup(dv, "time_horizon"))
    requires !Truthy(Lookup(dv, "focus_area")) && !Truthy(Lookup(dv, "industry"))
    ensures ProductName(dv) == "technology" && TimeHorizon(dv) == "10-years"
    ensures Title(dv) == TitleHead(dv)
    ensures TitleHead(dv) == "Future of " + Capitalize("technology") + " " + YearDisplay("10-years")
  {
    Associative("Future of " + Capitalize("technology"), " ", YearDisplay("10-years"));
  }

  /** A set focus area shows in the title right after its head. */
  lemma TitleShowsFocus(dv: Bindings)
    requires Truthy(Lookup(dv, "focus_area"))
    ensures OccursAt(Title(dv), " - " + Capitalize(Lookup(dv, "focus_area").value), |TitleHead(dv)|)
  {
    var head := TitleHead(dv);
    var part := " - " + Capitalize(Lookup(dv, "focus_area").value);
    var industry := Lookup(dv, "industry");
    var tail := if Truthy(industry) then " in " + Capitalize(industry.value) else "";
    assert Title(dv) == head + part + tail;
    OccursBetween(head, part, tail);
  }

  /** The description always ends with the fixed sentence about the predictions. */
  lemma DescriptionEndsWithTail(dv: Bindings)
    ensures |Description(dv)| > |DescriptionTail|
    ensures Description(dv)[|Description(dv)| - |DescriptionTail|..] == DescriptionTail
  {
    var d := Description(dv);
    var front := "Discover what " + Capitalize(ProductName(dv)) + " will look like" + (" " + YearDisplay(TimeHorizon(dv)));
    assert d == front + DescriptionTail;
    assert |front| > 0;
  }

  // Body

  /** The body is empty exactly when neither a focus area nor an industry is set. */
  lemma BodyContentEmpty(content: ContentTables, dv: Bindings)
    ensures BodyContent(content, dv) == "" <==>
      !Truthy(Lookup(dv, "focus_area")) && !Truthy(Lookup(dv, "industry"))
  {
    var focus := Lookup(dv, "focus_area");
    var industry := Lookup(dv, "industry");
    if Truthy(focus) {
      var f := FocusParagraph(content, focus.value, Capitalize(ProductName(dv)));
      assert |f| >= 7;
      assert |BodyContent(content, dv)| >= |f|;
    } else if Truthy(industry) {
      assert |IndustryParagraph(content, industry.value)| >= 7;
    }
  }

  /** A page shows the generic paragraph exactly when neither a focus area nor an industry is set. */
  lemma PageLead(content: ContentTables, toolUrl: string, dims: seq<Dimension>, values: seq<string>, dv: Bindings)
    ensures var p := PageOf(content, toolUrl, dims, values, dv);
      if Truthy(Lookup(dv, "focus_area")) || Truthy(Lookup(dv, "industry"))
      then Lead(p) == BodyContent(content, dv)
      else Lead(p) == FallbackParagraph(Capitalize(ProductName(dv)))
  {
    var p := PageOf(content, toolUrl, dims, values, dv);
    assert p.bodyContent == BodyContent(content, dv) && p.productDisplay == Capitalize(ProductName(dv));
    BodyContentEmpty(content, dv);
    LeadCases(p.bodyContent, p.productDisplay);
  }

  lemma LeadCases(body: string, productDisplay: string)
    ensures body != "" ==> BodyLead(body, productDisplay) == body
    ensures body == "" ==> BodyLead(body, productDisplay) == FallbackParagraph(productDisplay)
  {
  }

  /** A focus area and an industry without table entries give two empty paragraphs. */
  lemma MissingEntries(content: ContentTables, dv: Bindings)
    requires Truthy(Lookup(dv, "focus_area")) && Lookup(dv, "focus_area").value !in content.focusArea
    requires Truthy(Lookup(dv, "industry")) && Lookup(dv, "industry").value !in content.industry
    ensures BodyContent(content, dv) == "<p></p>" + "<p></p>"
  {
    FocusMissing(content, Lookup(dv, "focus_area").value, Capitalize(ProductName(dv)));
    IndustryMissing(content, Lookup(dv, "industry").value);
  }

  lemma IndustryMissing(content: ContentTables, industry: string)
    requires industry !in content.industry
    ensures IndustryParagraph(content, industry) == "<p></p>"
  {
  }

  lemma FocusMissing(content: ContentTables, focus: string, productDisplay: string)
    requires focus !in content.focusArea
    ensures FocusParagraph(content, focus, productDisplay) == "<p></p>"
  {
    assert !Contains("", "{product}");
  }

  // Slug and URL

  /** Values without hyphens can be read back from the slug. */
  lemma SlugRoundTrip(values: seq<string>)
    requires |values| >= 1
    requires forall k :: 0 <= k < |values| ==> '-' !in values[k]
    ensures Split(Slug(values), "-") == values
  {
    assert "-" == ['-'];
    SplitJoinChar(values, '-');
  }

  /** Under one tool URL, different slugs give different page URLs. */
  lemma PageUrlInjective(toolUrl: string, s: string, t: string)
    requires PageUrl(toolUrl, s) == PageUrl(toolUrl, t)
    ensures s == t
  {
    var n := |toolUrl + "/p/"|;
    assert PageUrl(toolUrl, s) == (toolUrl + "/p/") + s + "/";
    assert PageUrl(toolUrl, t) == (toolUrl + "/p/") + t + "/";
    assert |s| == |t|;
    assert s == PageUrl(toolUrl, s)[n..n + |s|];
    assert t == PageUrl(toolUrl, t)[n..n + |t|];
  }

  // Related links

  /**
   * What a related link is: it swaps a dimension the tuple sets for one of that
   * dimension's other values, links to the slug of the swapped object, and is
   * titled after the new value.
   */
  predicate ValidLink(dims: seq<Dimension>, dv: Bindings, l: RelatedLink)
  {
    l.dimIndex < |dims| &&
    Truthy(Lookup(dv, dims[l.dimIndex].name)) &&
    l.value in dims[l.dimIndex].values &&
    l.value != Lookup(dv, dims[l.dimIndex].name).value &&
    l.slug == SwapSlug(dv, dims[l.dimIndex].name, l.value) &&
    l.title == "Future of " + Capitalize(l.value)
  }

  /** Every link in `ls` is valid. */
  predicate AllValid(dims: seq<Dimension>, dv: Bindings, ls: seq<RelatedLink>)
  {
    forall l :: l in ls ==> ValidLink(dims, dv, l)
  }

  /** The links are grouped by dimension in table order, at most two per dimension. */
  predicate Grouped(ls: seq<RelatedLink>)
  {
    (forall i, j :: 0 <= i < j < |ls| ==> ls[i].dimIndex <= ls[j].dimIndex) &&
    (forall i :: 0 <= i && i + 2 < |ls| ==> ls[i].dimIndex < ls[i + 2].dimIndex)
  }

  /** Every link of a dimension is valid, and there are at most two of them. */
  lemma DimLinksValid(dims: seq<Dimension>, d: nat, dv: Bindings)
    requires d < |dims|
    ensures AllValid(dims, dv, DimLinks(dims, d, dv))
    ensures forall l :: l in DimLinks(dims, d, dv) ==> l.dimIndex == d
  {
    var ls := DimLinks(dims, d, dv);
    forall l | l in ls
      ensures ValidLink(dims, dv, l) && l.dimIndex == d
    {
      var current := Lookup(dv, dims[d].name);
      var alts := Alternatives(dims[d].values, current.value);
      var k :| 0 <= k < |ls| && ls[k] == l;
      assert l == LinkTo(dims, d, alts[k], dv);
      assert alts[k] in alts;
    }
  }

  lemma AllValidAppend(dims: seq<Dimension>, dv: Bindings, a: seq<RelatedLink>, b: seq<RelatedLink>)
    requires AllValid(dims, dv, a) && AllValid(dims, dv, b)
    ensures AllValid(dims, dv, a + b)
  {
    forall l | l in a + b
      ensures ValidLink(dims, dv, l)
    {
      if l in a {
      } else {
        assert l in b;
      }
    }
  }

  /** Appending at most two links of a later dimension keeps the links grouped. */
  lemma GroupedAppend(a: seq<RelatedLink>, b: seq<RelatedLink>, d: nat)
    requires Grouped(a) && forall l :: l in a ==> l.dimIndex < d
    requires |b| <= 2 && forall l :: l in b ==> l.dimIndex == d
    ensures Grouped(a + b)
  {
    var c := a + b;
    forall i, j | 0 <= i < j < |c|
      ensures c[i].dimIndex <= c[j].dimIndex
    {
      if j >= |a| {
        assert c[j] in b;
        if i < |a| {
          assert c[i] in a;
        } else {
          assert c[i] in b;
        }
      }
    }
    forall i | 0 <= i && i + 2 < |c|
      ensures c[i].dimIndex < c[i + 2].dimIndex
    {
      if i + 2 >= |a| {
        assert c[i + 2] in b;
        assert c[i] in a;
      }
    }
  }

  /** The groups of links, one per dimension, laid end to end. */
  function Flatten(gs: seq<seq<RelatedLink>>): seq<RelatedLink>
  {
    if gs == [] then [] else Flatten(gs[..|gs| - 1]) + gs[|gs| - 1]
  }

  /** The links of each of the first `n` dimensions, as separate groups. */
  function Groups(dims: seq<Dimension>, dv: Bindings, n: nat): (gs: seq<seq<RelatedLink>>)
    requires n <= |dims|
    ensures |gs| == n && forall d :: 0 <= d < n ==> gs[d] == DimLinks(dims, d, dv)
  {
    seq(n, d requires 0 <= d < n => DimLinks(dims, d, dv))
  }

  /** The candidates are the per-dimension groups laid end to end. */
  lemma {:induction false} CandidatesFlatten(dims: seq<Dimension>, dv: Bindings, n: nat)
    requires n <= |dims|
    ensures Candidates(dims, dv, n) == Flatten(Groups(dims, dv, n))
  {
    if n > 0 {
      CandidatesFlatten(dims, dv, n - 1);
      assert Groups(dims, dv, n)[..n - 1] == Groups(dims, dv, n - 1);
    }
  }

  /** Group `d` holds at most two valid links, each swapping dimension `d`. */
  predicate GroupsShaped(dims: seq<Dimension>, dv: Bindings, gs: seq<seq<RelatedLink>>)
  {
    forall d :: 0 <= d < |gs| ==>
      |gs[d]| <= 2 && AllValid(dims, dv, gs[d]) && forall l: RelatedLink :: l in gs[d] ==> l.dimIndex == d
  }

  /** Laying shaped groups end to end gives valid links grouped by dimension in order. */
  lemma {:induction false} FlattenShape(dims: seq<Dimension>, dv: Bindings, gs: seq<seq<RelatedLink>>)
    requires GroupsShaped(dims, dv, gs)
    ensures var c := Flatten(gs);
      |c| <= 2 * |gs| && AllValid(dims, dv, c) && Grouped(c) &&
      forall l :: l in c ==> l.dimIndex < |gs|
  {
    if gs != [] {
      var k := |gs| - 1;
      assert GroupsShaped(dims, dv, gs[..k]);
      FlattenShape(dims, dv, gs[..k]);
      var a, b := Flatten(gs[..k]), gs[k];
      GroupedAppend(a, b, k);
      AllValidAppend(dims, dv, a, b);
      assert forall l :: l in a + b ==> l in a || l in b;
    }
  }

  /**
   * The candidate links of the first `n` dimensions are valid, come from those
   * dimensions in table order, and no dimension contributes more than two.
   */
  lemma CandidatesShape(dims: seq<Dimension>, dv: Bindings, n: nat)
    requires n <= |dims|
    ensures var c := Candidates(dims, dv, n);
      |c| <= 2 * n && AllValid(dims, dv, c) && Grouped(c) &&
      forall l :: l in c ==> l.dimIndex < n
  {
    var gs := Groups(dims, dv, n);
    forall d | 0 <= d < n
      ensures |gs[d]| <= 2 && AllValid(dims, dv, gs[d]) && forall l: RelatedLink :: l in gs[d] ==> l.dimIndex == d
    {
      DimLinksValid(dims, d, dv);
    }
    CandidatesFlatten(dims, dv, n);
    FlattenShape(dims, dv, gs);
  }

  /** A prefix of grouped valid links is grouped and valid. */
  lemma PrefixShape(dims: seq<Dimension>, dv: Bindings, c: seq<RelatedLink>, k: nat)
    requires k <= |c| && AllValid(dims, dv, c) && Grouped(c)
    ensures AllValid(dims, dv, c[..k]) && Grouped(c[..k])
  {
    forall l | l in c[..k]
      ensures l in c
    {
      var i :| 0 <= i < k && c[..k][i] == l;
      assert c[i] == l;
    }
  }

  /**
   * The links a page shows: at most six, each valid, grouped by dimension in
   * table order, at most two per dimension.
   */
  lemma RelatedLinksShape(dims: seq<Dimension>, dv: Bindings)
    ensures var r := RelatedLinks(dims, dv);
      |r| <= 6 && AllValid(dims, dv, r) && Grouped(r)
  {
    var c := Candidates(dims, dv, |dims|);
    CandidatesShape(dims, dv, |dims|);
    var r := RelatedLinks(dims, dv);
    assert r == c[..|r|];
    PrefixShape(dims, dv, c, |r|);
  }

  /** A dimension the tuple does not set contributes no link. */
  lemma UnsetDimensionNoLinks(dims: seq<Dimension>, dv: Bindings, d: nat)
    requires d < |dims| && !Truthy(Lookup(dv, dims[d].name))
    ensures forall l :: l in RelatedLinks(dims, dv) ==> l.dimIndex != d
  {
    RelatedLinksShape(dims, dv);
    var r := RelatedLinks(dims, dv);
    forall l | l in r
      ensures l.dimIndex != d
    {
      assert ValidLink(dims, dv, l);
    }
  }

  /**
   * For the object a combination builds (distinct names, non-empty values), a
   * swapped link leads to the slug of the tuple with that one value replaced,
   * and never to the page's own slug.
   */
  lemma SwapSlugOfCombination(names: seq<string>, values: seq<string>, i: nat, v: string)
    requires |names| == |values| && DistinctNames(names) && i < |names|
    requires forall k :: 0 <= k < |values| ==> values[k] != ""
    requires v != ""
    ensures SwapSlug(BindingsOf(names, values), names[i], v) == Slug(values[i := v])
    ensures v != values[i] ==> SwapSlug(BindingsOf(names, values), names[i], v) != Slug(values)
  {
    var dv := BindingsOf(names, values);
    BindingsOfDistinct(names, values);
    BindingsOfLookup(names, values, i);
    IndexOfNameFirst(dv, names[i]);
    var j := IndexOfName(dv, names[i]).value;
    assert j == i;
    AssignBoundValues(dv, names[i], v);
    var swapped := values[i := v];
    assert Values(Assign(dv, names[i], v)) == swapped;
    assert forall k :: 0 <= k < |swapped| ==> swapped[k] != "";
    assert NonEmpty(swapped) == swapped;
    JoinReplaceChanges(values, i, v, "-");
  }

  // The generator's own tables

  /** Every focus text of the generator's table holds "{product}", so a set focus area always shows the product. */
  lemma SourceFocusHasProduct(focus: string)
    requires focus in SourceFocusTexts
    ensures Contains(SourceFocusTexts[focus], "{product}")
  {
    var (before, after) := SourceFocusParts[focus];
    assert SourceFocusTexts[focus] == FocusText(before, after);
  }

  /** A focus area whose text holds "{product}" gets a paragraph that shows the product's display name. */
  lemma FocusParagraphShowsProduct(content: ContentTables, focus: string, productDisplay: string)
    requires focus in content.focusArea && Contains(content.focusArea[focus], "{product}")
    requires '$' !in productDisplay
    ensures Contains(FocusParagraph(content, focus, productDisplay), productDisplay)
  {
    var t := content.focusArea[focus];
    var r := ReplaceFirst(t, "{product}", productDisplay);
    var i := IndexOf(t, "{product}").value;
    ReplaceShowsReplacement(t, "{product}", productDisplay);
    assert ("<p>" + r + "</p>")[3 + i..3 + i + |productDisplay|] == r[i..i + |productDisplay|];
    OccursContains("<p>" + r + "</p>", productDisplay, 3 + i);
  }

  /** On the generator's tables, every known focus area's paragraph shows the product's display name. */
  lemma FocusShowsProduct(focus: string, productDisplay: string)
    requires focus in SourceContent.focusArea && '$' !in productDisplay
    ensures Contains(FocusParagraph(SourceContent, focus, productDisplay), productDisplay)
  {
    SourceFocusHasProduct(focus);
    FocusParagraphShowsProduct(SourceContent, focus, productDisplay);
  }
}
