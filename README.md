# Future Visualizer: a Dafny model of its generators and its token and payment bookkeeping

The Future Visualizer shows what a product or concept might look like ten years from now. Around a language-model call sit four pieces of deterministic logic, and this project models them in Dafny and proves properties of each:

- **The programmatic SEO generator** (`programmatic-seo/generate-pages.js`). It takes the cartesian product of each combination of dimensions. Every value tuple gets a slug, a URL, a title, a description, a lead paragraph and up to six related-page links. The generator then writes the programmatic sitemap, the main sitemap and the sitemap index. Modules `SeoText`, `SeoCartesian`, `SeoBindings`, `SeoPages`, `SeoPageFacts`, `SeoGenerate` and `SeoSitemap`.
- **The Open Graph image emitter** (`frontend/generate-og.js`). It writes a PNG by hand, following the W3C PNG specification (ISO/IEC 15948): the signature, chunk framing with CRC-32, the IHDR fields, filter-0 scanlines of a vertical gradient, and the IEND chunk. Module `OgPng`.
- **The backend ledger and endpoints**:
  - the per-device generation ledger (`backend/app/services/token_service.py`, module `TokenService`);
  - the `/visualize` request flow, as a transition on that ledger (`backend/app/api/v1/visualize.py`, module `Visualize`);
  - the payment catalogue, checkout and webhook (`backend/app/api/v1/payment.py`, module `Payment`);
  - the request validation that decides 422 answers (`backend/app/api/v1/schemas.py`, module `Schemas`).
- **The post-processing of the model's reply** (`backend/app/services/llm_service.py`, module `LlmService`): the language instruction, stripping Markdown code fences, and the fallback record when the reply is not JSON.

`Strings` holds the string built-ins the sources use: `indexOf`/`in`, `split`, `join`, a first-occurrence `replace` and `substring`/slicing. `Wrappers` holds `Option`.

Imperative code keeps its form:
- the CRC loop, the chunk writer, the scanline loop and the final concatenation are methods;
- the cartesian product's nested loops, the page loop and the sitemap loop are methods;
- the ledger is a class `TokenStore` whose map of records the service functions update;
- the payment table is a class `PaymentStore`.

Each method is proved equal to a specification function, and the properties are proved about those functions.

## Model

| member | source | states |
|---|---|---|
| SeoText.UpperChar | programmatic-seo/generate-pages.js:53 | `toUpperCase` on one character: a lower-case ASCII letter becomes its upper-case letter (code minus 32); every other character is unchanged |
| SeoText.LowerChar | programmatic-seo/generate-pages.js:47 | `toLowerCase` on one character: an upper-case ASCII letter becomes its lower-case letter (code plus 32); every other character is unchanged |
| SeoText.Lower | programmatic-seo/generate-pages.js:47 | `toLowerCase` keeps the length and lowers every character in place |
| SeoText.CapitalizeWords | programmatic-seo/generate-pages.js:53 | the `map` over the words keeps their number and capitalizes each word |
| SeoText.CapitalizeWord | programmatic-seo/generate-pages.js:53 | `word.charAt(0).toUpperCase() + word.slice(1)`: the first character upper-cased, the rest kept, the empty word left empty (stated for every word by `WordCapitalized`) |
| SeoText.Capitalize | programmatic-seo/generate-pages.js:52-54 | `capitalize`: split on '-', upper-case the first character of each word, join the words with spaces (what it does character by character is `CapitalizePointwise`) |
| SeoText.WordCapitalized | programmatic-seo/generate-pages.js:53 | a word without '-' keeps its length; only its first character is upper-cased |
| SeoText.CapitalizeAtHyphen | programmatic-seo/generate-pages.js:53 | `capitalize` is the capitalized text before the first '-', a space, then `capitalize` of the rest |
| SeoText.CapitalizePointwise | programmatic-seo/generate-pages.js:52-54 | `capitalize` keeps the length; every '-' becomes a space; the first character and each character after a '-' are upper-cased; nothing else changes |
| SeoText.CollapseRunsShape | programmatic-seo/generate-pages.js:48 | replacing runs of other characters by '-' leaves only `[a-z0-9]` and single hyphens |
| SeoText.SlugifyIsSlug | programmatic-seo/generate-pages.js:46-50 | `slugify` yields runs of `[a-z0-9]` separated by single hyphens, with no hyphen at either end |
| SeoText.CollapseRunsKeeps | programmatic-seo/generate-pages.js:48 | the run replacement leaves text already in slug form unchanged |
| SeoText.SlugifyKeepsSlug | programmatic-seo/generate-pages.js:46-50 | `slugify` of a slug is that slug |
| SeoText.SlugifyIdempotent | programmatic-seo/generate-pages.js:46-50 | `slugify(slugify(t)) == slugify(t)` |
| SeoText.CollapseRuns | programmatic-seo/generate-pages.js:48 | `.replace(/[^a-z0-9]+/g, '-')`: each maximal run of characters outside `[a-z0-9]` becomes one '-' |
| SeoText.TrimHyphens | programmatic-seo/generate-pages.js:49 | `.replace(/(^-\|-$)/g, '')`: drops one leading and one trailing '-' |
| SeoText.Slugify | programmatic-seo/generate-pages.js:46-50 | `slugify`: lower-case, collapse the runs, trim the hyphens at both ends (its shape is `SlugifyIsSlug`, its idempotence `SlugifyIdempotent`) |
| SeoCartesian.Row | programmatic-seo/generate-pages.js:297-299 | the inner loop pushes `[...a, c]` for each value `c` of the current list, in list order |
| SeoCartesian.Extend | programmatic-seo/generate-pages.js:294-301 | one reduce step: the tuples of `acc` in order, each followed by every value of `curr` in order (positions in `ExtendAt`) |
| SeoCartesian.Product | programmatic-seo/generate-pages.js:291-302 | `cartesianProduct`: `[[]]` for no lists, otherwise the fold of the reduce step from `[[]]` (size in `ProductSize`, order in `LastVariesFastest`, membership in `ProductTupleShape` and `ProductComplete`) |
| SeoCartesian.ExtendAt | programmatic-seo/generate-pages.js:294-302 | one reduce step has `|acc|·|curr|` tuples; tuple `i·|curr|+j` is `acc[i] + [curr[j]]` |
| SeoCartesian.ExtendLength | programmatic-seo/generate-pages.js:294-302 | one reduce step multiplies the number of tuples by the length of the current list |
| SeoCartesian.ProductSize | programmatic-seo/generate-pages.js:291-302 | the product has the product of the list lengths many tuples; no lists give exactly one empty tuple |
| SeoCartesian.LastVariesFastest | programmatic-seo/generate-pages.js:294-302 | nested-loop order: tuple `i·|last|+j` is tuple `i` of the other lists' product followed by value `j` of the last list |
| SeoCartesian.ExtendIndex | programmatic-seo/generate-pages.js:296-300 | every position of a reduce step names one earlier tuple and one value of the current list |
| SeoCartesian.ProductTupleShape | programmatic-seo/generate-pages.js:294-302 | every tuple has one value per list, value `k` drawn from list `k` |
| SeoCartesian.ProductTupleLengths | programmatic-seo/generate-pages.js:294-302 | every tuple of the product has as many values as there are lists |
| SeoCartesian.ProductComplete | programmatic-seo/generate-pages.js:294-302 | conversely, every tuple drawing value `k` from list `k` occurs in the product |
| SeoCartesian.ExtendDistinct | programmatic-seo/generate-pages.js:296-300 | distinct tuples extended by distinct values stay distinct |
| SeoCartesian.ProductDistinct | programmatic-seo/generate-pages.js:291-302 | lists without repeated values give a product without repeated tuples |
| SeoCartesian.CartesianProduct | programmatic-seo/generate-pages.js:291-303 | the nested loops compute the product, which is the fold of the reduce step from `[[]]` |
| SeoBindings.IndexOfName | programmatic-seo/generate-pages.js:261-264 | the position found for a property name holds that name |
| SeoBindings.IndexOfNameFirst | programmatic-seo/generate-pages.js:261-264 | the position found is the first holding the name; none is found exactly when the name is unbound |
| SeoBindings.Values | programmatic-seo/generate-pages.js:225 | `Object.values` lists the values in insertion order |
| SeoBindings.Lookup | programmatic-seo/generate-pages.js:221 | `dimValues[name]` (also read at line 263): the value bound to the name, `None` for `undefined` when the name is not bound (how it reads after an assignment is `LookupAssignSame` and `LookupAssignOther`) |
| SeoBindings.Assign | programmatic-seo/generate-pages.js:224 | the spread override, and the property assignment at line 263: a bound name keeps its insertion position with the new value, a new name is appended at the end, which fixes the `Object.values` order (`AssignBoundValues`, `AssignNewValues`) |
| SeoBindings.Truthy | programmatic-seo/generate-pages.js:221 | JavaScript truthiness of a looked-up string, as tested here and by `\|\|` at line 57: defined and not empty |
| SeoBindings.OrElse | programmatic-seo/generate-pages.js:57 | `o \|\| fallback` is `o` when it is a non-empty string, else the fallback |
| SeoBindings.LookupAssignSame | programmatic-seo/generate-pages.js:263 | after `dimValues[name] = v`, the name reads `v` |
| SeoBindings.LookupAssignOther | programmatic-seo/generate-pages.js:263 | an assignment leaves every other property unchanged |
| SeoBindings.AssignBoundValues | programmatic-seo/generate-pages.js:224 | overwriting an existing key keeps its position among the values and changes only that value |
| SeoBindings.AssignNewValues | programmatic-seo/generate-pages.js:224 | a new key is appended after the existing ones |
| SeoBindings.AssignUnique | programmatic-seo/generate-pages.js:262-264 | assignments never bind a name twice |
| SeoBindings.BindingsOfDistinct | programmatic-seo/generate-pages.js:261-264 | with distinct dimension names, the object binds the i-th name to the i-th value, in combination order |
| SeoBindings.BindingsOf | programmatic-seo/generate-pages.js:261-264 | `combo.forEach` assigning `values[i]` to the i-th dimension name, starting from an empty object (what it binds is `BindingsOfDistinct`, `BindingsOfLookup` and `BindingsOfUnbound`) |
| SeoBindings.BindingsOfLookup | programmatic-seo/generate-pages.js:261-264 | every name of the combination reads back its own value, and `Object.values` is the tuple |
| SeoBindings.BindingsOfUnbound | programmatic-seo/generate-pages.js:261-264 | a name outside the combination is unbound |
| SeoPages.TableText | programmatic-seo/generate-pages.js:80 | `table[key] \|\| ''` is empty for a key without an entry |
| SeoPages.FocusText | programmatic-seo/generate-pages.js:17-26 | a focus text written as the words around its placeholder contains "{product}" right after the first words |
| SeoPages.TimeHorizon | programmatic-seo/generate-pages.js:59 | the horizon is never empty (it defaults to '10-years') |
| SeoPages.ProductName | programmatic-seo/generate-pages.js:57 | `famous_product \|\| product_type \|\| 'technology'` |
| SeoPages.YearDisplay | programmatic-seo/generate-pages.js:68 | "in " and the horizon, with its first '-' turned into a space when the horizon contains "year" |
| SeoPages.TitleHead | programmatic-seo/generate-pages.js:63-70 | "Future of ", the capitalized product, a space, then the year display |
| SeoPages.Title | programmatic-seo/generate-pages.js:63-79 | the title head, then " - <Focus>" when a focus area is set, then " in <Industry>" when an industry is set, each capitalized |
| SeoPages.Description | programmatic-seo/generate-pages.js:64-83 | "Discover what <Product> will look like", a space and the year display, then the fixed closing sentence |
| SeoPages.FocusParagraph | programmatic-seo/generate-pages.js:75 | `<p>`, the focus area's table text (empty when missing) with its first "{product}" replaced by the product display (with its `$` patterns expanded as `replace` does), `</p>` |
| SeoPages.IndustryParagraph | programmatic-seo/generate-pages.js:80 | `<p>`, the industry's table text or the empty string, `</p>` |
| SeoPages.BodyContent | programmatic-seo/generate-pages.js:65-81 | the focus paragraph when a focus area is set, then the industry paragraph when an industry is set; empty otherwise (`BodyContentEmpty`) |
| SeoPages.Slug | programmatic-seo/generate-pages.js:85 | `combo.join('-')` |
| SeoPages.PageUrl | programmatic-seo/generate-pages.js:86 | `tool_url + "/p/" + slug + "/"` |
| SeoPages.FallbackParagraph | programmatic-seo/generate-pages.js:199 | the generic paragraph contains more than the product name |
| SeoPages.BodyLead | programmatic-seo/generate-pages.js:199 | `bodyContent \|\| <generic paragraph>` is never empty |
| SeoPages.Without | programmatic-seo/generate-pages.js:222 | the `filter` keeps exactly the values different from the current one; its order and repeats are fixed by `WithoutAppend` and `WithoutSingleton` |
| SeoPages.WithoutAppend | programmatic-seo/generate-pages.js:222 | the filter distributes over concatenation, so it keeps the other values in their list order, repeats included |
| SeoPages.WithoutSingleton | programmatic-seo/generate-pages.js:222 | one value is kept exactly when it is not the current one |
| SeoPages.Alternatives | programmatic-seo/generate-pages.js:222 | `.slice(0, 2)` of the filtered values: a prefix of the filtered list, of length two or the whole list when it is shorter, so the first two other values in list order |
| SeoPages.NonEmpty | programmatic-seo/generate-pages.js:225 | `.filter(Boolean)` keeps only non-empty strings, and changes nothing when all are non-empty |
| SeoPages.SwapSlug | programmatic-seo/generate-pages.js:224-226 | the object with one property overwritten, its values in key order, empty values dropped, joined by '-' |
| SeoPages.LinkTo | programmatic-seo/generate-pages.js:224-228 | the link for value `v` of dimension `d`: that dimension, the swapped slug, and the title "Future of " + `capitalize(v)` |
| SeoPages.DimLinks | programmatic-seo/generate-pages.js:220-230 | a dimension the tuple does not set gives no link; a set one gives one link per alternative value, in order, at most two |
| SeoPages.Candidates | programmatic-seo/generate-pages.js:220-231 | the links of the first n dimensions, dimension by dimension in table order (their shape is `CandidatesShape`) |
| SeoPages.RelatedLinks | programmatic-seo/generate-pages.js:233 | `links.slice(0, 6)`: the first six candidate links |
| SeoPages.Anchors | programmatic-seo/generate-pages.js:228 | one `<a>` element per link, in order |
| SeoPages.Anchor | programmatic-seo/generate-pages.js:228 | `<a href="/p/${slug}/">${title}</a>` for one link |
| SeoPages.RelatedHtml | programmatic-seo/generate-pages.js:233 | the anchors of those six links joined by the separator "\n      " (what `GenerateRelatedLinks` returns) |
| SeoPages.AnchorsTake | programmatic-seo/generate-pages.js:233 | keeping six anchors is the same as taking the anchors of the first six links |
| SeoPages.PushDimensionLinks | programmatic-seo/generate-pages.js:223-229 | the inner loop appends exactly the anchors of one dimension's links |
| SeoPages.GenerateRelatedLinks | programmatic-seo/generate-pages.js:215-234 | the loops produce the first six anchors, joined by the separator |
| SeoPages.MetaDescription | programmatic-seo/generate-pages.js:100-118 | the meta, og and twitter descriptions are a prefix of the full description, and that prefix is 155 characters long whenever the description is longer |
| SeoPages.Lead | programmatic-seo/generate-pages.js:199 | the lead paragraph is never empty and is the body whenever the body is not empty |
| SeoPages.PageOf | programmatic-seo/generate-pages.js:85-86 | the page URL is `tool_url + "/p/" + slug + "/"` |
| SeoPages.GeneratePageContent | programmatic-seo/generate-pages.js:56-93 | building title, description and body by appending gives the page `PageOf` describes |
| SeoPageFacts.YearDisplayShape | programmatic-seo/generate-pages.js:67-71 | the horizon is shown after "in "; one mentioning "year" keeps its length with only its first '-' turned into a space; any other is shown as is |
| SeoPageFacts.YearDisplayKeepsLaterHyphens | programmatic-seo/generate-pages.js:68 | `replace('-', ' ')` leaves every hyphen after the first |
| SeoPageFacts.TitleDefaults | programmatic-seo/generate-pages.js:57-69 | with nothing set, the product is 'technology', the horizon '10-years', and the title is only its head: "Future of ", the capitalized product, a space and the horizon display |
| SeoPageFacts.TitleShowsFocus | programmatic-seo/generate-pages.js:73-74 | a set focus area appears as " - <Focus>" right after the title head |
| SeoPageFacts.DescriptionEndsWithTail | programmatic-seo/generate-pages.js:64-83 | the description always ends with the fixed sentence about the predictions |
| SeoPageFacts.BodyContentEmpty | programmatic-seo/generate-pages.js:73-81 | the body is empty exactly when neither a focus area nor an industry is set |
| SeoPageFacts.PageLead | programmatic-seo/generate-pages.js:199 | a page shows the generic paragraph exactly when neither a focus area nor an industry is set |
| SeoPageFacts.MissingEntries | programmatic-seo/generate-pages.js:75-80 | a focus area and an industry without table entries still give two empty `<p></p>` paragraphs |
| SeoPageFacts.SourceFocusHasProduct | programmatic-seo/generate-pages.js:17-26 | every text of the generator's focus-area table contains "{product}" |
| SeoPageFacts.FocusParagraphShowsProduct | programmatic-seo/generate-pages.js:75 | when a focus text contains "{product}" and the display name has no '$', the focus paragraph contains the display name |
| SeoPageFacts.FocusShowsProduct | programmatic-seo/generate-pages.js:75 | on the generator's own tables, every known focus area's paragraph contains the product's display name (one without '$') |
| SeoPageFacts.SlugRoundTrip | programmatic-seo/generate-pages.js:85 | values without hyphens can be read back by splitting the slug on '-' |
| SeoPageFacts.PageUrlInjective | programmatic-seo/generate-pages.js:86 | under one tool URL, different slugs give different page URLs |
| SeoPageFacts.DimLinksValid | programmatic-seo/generate-pages.js:220-229 | each link of a dimension swaps that dimension for another of its values, links to the swapped object's slug and is titled "Future of <Value>" |
| SeoPageFacts.CandidatesShape | programmatic-seo/generate-pages.js:220-231 | the collected links are valid, grouped by dimension in table order, at most two per dimension |
| SeoPageFacts.RelatedLinksShape | programmatic-seo/generate-pages.js:215-233 | a page shows at most six links, each valid, grouped by dimension in table order, at most two per dimension |
| SeoPageFacts.UnsetDimensionNoLinks | programmatic-seo/generate-pages.js:221 | a dimension the tuple does not set contributes no link |
| SeoPageFacts.SwapSlugOfCombination | programmatic-seo/generate-pages.js:224-226 | the swapped object's slug is the tuple with one value replaced, joined by '-' (combination order kept), and differs from the page's own slug |
| SeoGenerate.DimMapOf | programmatic-seo/generate-pages.js:249-251 | the dimension map has exactly the table's names as keys |
| SeoGenerate.DimMapLastWins | programmatic-seo/generate-pages.js:249-251 | for a name, the map holds the values of the last dimension with that name |
| SeoGenerate.BuildDimMap | programmatic-seo/generate-pages.js:249-251 | the loop builds that map |
| SeoGenerate.ArraysOf | programmatic-seo/generate-pages.js:257 | `combo.map(...)` has one list per dimension of the combination |
| SeoGenerate.Tuples | programmatic-seo/generate-pages.js:257-258 | every tuple of a combination has one value per dimension |
| SeoGenerate.BuilderPage | programmatic-seo/generate-pages.js:85-86 | a built page carries its tuple's slug and the URL of that slug |
| SeoGenerate.PagesOf | programmatic-seo/generate-pages.js:260-273 | one page per tuple |
| SeoGenerate.PagesOfAt | programmatic-seo/generate-pages.js:260-266 | the n-th page is built from the n-th tuple bound to the combination's names |
| SeoGenerate.ComboPages | programmatic-seo/generate-pages.js:257-273 | a combination yields one page per tuple of its product |
| SeoGenerate.PagesUpTo | programmatic-seo/generate-pages.js:254-274 | the pages of the first n combinations, each combination's pages after the previous ones; the page loop `GeneratePages` is proved equal to it |
| SeoGenerate.AllPages | programmatic-seo/generate-pages.js:254-274 | every page the generator writes, in combination order and then in tuple order (its size is `PageCount`) |
| SeoGenerate.Urls | programmatic-seo/generate-pages.js:272 | `allUrls` holds the URL of each page, in order |
| SeoGenerate.BindCombination | programmatic-seo/generate-pages.js:261-264 | the `forEach` builds the object that binds the combination's names to the tuple |
| SeoGenerate.GenerateTuplePage | programmatic-seo/generate-pages.js:261-266 | the inner loop body binds the tuple, then builds its page |
| SeoGenerate.GenerateComboPages | programmatic-seo/generate-pages.js:257-273 | the inner loop yields the pages of one combination, in product order |
| SeoGenerate.GeneratePages | programmatic-seo/generate-pages.js:254-274 | the outer loop yields the pages of every combination in order, and their URLs |
| SeoGenerate.GenerateAllPages | programmatic-seo/generate-pages.js:236-289 | the pages and URLs as above, the three sitemaps dated `today`, and a returned count equal to the number of URLs |
| SeoGenerate.PageCount | programmatic-seo/generate-pages.js:254-276 | the number of pages is the sum of the combinations' product sizes |
| SeoGenerate.MissingDimensionNoPages | programmatic-seo/generate-pages.js:257-258 | a combination naming a dimension the table lacks yields no page |
| SeoGenerate.ComboPageAt | programmatic-seo/generate-pages.js:260-272 | the k-th page of a combination is the page of its k-th tuple, with that tuple's slug and URL |
| SeoGenerate.ComboPageBindings | programmatic-seo/generate-pages.js:261-264 | that page binds each name of the combination to its own value and nothing else |
| SeoGenerate.ArraysOfTable | programmatic-seo/generate-pages.js:249-257 | with each name used once in the table, the lists of a combination are its dimensions' value lists |
| SeoGenerate.TupleValuesNonEmpty | programmatic-seo/generate-pages.js:257-258 | with no empty value in the table, no tuple holds an empty value |
| SeoGenerate.SwappedDimensionInCombo | programmatic-seo/generate-pages.js:220-224 | a related link of a page swaps one of the page's own combination dimensions |
| SeoGenerate.SwapInTuples | programmatic-seo/generate-pages.js:222-225 | replacing one value of a tuple by another value of the same dimension gives another tuple of the combination |
| SeoGenerate.RelatedLinksResolve | programmatic-seo/generate-pages.js:220-226 | every related link points at the slug of another generated page of the same combination |
| SeoSitemap.ProgrammaticEntries | programmatic-seo/generate-pages.js:312-319 | one entry per generated URL, in order, each monthly with priority 0.6 |
| SeoSitemap.UrlBlock | programmatic-seo/generate-pages.js:313-319 | one `<url>` element: the location, the date, the change frequency and the priority inside the source's fixed text |
| SeoSitemap.UrlBlocks | programmatic-seo/generate-pages.js:312-320 | the `<url>` elements of the entries, in order |
| SeoSitemap.UrlSet | programmatic-seo/generate-pages.js:308-322 | the declaration and `<urlset>` opening, the `<url>` elements, then `</urlset>` (read back by `ParseProgrammaticSitemap`) |
| SeoSitemap.GenerateSitemap | programmatic-seo/generate-pages.js:305-326 | the loop writes the `<urlset>` document of those entries |
| SeoSitemap.MainSitemapEntries | programmatic-seo/generate-pages.js:328-345 | the main sitemap has exactly two entries: the root (weekly, 1.0), then /pricing (monthly, 0.8) |
| SeoSitemap.MainSitemap | programmatic-seo/generate-pages.js:328-345 | the source's fixed main-sitemap text with the tool URL and the date filled in (its two entries are `MainSitemapEntries`) |
| SeoSitemap.SitemapIndex | programmatic-seo/generate-pages.js:351-360 | the source's fixed `<sitemapindex>` text with the tool URL filled in (its order is `SitemapIndexOrder`) |
| SeoSitemap.SitemapIndexOrder | programmatic-seo/generate-pages.js:351-360 | the index lists sitemap-main.xml, then sitemap-programmatic.xml, and nothing else |
| SeoSitemap.ReadEntryOf | programmatic-seo/generate-pages.js:313-318 | a written `<url>` block reads back as its entry |
| SeoSitemap.ReadEntriesOf | programmatic-seo/generate-pages.js:312-322 | the written blocks read back as the entries, in order |
| SeoSitemap.ParseProgrammaticSitemap | programmatic-seo/generate-pages.js:305-322 | reading the programmatic sitemap back gives one entry per URL, in generation order |
| OgPng.Crc32 | frontend/generate-og.js:13-22 | the CRC is an unsigned 32-bit value, and the CRC of no bytes is 0 |
| OgPng.ShiftByte | frontend/generate-og.js:17-19 | the inner loop performs eight reflected shift steps with polynomial 0xEDB88320 |
| OgPng.StepByte | frontend/generate-og.js:16-19 | one outer iteration XORs in the byte, then shifts eight times |
| OgPng.ShiftN | frontend/generate-og.js:17-19 | n steps of `(crc >>> 1) ^ (crc & 1 ? 0xedb88320 : 0)` on the 32-bit register |
| OgPng.Shift | frontend/generate-og.js:18 | one step of the register: shift right by one, then XOR with 0xEDB88320 when the bit shifted out was 1 |
| OgPng.UpdateByte | frontend/generate-og.js:16-19 | `crc ^ byte`, then eight steps |
| OgPng.Register | frontend/generate-og.js:15-20 | the register after the bytes of the data, in order (what `ComputeCrc32` tracks as its loop invariant) |
| OgPng.ComputeCrc32 | frontend/generate-og.js:13-22 | the double loop from all-ones, complemented at the end, computes `Crc32` |
| OgPng.UInt32BE | frontend/generate-og.js:26 | a 32-bit value is written as four bytes |
| OgPng.UInt32RoundTrip | frontend/generate-og.js:26 | reading the four big-endian bytes back gives the value |
| OgPng.WriteUInt32BE | frontend/generate-og.js:35-36 | `writeUInt32BE` replaces exactly the four bytes at the offset with the big-endian value |
| OgPng.Chunk | frontend/generate-og.js:24-31 | a chunk with a 4-byte type is 12 bytes longer than its data |
| OgPng.CreateChunk | frontend/generate-og.js:24-31 | `createChunk` is the length, the type, the data, then the CRC of type and data |
| OgPng.ReadChunk | frontend/generate-og.js:24-31 | reads the layout `createChunk` writes: a 4-byte length, the type, the data and a CRC that must match; none when cut short or corrupt (the round trip is `ReadChunkOf`) |
| OgPng.ReadChunkOf | frontend/generate-og.js:24-31 | a chunk reads back as its type and data, with the stored CRC matching, followed by what comes after it |
| OgPng.IhdrData | frontend/generate-og.js:34-41 | the IHDR data is 13 bytes |
| OgPng.IhdrFields | frontend/generate-og.js:34-41 | width and height read back big-endian, then bit depth 8, colour type 2, compression 0, filter 0, interlace 0 |
| OgPng.BuildIhdr | frontend/generate-og.js:34-41 | the writes into the 13-byte buffer produce the IHDR data |
| OgPng.Red | frontend/generate-og.js:52 | the red component lies in 10..29 |
| OgPng.Green | frontend/generate-og.js:53 | the green component lies in 10..24 |
| OgPng.Blue | frontend/generate-og.js:54 | the blue component lies in 15..44 |
| OgPng.GradientMonotone | frontend/generate-og.js:52-54 | each component is non-decreasing down the image |
| OgPng.Pixel | frontend/generate-og.js:55 | a pixel is three bytes |
| OgPng.PixelRun | frontend/generate-og.js:50-56 | a row of n pixels is 3n bytes |
| OgPng.Row | frontend/generate-og.js:49-56 | a row is 1 + 3·width bytes |
| OgPng.PushRow | frontend/generate-og.js:49-56 | one outer iteration appends exactly one row |
| OgPng.BuildRows | frontend/generate-og.js:47-57 | the loops build the raw image of `height` rows |
| OgPng.Rows | frontend/generate-og.js:47-57 | the raw image: the first n scanlines, each a filter byte 0 followed by its pixels (its length and layout are `RowsLength`, `RowsAt` and `RawImageBytes`) |
| OgPng.PixelRunAt | frontend/generate-og.js:50-55 | component c of pixel x is at position 3x + c, and every pixel of a row has the row's colour |
| OgPng.RowsLength | frontend/generate-og.js:47-57 | n rows take n·(1 + 3·width) bytes |
| OgPng.RowsPrefix | frontend/generate-og.js:48-57 | fewer rows are a prefix of more rows |
| OgPng.RowsAt | frontend/generate-og.js:48-57 | row y occupies bytes y·rowSize up to (y+1)·rowSize |
| OgPng.RawImageBytes | frontend/generate-og.js:47-57 | the raw image is height·(1 + 3·width) bytes; each row starts with filter byte 0; byte 1 + 3x + c of row y is component c of row y's colour |
| OgPng.RowStart | frontend/generate-og.js:49-55 | wherever a row sits, it starts with filter byte 0 and holds its colour at 1 + 3x + c |
| OgPng.PngOf | frontend/generate-og.js:65 | the file starts with the 8-byte signature 137 80 78 71 13 10 26 10 and is 57 bytes longer than the compressed data |
| OgPng.AssemblePng | frontend/generate-og.js:43-65 | the emitter produces signature, IHDR chunk, IDAT chunk and IEND chunk for a 1200×630 image |
| OgPng.PngBody | frontend/generate-og.js:65 | after the signature come exactly the IHDR, IDAT and IEND chunks |
| OgPng.ReadPng | frontend/generate-og.js:60-65 | reading the file back after the signature gives the IHDR fields, the compressed data, then an IEND chunk with no data and nothing after it |
| OgPng.IendChunkBytes | frontend/generate-og.js:63 | the IEND CRC is 0xAE426082, and the chunk is the 12 bytes 0 0 0 0 'I' 'E' 'N' 'D' AE 42 60 82 |
| TokenService.Lookup | backend/app/services/token_service.py:6-18 | a device without a row gets the new record: no tokens, nothing purchased, trial unused |
| TokenService.WithRecord | backend/app/services/token_service.py:6-18 | `get_or_create_token_record` leaves the device with a row and changes no device's values |
| TokenService.Sound | backend/app/services/token_service.py:41-76 | the ledger invariant: a record's balance never exceeds its purchases (kept by `OperationsKeepSound`) |
| TokenService.TokenStore.Valid | backend/app/services/token_service.py:6-88 | every stored record is sound; every method of the store keeps it |
| TokenService.AllSound | backend/app/services/token_service.py:6-88 | every record of the ledger is sound; the store's `Valid` and the request handler's `HandleKeepsSound` both use it |
| TokenService.CheckEligibility | backend/app/services/token_service.py:21-38 | usable iff the trial is unused or the balance is positive; free trial iff the trial is unused; the balance is reported when usable, else 0 |
| TokenService.Consume | backend/app/services/token_service.py:41-62 | succeeds exactly when `can_use_generation` says so; spends the trial first, keeping the balance; otherwise takes one paid token, never going negative; changes nothing on failure; never touches purchases |
| TokenService.Credit | backend/app/services/token_service.py:65-76 | `add_tokens(n)` raises the balance and the purchases by n and keeps the trial flag |
| TokenService.OperationsKeepSound | backend/app/services/token_service.py:12-76 | creating, using and adding all keep the balance at or below the purchases |
| TokenService.StatusOf | backend/app/services/token_service.py:79-88 | the status reports the record's counters, with the trial available exactly when unused |
| TokenService.Allowance | backend/app/services/token_service.py:31-38 | a record allows no further generation exactly when `can_use_generation` refuses |
| TokenService.ConsumeAllowance | backend/app/services/token_service.py:41-62 | a successful use takes exactly one generation off the allowance; a failed one happens only at zero |
| TokenService.UsesGranted | backend/app/services/token_service.py:41-62 | n uses in a row succeed min(n, allowance) times; once the allowance is spent the device is refused with the trial used |
| TokenService.TokenStore.GetOrCreate | backend/app/services/token_service.py:6-18 | returns the device's record and inserts the new record only when missing |
| TokenService.TokenStore.CanUseGeneration | backend/app/services/token_service.py:21-38 | reports `CheckEligibility` of the record and changes no value |
| TokenService.TokenStore.UseGeneration | backend/app/services/token_service.py:41-62 | returns what `Consume` returns and stores its record; no other device changes |
| TokenService.TokenStore.AddTokens | backend/app/services/token_service.py:65-76 | stores the credited record and returns its new balance; no other device changes |
| TokenService.TokenStore.GetTokenStatus | backend/app/services/token_service.py:79-88 | returns `StatusOf` the record, creating the row when missing |
| TokenService.StatusReadsAgree | backend/app/services/token_service.py:79-88 | reading the status twice returns the same data |
| Schemas.ValidateVisualize | backend/app/api/v1/schemas.py:6-8 | accepted iff the concept has 1 to 500 characters and the language is one of the seven codes; the language defaults to "en"; a rejection names exactly the failing fields |
| Schemas.ConceptOk | backend/app/api/v1/schemas.py:7 | `concept` is present and has 1 to 500 characters |
| Schemas.LanguageOk | backend/app/api/v1/schemas.py:8 | `language`, defaulting to "en", is one of en, zh, ja, de, fr, ko, es |
| Schemas.LanguageWhitelist | backend/app/api/v1/schemas.py:8 | exactly en, zh, ja, de, fr, ko and es pass the language pattern |
| Schemas.ValidateCheckout | backend/app/api/v1/schemas.py:34-38 | accepted iff the SKU and the device id are present; the URLs default to none; a rejection names exactly the missing fields |
| Schemas.MakeErrorResponse | backend/app/api/v1/schemas.py:46-49 | `payment_required` is true only when given as true |
| LlmService.LanguageInstruction | backend/app/services/llm_service.py:20-30 | a known code gets its own instruction; any other code gets the English one |
| LlmService.StripFences | backend/app/services/llm_service.py:99-102 | with "```json": the piece after the first "```json", cut at its first "```"; else with "```": the piece between the first two "```"; else the reply unchanged |
| LlmService.ValidatedLanguagesHaveInstructions | backend/app/services/llm_service.py:20-28 | the instruction table covers exactly the languages validation accepts |
| LlmService.SecondPiece | backend/app/services/llm_service.py:100-102 | `split(sep)[1]` is the text after the first separator, up to the next one |
| LlmService.UpToFree | backend/app/services/llm_service.py:100-102 | `split(sep)[0]` contains no separator |
| LlmService.StripFencesMeaning | backend/app/services/llm_service.py:99-102 | with "```json", the text after it is cut at the next "```json" and then at the next "```"; with only "```", the text between the first two fences is kept; without fences the reply is unchanged; the result never holds a fence |
| LlmService.JsonBlock | backend/app/services/llm_service.py:99-100 | when no four backticks follow "```json", the result is the text after "```json" up to the next "```", or to the end |
| LlmService.JsonFenceIsFence | backend/app/services/llm_service.py:99-102 | a reply with "```json" also contains "```", so the json branch takes precedence |
| LlmService.LeadingSpaces | backend/app/services/llm_service.py:105 | counts exactly the whitespace characters at the front |
| LlmService.IsSpace | backend/app/services/llm_service.py:105 | the characters Python's `str.isspace` accepts, which `strip()` removes: space, tab to carriage return, 0x1C to 0x1F, 0x85, 0xA0 and the Unicode space separators |
| LlmService.TrailingSpaces | backend/app/services/llm_service.py:105 | counts exactly the whitespace characters at the end |
| LlmService.Strip | backend/app/services/llm_service.py:105 | `strip()` removes exactly the leading and trailing whitespace |
| LlmService.StripIdempotent | backend/app/services/llm_service.py:105 | stripping twice is stripping once |
| LlmService.Fallback | backend/app/services/llm_service.py:107-119 | the fallback has title "The Future of {concept}", year 2036, the first 500 characters as summary, the whole content as technology section, the three other sections empty, and no key changes |
| LlmService.GenerateFutureVision | backend/app/services/llm_service.py:90-121 | a failed call raises with its message; a reply that parses gives the parsed value; one that does not gives the fallback built from the unstripped content |
| LlmService.UnparsableReplyFallsBack | backend/app/services/llm_service.py:104-119 | an unparsable reply yields the fallback record |
| Visualize.ResponseOf | backend/app/api/v1/visualize.py:75-83 | missing fields default to title "The Future of {concept}", year 2036, summary "", no sections and no key changes; the ledger's flag and balance are reported |
| Visualize.Handle | backend/app/api/v1/visualize.py:24-83 | one request on the ledger: 422 for an invalid body; 400 without a device id; 402 when the device cannot generate (row created); consume; a raised model call refunds one token and answers 500; a non-object reply answers 500; otherwise the response |
| Visualize.HasDevice | backend/app/api/v1/visualize.py:31 | the `X-Device-Id` header is present and not empty, the negation of `not x_device_id` |
| Visualize.VisualizeFuture | backend/app/api/v1/visualize.py:24-83 | the endpoint answers and changes the ledger as `Handle` says |
| Visualize.InvalidBodyFirst | backend/app/api/v1/visualize.py:24-32 | an invalid body is answered 422 before the header check, and the ledger is untouched |
| Visualize.MissingDeviceRejected | backend/app/api/v1/visualize.py:31-32 | a missing or empty device id is answered 400 before any ledger access |
| Visualize.PaymentRequired | backend/app/api/v1/visualize.py:35-45 | a device that cannot generate gets 402 with `payment_required`, and no balance changes |
| Visualize.RefundOnFailure | backend/app/api/v1/visualize.py:66-73 | when the model call raises, the answer is 500, the trial stays spent, purchases rise by one, and the balance rises by one after a trial use or returns to its old value after a paid use; no other device changes |
| Visualize.SuccessReportsLedger | backend/app/api/v1/visualize.py:35-82 | a success reports the pre-check's free-trial flag and the balance the consumption left, which is the device's stored balance |
| Visualize.HandleKeepsSound | backend/app/api/v1/visualize.py:35-73 | every request keeps every device's balance at or below its purchases |
| Visualize.FreshDevice | backend/app/api/v1/visualize.py:31-83 | a new device's first request succeeds as a free trial with balance 0, and its second is refused with 402 |
| Payment.Find | backend/app/api/v1/payment.py:43 | a SKU is found exactly when the catalogue lists it |
| Payment.FindProduct | backend/app/api/v1/payment.py:43-50 | the catalogue entry of a SKU, or none when `product_sku not in PRODUCTS` |
| Payment.CatalogueContents | backend/app/api/v1/payment.py:21-25 | the catalogue is starter 5 tokens for 499 cents, standard 15 for 999 and pro 50 for 2499, and nothing else |
| Payment.ProductIds | backend/app/api/v1/payment.py:28-33 | the configured ids, or none when the configuration does not parse |
| Payment.Listing | backend/app/api/v1/payment.py:153-165 | one entry per catalogue product, in order, available exactly when configured |
| Payment.GetProducts | backend/app/api/v1/payment.py:150-165 | the catalogue listing, with each product available when its SKU is configured |
| Payment.ProductsListed | backend/app/api/v1/payment.py:150-165 | the listing is starter, standard, pro with their tokens and prices; none is available when the configuration does not parse |
| Payment.Checkout | backend/app/api/v1/payment.py:36-93 | checkout on the transaction table, checked in order: 422 for an invalid body; 400 "Invalid product: <sku>"; 400 unconfigured; 500 "Creem API error: <text>"; 500 for a duplicate checkout id; otherwise one pending transaction |
| Payment.Webhook | backend/app/api/v1/payment.py:96-147 | the webhook on the table and the ledger: 500 when the signature comparison raises on a non-ASCII signature, 401 for a bad signature; 500 for a body that is not JSON; a pending checkout's completion marks it completed and credits the tokens (500 with nothing committed when `int()` refuses them); everything else is acknowledged without change |
| Payment.SignatureAccepted | backend/app/api/v1/payment.py:107-115 | the signature check passes: no webhook secret configured, or a non-empty ASCII signature whose HMAC comparison matches |
| Payment.SignatureRaises | backend/app/api/v1/payment.py:114 | with a secret configured, `hmac.compare_digest` is reached with a non-empty signature holding a non-ASCII character, which it refuses with `TypeError` |
| Payment.Completable | backend/app/api/v1/payment.py:120-130 | an event may complete a transaction: its type is "checkout.completed", its checkout id is a known transaction, and that transaction is still pending |
| Payment.PaymentStore.CreateCheckout | backend/app/api/v1/payment.py:36-93 | the endpoint answers and changes the table as `Checkout` says |
| Payment.PaymentStore.HandleWebhook | backend/app/api/v1/payment.py:96-147 | the endpoint answers and changes the table and the ledger as `Webhook` says |
| Payment.UnknownSkuFirst | backend/app/api/v1/payment.py:43-44 | an unknown SKU is answered 400 "Invalid product: <sku>" whatever the configuration and the provider |
| Payment.CheckoutRecords | backend/app/api/v1/payment.py:43-93 | a created checkout adds exactly one pending transaction, for a known and configured SKU, at the product's price and token count; every other outcome stores nothing |
| Payment.BadSignatureRejected | backend/app/api/v1/payment.py:107-115 | with a secret configured, a missing, empty or wrong signature changes nothing and gives 401, or 500 when the comparison raised on it |
| Payment.NonAsciiSignatureFails | backend/app/api/v1/payment.py:114 | with a secret configured, a signature holding a non-ASCII character gives 500 and changes nothing, whatever the body and the digest |
| Payment.OtherEventsIgnored | backend/app/api/v1/payment.py:117-147 | other event types, and completions of unknown or non-pending checkouts, are acknowledged and change nothing |
| Payment.CompletionGrants | backend/app/api/v1/payment.py:120-141 | a completion of a pending checkout marks it completed and credits the tokens to the device, both taken from the metadata or else from the transaction; no other device changes |
| Payment.BadTokenCountAborts | backend/app/api/v1/payment.py:138 | a token count `int()` refuses gives 500 with nothing committed |
| Payment.ReplayGrantsNothing | backend/app/api/v1/payment.py:130 | delivering the same event again changes nothing: tokens are granted once |
| Payment.CompletedIsFinal | backend/app/api/v1/payment.py:130-132 | a completed transaction is never changed by the webhook |
| Payment.PurchaseCredits | backend/app/api/v1/payment.py:65-139 | a created checkout followed by its completion event, carrying the checkout's metadata, credits the product's tokens to the buying device |
| Strings.JoinSplit | programmatic-seo/generate-pages.js:53 | joining the pieces of a split with the same separator gives the text back |
| Strings.IndexOf | programmatic-seo/generate-pages.js:75 | the first position where the pattern occurs, or none (`IndexOfFirst` proves it first and exhaustive) |
| Strings.Contains | programmatic-seo/generate-pages.js:68 | `includes` / Python `in`: true exactly when `indexOf` finds the pattern, that is when some position holds an occurrence (`IndexOfFirst`, `OccursContains`); for one character, membership (`ContainsChar`) |
| Strings.OccursContains | programmatic-seo/generate-pages.js:68 | an occurrence at any position makes `includes` true |
| Strings.Split | backend/app/services/llm_service.py:100-102 | `split(sep)` for a non-empty separator: the pieces between the occurrences, left to right, at least one |
| Strings.Join | programmatic-seo/generate-pages.js:85 | `join(sep)`: the pieces with the separator between consecutive ones (`JoinSplit` undoes a split with it) |
| Strings.SplitJoinChar | programmatic-seo/generate-pages.js:85 | pieces free of the separator character are recovered by splitting their join |
| Strings.Substitute | programmatic-seo/generate-pages.js:75 | the text `replace` inserts: "$$", "$&", "$`" and "$'" are expanded to "$", the match, the text before it and the text after it; a replacement without '$' is inserted as it is |
| Strings.ReplaceFirst | programmatic-seo/generate-pages.js:68 | replacing a string pattern changes nothing when it is absent, and a replacement without '$' changes the length by the difference (what it does at the first occurrence is `ReplaceFirstAt`) |
| Strings.ReplaceFirstAt | programmatic-seo/generate-pages.js:68 | at the first occurrence of the pattern, the text before it and after it is kept and the expanded replacement stands in between |
| Strings.ReplaceShowsReplacement | programmatic-seo/generate-pages.js:75 | a replacement without '$' appears in the result where the first occurrence was |
| Strings.ReplaceByMatch | programmatic-seo/generate-pages.js:75 | replacing a pattern by "$&" gives back the original text, whether or not the pattern occurs |
| Strings.ReplaceFirstChar | programmatic-seo/generate-pages.js:68 | replacing a character changes only its first occurrence |
| Strings.Take | programmatic-seo/generate-pages.js:100 | `substring(0, n)` is a prefix of at most n characters, the whole text when it is shorter |

## Left out

- File-system writes, directory cleanup and console output of both generators: the outputs are returned values instead.
- The wall-clock `lastmod` date: the sitemaps take it as a parameter `today`.
- The fixed HTML, CSS and analytics template around the derived page fields, and `encodeURIComponent` of the call-to-action link. A page is modelled by its slug, URL, title, description, body, product name and related-links text.
- Case mapping outside ASCII: `toLowerCase` and `toUpperCase` are modelled on ASCII letters only.
- Characters outside the Basic Multilingual Plane in the JavaScript modules. There a Dafny `char` stands for one UTF-16 code unit, so for text within that plane `charAt`, `substring(0, 155)` and `slice` are modelled exactly. JavaScript counts a character beyond it as two code units (a surrogate pair), and a Dafny `char` cannot hold half of one. In the Python modules a `char` stands for one code point, which is what `content[:500]` and `max_length=500` count.
- JavaScript objects with integer-like keys, or keys inherited from `Object.prototype`: `dimValues` is an insertion-ordered list of string keys.
- The deflate compression of the image data (`zlib.deflateSync`): the compressed IDAT payload is an input of `AssemblePng`.
- The floating-point gradient: `Math.floor(10 + (y / height) * 20)` is modelled as `10 + 20·y / height` in integer division, which is what exact arithmetic gives.
- OgPng.WriteUInt32BE: requires the value to be below 2^32, where Node would throw a range error instead.
- HMAC-SHA256 of the webhook body: whether an ASCII signature equals the hex digest is the boolean input `matches`. The `TypeError` that `compare_digest` raises on a non-ASCII signature is modelled, as a 500 that changes nothing.
- HTTP calls to the payment provider and to the model proxy: their outcomes are inputs (`CreemReply`, `LlmCall`). A provider reply without `id` or `checkout_url` is not modelled.
- `json.loads`: the webhook body arrives already decoded, or as `None` when it does not parse. The model's reply is parsed by a function parameter returning an option. A configuration that parses to something other than an object is not modelled.
- Values of the wrong JSON type in request bodies, webhook payloads and the parsed reply (for example `data` being `null`).
- Concurrent requests: each request runs alone, so the 402 "Failed to consume token" branch of `/visualize` is kept but cannot be reached.
- Prometheus metrics, `completed_at` timestamps, the prompt text, and the key order of the fallback record's sections.
- The table-driven CRC of the PNG specification's annex D: the CRC is modelled bit by bit, as the emitter computes it.
- LlmService.StripFencesMeaning: the json branch is stated as the code computes it (cut at the next "```json", then at "```"). The simpler "up to the next ```" reading holds only when no four backticks follow, as `JsonBlock` states.
