# PDF outline extraction — a verified model of the heading classifiers

The system reads a PDF and produces a title and an outline (a list of H1/H2/H3 entries, each with its
text and page number). The PDF library only produces data: pages of text blocks, blocks of lines,
lines of spans, and each span has a text, a font name, a point size and style flags. This project
takes that data as input and models everything the system computes from it.

- **Fast engine** (`PDFProcessor`, module `PdfProcessor`, `pdf_processor.dfy`). It covers:
  - the per-font size table built while reading pages;
  - percentile thresholds;
  - a cheap filter that rejects captions;
  - a four-part score (pattern, size, bold, keyword);
  - the "first entry is H1" fix;
  - a first-page title search that keeps the earliest largest span;
  - the file-name fallback.
- **Richer engine** (`HeadingClassifier`, module `HeadingClassifier`, `heading_classifier.dfy`). It covers:
  - thresholds clamped above the median body size;
  - a filter on the share of word characters;
  - pattern, size and bold scoring with a pattern shortcut to H1;
  - a forward promotion pass over the outline;
  - a tie-aware title search;
  - the stand-alone `classify_heading`.
- **Span and font-metric accumulation** (`PDFParser`, module `PdfParser`, `pdf_parser.dfy`). It covers:
  - bold and italic detection;
  - canonical font keys;
  - per-key size lists, counts and character totals, held in a table the block loop updates in place (class `FontMetrics`);
  - the per-document merge and the avg/min/max summary.

The two engines are separate modules on purpose: they differ in weights, filters and refinement.
They share only the vocabulary in `outline.dfy` (levels, outline entries, size score, thresholds
record). They also share the string operations in `text.dfy`, which model Python's `str.strip`,
`str.split`, `str.lower`, `str.capitalize`, `rsplit('.', 1)` and the anchored regular expressions,
as ASCII character predicates. The descending sort is in `sorting.dfy`.

Modelling choices:

- Python dicts keep insertion order. A dict is modelled as a key order (`seq<string>`) plus a `map`.
- Font sizes are `real`.
- The index `int(n * 0.05)` is `n * 5 / 100`, and likewise for 0.15 and 0.30.
- The ratio test `count < len * 0.7` is `10 * count < 7 * len`.
- `re.IGNORECASE` turns `[A-Z]` into "any ASCII letter".
- What the source mutates in place is mutable state in the model, updated by methods:
  - the outline that both refinement passes rewrite is an `array<Heading>`;
  - the font table that `_process_text_block` updates is the class `FontMetrics`, whose fields are the key order and the map.
- Every loop of the source is a `method` with invariants. Each is proved equal to a pure function, and the properties are proved as lemmas about that function.

Behaviour of the code worth noting:

- A second pass of `_refine_heading_hierarchy` can change its own output.
  - An H3 that comes before any H1 or H2 becomes an H2, with no H1 before it.
  - A second pass makes that H2 an H1 (`RefinedNotIdempotent`).
- Only the fast engine rejects "Figure 3: …" captions (`FigureCaptionRejected`).
- The footer words are page, copyright, confidential, draft and proprietary.
- Only the fast engine limits the title search to the first five blocks. The richer engine scans every block of page 1.
- Both engines' file-name fallbacks split on whitespace and rejoin the words with single spaces.
  - The fast engine falls back to "Untitled Document" when a name cleans to nothing.
  - The richer engine does not, so ".pdf" gives "" there (`CleanFilenameCanBeEmpty`).

## Model

| member | source | states |
|---|---|---|
| PdfProcessor.ProcessPdf | pdf_processor.py:75-128 | At most 50 raw pages are read through the page extractor, numbered from 1. With no pages, title and outline are empty. Otherwise the title is the fast title search and the outline the refined candidates under the thresholds of the document's sizes. The outline's pages never go down, lie in 1..50, and no entry is a caption. |
| PdfProcessor.ReadPagesFast | pdf_processor.py:99-102 | Page `i` of the read pages is numbered `i + 1` and holds the block records of raw page `i`. |
| PdfProcessor.ExtractPagesFast | pdf_processor.py:99-102 | The page loop returns every raw page handed in, read in order through the page extractor. |
| PdfProcessor.KeptFastMembers | pdf_processor.py:150-168 | A span record is kept exactly when it is the record of some raw span whose stripped text is not empty. Its text is stripped, and it is bold when flag bit 16 is set or "bold" is in the lower-cased font name. |
| PdfProcessor.KeptFastTrimmed | pdf_processor.py:152-154 | Every kept span's text is non-empty, with no white space at either end. |
| PdfProcessor.BlockOfFastShape | pdf_processor.py:147-176 | A block is kept exactly when at least one of its spans is kept. Its text is then the kept texts joined by single spaces. |
| PdfProcessor.PageBlocksFastText | pdf_processor.py:142-176 | Every extracted block has at least one span, and its text is its spans' texts joined by single spaces. |
| PdfProcessor.LineSpansFast | pdf_processor.py:151-170 | One line's span loop extends the kept spans by exactly the line's non-blank spans. It extends the block text by each of their texts and a space. |
| PdfProcessor.BlockLinesFast | pdf_processor.py:147-171 | The line loop returns the kept spans of all the block's lines in reading order, and the block text built from them. |
| PdfProcessor.ExtractPageDataFast | pdf_processor.py:138-181 | The page is numbered `pageNum + 1`. Its blocks are the records of its text blocks, skipping blocks without lines and blocks whose text strips to nothing. |
| PdfProcessor.CollectSpans | pdf_processor.py:106-112 | Adding one block's spans keeps the table recording exactly the spans seen so far: one key per font, each holding that font's sizes in reading order. |
| PdfProcessor.CollectFontInfo | pdf_processor.py:96-112 | The font table built by the nested loop records, for each font in first-seen order, exactly the sizes of that font's spans in reading order. |
| PdfProcessor.AddSpanRecords | pdf_processor.py:107-112 | Adding one span keeps the table an exact record of the spans seen so far. |
| PdfProcessor.FlattenRecords | pdf_processor.py:185-187 | Concatenating the table's size lists in key order gives every span size exactly once, as a multiset. |
| PdfProcessor.ThresholdsFast | pdf_processor.py:189-206 | No sizes give 16/14/12/10. Otherwise every threshold is an observed size and h1 ≥ h2 ≥ h3 ≥ body. |
| PdfProcessor.ThresholdsFastPermutation | pdf_processor.py:185-192 | The thresholds depend only on the multiset of sizes, not on the font order of the table. |
| PdfProcessor.CalculateThresholdsFast | pdf_processor.py:183-206 | The extend-sort-pick method returns the thresholds of the table's concatenated sizes. |
| Sorting.SortDescending | pdf_processor.py:192 | `sort(reverse=True)` gives a descending permutation of the same length. |
| Sorting.DescendingUnique | pdf_processor.py:192 | Two descending sequences with the same multiset are equal, so the sorted list is determined by its multiset. |
| Sorting.PercentileIndices | pdf_processor.py:196-199 | For n > 0: 0 ≤ n·5/100 ≤ n·15/100 ≤ n·30/100 ≤ n/2 < n. |
| PdfProcessor.IsPotentialHeadingFastExactly | pdf_processor.py:265-277 | The fast filter accepts exactly the texts of 3..200 characters that do not end in '.' with more than 15 words and do not start, after optional whitespace, with figure/table/chart/graph (any case), whitespace and a digit. |
| PdfProcessor.FigureThenDigit | pdf_processor.py:274-275 | A lower-cased text that opens with "figure", a space and a digit matches the caption pattern. |
| PdfProcessor.FigureCaptionRejected | pdf_processor.py:274-275 | Any text that starts with "Figure 3", whatever follows, is a caption and is never a heading candidate. |
| Outline.SizeScore | pdf_processor.py:288-296 | The size score is at most 3. It is 3 exactly when h1 is reached, and 0 exactly when no threshold is reached. |
| Outline.SizeScoreMonotone | pdf_processor.py:288-296 | A larger size never scores lower. |
| PdfProcessor.ClassifyTextFastLevels | pdf_processor.py:279-315 | With total = pattern + size + bold + keyword (0..7), the level is H1 iff total ≥ 4, H2 iff total = 3, H3 iff total = 2, and none iff total ≤ 1. A text matching one of the four patterns is always some heading. |
| PdfProcessor.ClassifyTextFastMonotoneInSize | pdf_processor.py:288-315 | A larger font never gives a weaker level. |
| PdfProcessor.ClassifyTextFastBold | pdf_processor.py:301-315 | Bold never gives a weaker level. |
| PdfProcessor.MaxSizeFast | pdf_processor.py:247 | The block's largest span size, an observed size, or 12 for a block without spans. |
| PdfProcessor.ClassifyBlocksFast | pdf_processor.py:239-260 | The block loop appends the present entries of the page's blocks, in block order, to what was collected before. |
| PdfProcessor.ClassifyHeadingsFast | pdf_processor.py:232-263 | The outline is the page-by-page, block-by-block candidates with the first entry made H1. |
| PdfProcessor.BlocksHeadingsFastSound | pdf_processor.py:240-260 | Every entry of a page passed the filter and carries that page's number. |
| PdfProcessor.CandidatesFastSound | pdf_processor.py:236-260 | Every candidate passed the filter and carries the number of one of the pages. |
| PdfProcessor.CandidatesFastPageOrder | pdf_processor.py:236-260 | For pages numbered in increasing order, the candidates' page numbers never go down. |
| PdfProcessor.OutlineExcludesCaptions | pdf_processor.py:243-263 | No outline entry is a caption. |
| PdfProcessor.FirstAsH1 | pdf_processor.py:317-326 | Refinement keeps the length, every text and page, and every entry after the first. The first entry, if any, becomes H1. |
| PdfProcessor.RefineHierarchyFast | pdf_processor.py:317-326 | The in-place update of the array equals `FirstAsH1` of its old contents. |
| PdfProcessor.FirstAsH1Settled | pdf_processor.py:317-326 | The fast refinement is idempotent, and every later entry has an H1 before it. |
| PdfProcessor.BestFromGrows | pdf_processor.py:218-228 | The title search never lowers the size of its pick. |
| PdfProcessor.BestFromAbove | pdf_processor.py:218-228 | The search ends at least as large as every qualifying span it visits. |
| PdfProcessor.BestFromBounds | pdf_processor.py:218-228 | The running best never shrinks. Its text is empty exactly when its size is 0. It is at least as large as every qualifying span. |
| PdfProcessor.BestFromPick | pdf_processor.py:218-228 | The search result is the start value, or the first qualifying span of its size among those above the start. |
| PdfProcessor.ExtractTitleFast | pdf_processor.py:208-230 | The nested title loop over the first five blocks of page 1 returns the title function's value. |
| PdfProcessor.IsPageNumberExactly | pdf_processor.py:328-330 | A text is a page number exactly when its stripped form is a non-empty run of digits. |
| PdfProcessor.TitleFastChoice | pdf_processor.py:208-230 | The title is the file-name fallback when no span qualifies above size 0. Otherwise it is the stripped text of the earliest qualifying span of the largest size. |
| PdfProcessor.CleanFilenameFastShape | pdf_processor.py:332-343 | The fallback is never empty, holds no '_' or '-', has no leading, trailing or doubled whitespace, and an empty name gives "Untitled Document". |
| PdfParser.HasFlagIsBitAnd | python-parser/src/pdf_parser.py:152-153 | For 32-bit flags, the bit tests used for bold and italic agree with `flags & 16` and `flags & 2`. |
| PdfParser.FontKeySuffix | python-parser/src/pdf_parser.py:151-160 | The key ends in "-Italic" iff the span is italic. Without that suffix, it ends in "-Bold" iff the span is bold. Without both suffixes it is the font name. |
| PdfParser.FontKeyInjective | python-parser/src/pdf_parser.py:151-160 | Two spans share a key iff they have the same font name, the same boldness and the same italicness. |
| PdfParser.KeptSpans | python-parser/src/pdf_parser.py:141-144 | Spans whose text strips to nothing are dropped. The kept ones are fewer or as many, and each text is stripped and non-empty. |
| PdfParser.KeptSpansAppend | python-parser/src/pdf_parser.py:140-144 | Dropping empty spans commutes with concatenation: reading order is kept. |
| PdfParser.BlockTextJoined | python-parser/src/pdf_parser.py:183-186 | The accumulated block text, stripped, is the kept texts joined by single spaces. |
| PdfParser.AddToLookup | python-parser/src/pdf_parser.py:162-172 | Recording a metric changes only its own key, which receives the sizes appended and the count and characters added. Every other key is unchanged. |
| PdfParser.RecordAllLookup | python-parser/src/pdf_parser.py:162-172 | After recording spans, each key holds its old metric plus exactly the metric of the spans with that key. |
| PdfParser.MetricOfConsistent | python-parser/src/pdf_parser.py:170-172 | For non-empty span texts, a key's size list is as long as its count, and its characters are at least its count. |
| PdfParser.FontMetrics.constructor | python-parser/src/pdf_parser.py:107 | A new table is empty and well formed. |
| PdfParser.FontMetrics.Add | python-parser/src/pdf_parser.py:162-172 | The in-place update of the table equals `AddTo` of the old table and keeps every entry consistent. |
| PdfParser.ProcessLine | python-parser/src/pdf_parser.py:141-183 | One line's loop appends the kept spans, extends the block text by each text and a space, and records exactly the new spans in the table. |
| PdfParser.ProcessTextBlock | python-parser/src/pdf_parser.py:126-189 | The block's spans are the kept spans of all its lines in order. Its text is their texts joined by single spaces. The table gains exactly those spans. |
| PdfParser.ExtractPageData | python-parser/src/pdf_parser.py:91-124 | The page holds one record per text block. Its text is the block texts joined by newlines and stripped. Each key of its table holds exactly that key's spans on the page. |
| PdfParser.MergeLookup | python-parser/src/pdf_parser.py:50-60 | Merging a page table adds, per key, the page's sizes, count and characters to the document's. |
| PdfParser.MergePage | python-parser/src/pdf_parser.py:50-60 | The in-place merge loop equals the merge function and keeps every entry consistent. |
| PdfParser.MergePagesLookup | python-parser/src/pdf_parser.py:44-60 | After all pages, each key holds exactly the metric of that key's spans across the document, sizes in page order. |
| PdfParser.MaxOf | python-parser/src/pdf_parser.py:71 | `max(sizes)` is an element no smaller than any other. |
| PdfParser.MinOf | python-parser/src/pdf_parser.py:72 | `min(sizes)` is an element no larger than any other. |
| PdfParser.SummaryOrdered | python-parser/src/pdf_parser.py:66-76 | min ≤ avg ≤ max. All three are 12.0 for no sizes. Otherwise min and max are observed sizes. |
| PdfParser.Summarize | python-parser/src/pdf_parser.py:66-85 | Every key of the table gets its document metric and its summary, and no other key appears. The keys are exactly those the document's spans use. |
| PdfParser.ExtractTextAndLayout | python-parser/src/pdf_parser.py:21-89 | At most 50 pages are read. Page `i` is numbered `i + 1` and holds that page's block records, its page table, and its text: the block texts joined by newlines and stripped. The character total is the sum of the page text lengths. The font keys are exactly the keys the document's spans use, in first-merged order. Each entry holds exactly its key's document metric, with min ≤ avg ≤ max. |
| PdfParser.MetricOfUses | python-parser/src/pdf_parser.py:162-172 | A key's span count is positive exactly when some span has that key. |
| PdfParser.MergePagesKeys | python-parser/src/pdf_parser.py:50-60 | After merging all page tables, a key is present exactly when some span of the document has it. |
| HeadingClassifier.ThresholdsRichBounds | python-parser/src/heading_classifier.py:125-151 | No sizes give 16/14/12/10. Otherwise h1 ≥ body+4, h2 ≥ body+2, h3 ≥ body+1, h1 ≥ h2 ≥ h3 > body, and the body size is observed. Each heading threshold is an observed size or the body size plus its margin. |
| HeadingClassifier.ThresholdsRichPermutation | python-parser/src/heading_classifier.py:120-129 | The thresholds depend only on the multiset of sizes. |
| HeadingClassifier.CalculateFontThresholds | python-parser/src/heading_classifier.py:118-151 | The extend-sort-pick method returns the thresholds of the table's sizes concatenated in key order. |
| HeadingClassifier.IsPotentialHeadingExactly | python-parser/src/heading_classifier.py:184-197 | The filter accepts exactly the texts of 3..200 characters with at least 70% word or whitespace characters that do not end in '.', and end in '!' or '?' only when no '.' occurs in them. |
| HeadingClassifier.PatternScoreRange | python-parser/src/heading_classifier.py:245-255 | The score is at most 2. It is 2 exactly on a strong pattern. Any stripped text of 3 or more characters made only of letters and whitespace scores 2. |
| HeadingClassifier.WeakPatternOnlyDigitOrUnderscore | python-parser/src/heading_classifier.py:245-255 | A score of 1 happens only when the number, optional dot and whitespace are followed by a digit or '_'. The case-insensitive strong pattern takes every letter. |
| HeadingClassifier.LevelFromScoresMonotone | python-parser/src/heading_classifier.py:236-243 | With the pattern and bold scores fixed, a higher size score never gives a weaker level. |
| HeadingClassifier.ClassifyTextAsHeadingLevels | python-parser/src/heading_classifier.py:213-243 | A pattern score of 2 gives H1. Otherwise the level is H1 iff total ≥ 4, H2 iff total = 3, H3 iff total = 2, none iff total ≤ 1. The extra disjuncts of the H2 and H3 tests never decide. |
| HeadingClassifier.ClassifyTextAsHeadingMonotone | python-parser/src/heading_classifier.py:219-243 | A larger font never gives a weaker level. |
| HeadingClassifier.MaxSize | python-parser/src/heading_classifier.py:199-204 | The running maximum from 0 is at least 0, no smaller than any span size, and is 0 or an observed size. |
| HeadingClassifier.GetMaxFontSize | python-parser/src/heading_classifier.py:199-204 | The loop returns that maximum. |
| HeadingClassifier.HasBoldText | python-parser/src/heading_classifier.py:206-211 | The early-return loop answers whether some span is bold. |
| HeadingClassifier.ClassifyPageHeadings | python-parser/src/heading_classifier.py:153-182 | The page loop returns the entries of the blocks that pass the filter and get a level, in block order. |
| HeadingClassifier.ClassifyHeadings | python-parser/src/heading_classifier.py:41-70 | The outline is the promotion pass applied to the page-by-page candidates under the table's thresholds. |
| HeadingClassifier.CandidatesSound | python-parser/src/heading_classifier.py:158-180 | Every candidate is a stripped text that passed the filter, on one of the pages. |
| HeadingClassifier.CandidatesPageOrder | python-parser/src/heading_classifier.py:58-64 | For pages numbered in increasing order, the candidates' page numbers never go down. |
| HeadingClassifier.OutlineShape | python-parser/src/heading_classifier.py:41-70 | The returned outline keeps page order, and every entry is a stripped text that passed the filter, on one of the pages. |
| HeadingClassifier.RefineHeadingHierarchy | python-parser/src/heading_classifier.py:257-288 | The in-place pass over the array equals the promotion function of its old contents. |
| HeadingClassifier.RefinedShape | python-parser/src/heading_classifier.py:266-286 | The pass keeps the length and every text and page. Levels only rise, H2 to H1 or H3 to H2. Each entry is promoted given the already-refined entries before it. |
| HeadingClassifier.RefinedFirstNotH3 | python-parser/src/heading_classifier.py:270-278 | The first entry of the result is never an H3. |
| HeadingClassifier.RefinedOrder | python-parser/src/heading_classifier.py:270-278 | Every H3 of the result has an H1 or H2 before it in the result. Every input H2 with no H1 before it in the result becomes H1. |
| HeadingClassifier.RefinedNotIdempotent | python-parser/src/heading_classifier.py:270-278 | A lone H3 becomes an H2, and a second pass would make it H1. |
| HeadingClassifier.IsLikelyHeaderFooterExactly | python-parser/src/heading_classifier.py:290-298 | Header/footer text is exactly a digits-only stripped text, or one containing page, copyright, confidential, draft or proprietary after lower-casing. |
| HeadingClassifier.TopSizeBounds | python-parser/src/heading_classifier.py:98-104 | The running largest size is at least 0, no smaller than any qualifying span, and is 0 or a qualifying span's size. |
| HeadingClassifier.ScanStep | python-parser/src/heading_classifier.py:98-106 | A larger qualifying span restarts the candidate list. One of equal size joins it. Anything else leaves it. |
| HeadingClassifier.ScanSpans | python-parser/src/heading_classifier.py:94-106 | One block's span loop moves the largest size and the candidate list exactly as the search function does over all spans seen. |
| HeadingClassifier.FirstMultiWord | python-parser/src/heading_classifier.py:110-112 | The position of the first candidate with two or more words, or the count when there is none. |
| HeadingClassifier.PickTitle | python-parser/src/heading_classifier.py:108-113 | The chosen title is one of the candidates. |
| HeadingClassifier.ChooseTitle | python-parser/src/heading_classifier.py:108-113 | The early-return loop returns the first multi-word candidate, else the first. |
| HeadingClassifier.ExtractTitle | python-parser/src/heading_classifier.py:72-116 | The title method returns the title function's value. |
| HeadingClassifier.TitleFallback | python-parser/src/heading_classifier.py:84-116 | With no pages or no qualifying first-page span, the title is the file-name fallback. |
| HeadingClassifier.TitleFromFirstPage | python-parser/src/heading_classifier.py:89-113 | Otherwise the title is the stripped text of a qualifying first-page span of size at least 0 that no qualifying span exceeds. |
| HeadingClassifier.AtSizeMember | python-parser/src/heading_classifier.py:102-106 | Every kept candidate is the text of a qualifying span of the kept size. |
| HeadingClassifier.CleanFilenameShape | python-parser/src/heading_classifier.py:300-314 | The fallback holds no '_' or '-' and no leading, trailing or doubled whitespace. An empty name gives "Untitled Document". |
| HeadingClassifier.CleanFilenameCanBeEmpty | python-parser/src/heading_classifier.py:306-314 | A bare extension ".pdf" cleans to the empty string. |
| HeadingClassifier.ClassifyHeadingAsWrittenLevels | python-parser/src/heading_classifier.py:316-338 | As written: H1 iff size ≥ 20. H2 iff 16 ≤ size < 20 with bit value 2 set. H3 iff 13 ≤ size < 20 otherwise. None iff size < 13. |
| HeadingClassifier.ClassifyHeadingReadsItalic | python-parser/src/heading_classifier.py:327-334 | As written, a bold, non-italic 16pt span (flags 16) is only H3. A non-bold italic 16pt span (flags 2) is H2. |
| HeadingClassifier.ClassifyHeadingLevels | python-parser/src/heading_classifier.py:316-338 | Corrected: H2 iff 16 ≤ size < 20 with the bold bit (16) set, which is the parser's flag test for bold. The other levels are unchanged. |
| HeadingClassifier.ClassifyHeadingBoldSpan | python-parser/src/heading_classifier.py:327-334 | Corrected: flags 16 at 16pt give H2, flags 2 give H3. |

## Left out

- PyMuPDF itself: `fitz.open`, `page.get_text("dict")`, `page.rect` and `doc.close`. The extractor's output is an input to the model: a sequence of pages of blocks.
  - Both engines take the raw blocks of each page, with their lines and spans, and build their own records from them.
- `page_rect` and every `bbox` field: layout geometry that nothing in the core reads.
- `process_pdfs.py` (directory scan, JSON writing, timing) and `python-parser/src/main.py` (HTTP wrapper) are not part of this model.
- Logging, the spaCy/NLTK availability globals, and the catch-all exception handlers. The handlers are the fast engine's file-stem title fallback and the parser's `None` return. They only catch failures of the PDF library.
- `.get(..., default)` for missing dict fields. Every modelled record has all its fields.
- `heading_patterns[4:]` in the fast engine, which `_classify_text_fast` never consults.
- `last_h1_page` and `last_h2_page` in `_refine_heading_hierarchy`, and the unused `font_metrics` and `page_data` parameters: they are written or passed but never read.
- Binary floating point.
  - Sizes are exact reals.
  - `int(n * 0.05)` is `n * 5 / 100`.
  - `len(text) * 0.7` is compared exactly.
  - The average is an exact real division.
- Unicode: `\s`, `\w`, `\d`, `str.lower`, `str.capitalize` and `str.split` are modelled on ASCII letters, digits and whitespace only.
- PdfParser.HasFlagIsBitAnd: the agreement with Python's `&` is stated for flags below 2^32 only, the width PyMuPDF uses.
- PdfParser.Summarize: the source adds the avg/min/max fields to the existing entries in place. The model builds a new map holding the merged metric and its summary, so it does not capture aliasing of those entries.

## Findings

| source | as written | input that shows it | evidently intended | confidence | as-written member | corrected member |
|---|---|---|---|---|---|---|
| python-parser/src/heading_classifier.py:327-328 | `classify_heading` treats `font_flags & 2` as bold. Bit value 2 is the italic flag: `_process_text_block` (python-parser/src/pdf_parser.py:152-153) tests 2 for italic and 16 for bold. | a 16pt span with flags 16 (bold, not italic) is classified H3; a 16pt span with flags 2 (italic, not bold) is classified H2 | test bit value 16, so that 16–20pt bold text is H2 | not executed | HeadingClassifier.ClassifyHeadingAsWritten, HeadingClassifier.ClassifyHeadingReadsItalic | HeadingClassifier.ClassifyHeading, HeadingClassifier.ClassifyHeadingLevels |
