/**
  The fast engine: `PDFProcessor` in pdf_processor.py.

  The extractor (PyMuPDF) is not modelled: its page dictionaries (blocks of
  lines of raw spans, as in the parser module) are the input here.
  Everything the processor does with them is modelled: the page records
  `{"page_number", "blocks": [{"text", "spans": [{"text", "size", "font",
  "is_bold"}]}]}` it extracts, the font-size table it builds, the percentile
  thresholds, the title pick, the syntactic filter, the additive score and
  the first-entry hierarchy fix.
*/
module PdfProcessor {
  import opened Text
  import opened Sorting
  import opened Outline
  import PdfParser

  /** `self.max_pages` */
  const MaxPages: nat := 50

  datatype Span = Span(text: string, size: real, font: string, isBold: bool)
  datatype Block = Block(text: string, spans: seq<Span>)
  datatype Page = Page(pageNumber: int, blocks: seq<Block>)

  function Min(a: nat, b: nat): nat { if a <= b then a else b }

  // ==================================================================== _extract_page_data_fast

  /** A raw span as the fast extractor records it: stripped text, size, font
      name, and bold when bit value 16 is set or "bold" is in the lower-cased
      name. */
  function SpanOfFast(s: PdfParser.RawSpan): Span {
    Span(Strip(s.text), s.size, s.font, PdfParser.IsBold(s.font, s.flags))
  }

  /** The spans kept from `raw`: those whose stripped text is not empty, in
      reading order. */
  function KeptFast(raw: seq<PdfParser.RawSpan>): seq<Span> {
    if raw == [] then []
    else
      var rest := KeptFast(raw[..|raw| - 1]);
      var last := raw[|raw| - 1];
      if Strip(last.text) == "" then rest else rest + [SpanOfFast(last)]
  }

  lemma {:induction false} KeptFastSnoc(raw: seq<PdfParser.RawSpan>, s: PdfParser.RawSpan)
    ensures KeptFast(raw + [s]) == if Strip(s.text) == "" then KeptFast(raw) else KeptFast(raw) + [SpanOfFast(s)]
  {
    assert (raw + [s])[..|raw|] == raw;
  }

  /** Raw span `i` is not blank and `sp` is its record. */
  predicate KeptFrom(raw: seq<PdfParser.RawSpan>, i: int, sp: Span) {
    0 <= i < |raw| && Strip(raw[i].text) != "" && sp == SpanOfFast(raw[i])
  }

  /** A span is kept exactly when it is the record of a raw span whose
      stripped text is not empty. */
  lemma {:induction false} KeptFastMembers(raw: seq<PdfParser.RawSpan>, sp: Span)
    ensures sp in KeptFast(raw) ==> exists i :: KeptFrom(raw, i, sp)
    ensures (exists i :: KeptFrom(raw, i, sp)) ==> sp in KeptFast(raw)
  {
    if raw != [] {
      var n := |raw| - 1;
      var init := raw[..n];
      KeptFastMembers(init, sp);
      assert KeptFast(raw) == KeptFast(init) + if Strip(raw[n].text) == "" then [] else [SpanOfFast(raw[n])];
      if sp in KeptFast(raw) {
        if sp in KeptFast(init) {
          var i :| KeptFrom(init, i, sp);
          assert init[i] == raw[i];
          assert KeptFrom(raw, i, sp);
        } else {
          assert KeptFrom(raw, n, sp);
        }
      }
      if i :| KeptFrom(raw, i, sp) {
        if i < n {
          assert init[i] == raw[i];
          assert KeptFrom(init, i, sp);
        } else {
          assert i == n && KeptFrom(raw, n, sp);
          assert KeptFast(raw) == KeptFast(init) + [SpanOfFast(raw[n])];
        }
      }
    }
  }

  /** Every text in `ts` is non-empty, with no white space at either end. */
  ghost predicate AllTrimmed(ts: seq<string>) {
    forall i :: 0 <= i < |ts| ==> PdfParser.Trimmed(ts[i])
  }

  /** Every kept span has a non-empty text with no white space at either end. */
  lemma {:induction false} KeptFastTrimmed(raw: seq<PdfParser.RawSpan>)
    ensures AllTrimmed(TextsOf(KeptFast(raw)))
  {
    if raw != [] {
      var init := raw[..|raw| - 1];
      var last := raw[|raw| - 1];
      KeptFastTrimmed(init);
      var rest := TextsOf(KeptFast(init));
      if Strip(last.text) != "" {
        var t := Strip(last.text);
        assert PdfParser.Trimmed(t);
        assert raw == init + [last];
        KeptFastSnoc(init, last);
        TextsOfSnoc(KeptFast(init), SpanOfFast(last));
        var ts := rest + [t];
        assert TextsOf(KeptFast(raw)) == ts;
        forall i | 0 <= i < |ts| ensures PdfParser.Trimmed(ts[i]) {
          if i < |rest| {
            assert ts[i] == rest[i];
          } else {
            assert ts[i] == t;
          }
        }
      }
    }
  }

  function TextsOf(spans: seq<Span>): seq<string> {
    seq(|spans|, i requires 0 <= i < |spans| => spans[i].text)
  }

  lemma {:induction false} TextsOfSnoc(spans: seq<Span>, sp: Span)
    ensures TextsOf(spans + [sp]) == TextsOf(spans) + [sp.text]
  {
  }

  /** The record of a block with lines: its kept spans and the stripped
      concatenation of their texts, each followed by a space; none when that
      text is empty (lines 150-176). */
  function BlockOfFast(lines: seq<seq<PdfParser.RawSpan>>): Option<Block> {
    var spans := KeptFast(PdfParser.Flat(lines));
    var text := Strip(Spaced(TextsOf(spans)));
    if text != "" then Some(Block(text, spans)) else None
  }

  /** A block is kept exactly when one of its spans is, and then its text is
      its kept spans' texts joined by single spaces. */
  lemma {:induction false} BlockOfFastShape(lines: seq<seq<PdfParser.RawSpan>>)
    ensures var spans := KeptFast(PdfParser.Flat(lines));
      && (BlockOfFast(lines).Some? <==> spans != [])
      && (BlockOfFast(lines).Some? ==> BlockOfFast(lines).value == Block(Join(TextsOf(spans), " "), spans))
  {
    var spans := KeptFast(PdfParser.Flat(lines));
    KeptFastTrimmed(PdfParser.Flat(lines));
    StripSpaced(TextsOf(spans));
  }

  /** The records of one page's blocks, in order; a block with no lines is
      skipped. */
  function PageBlocksFast(raw: seq<PdfParser.RawBlock>): seq<Block> {
    if raw == [] then []
    else
      var rest := PageBlocksFast(raw[..|raw| - 1]);
      match raw[|raw| - 1]
      case OtherBlock => rest
      case TextBlock(lines) =>
        match BlockOfFast(lines)
        case None => rest
        case Some(block) => rest + [block]
  }

  /** Every extracted block's text is its spans' texts joined by single
      spaces, and it has at least one span. */
  lemma {:induction false} PageBlocksFastText(raw: seq<PdfParser.RawBlock>)
    ensures forall b | b in PageBlocksFast(raw) :: b.spans != [] && b.text == Join(TextsOf(b.spans), " ")
  {
    if raw != [] {
      PageBlocksFastText(raw[..|raw| - 1]);
      if raw[|raw| - 1].TextBlock? {
        BlockOfFastShape(raw[|raw| - 1].lines);
      }
    }
  }

  /** The span loop of one line (lines 153-171): each span whose stripped
      text is not empty is recorded and appended, with a space, to the block
      text. */
  method LineSpansFast(line: seq<PdfParser.RawSpan>, ghost before: seq<PdfParser.RawSpan>, spans0: seq<Span>, text0: string)
    returns (spansData: seq<Span>, blockText: string)
    requires spans0 == KeptFast(before) && text0 == Spaced(TextsOf(spans0))
    ensures spansData == KeptFast(before + line) && blockText == Spaced(TextsOf(spansData))
  {
    spansData, blockText := spans0, text0;
    assert before + line[..0] == before;
    for s := 0 to |line|
      invariant spansData == KeptFast(before + line[..s])
      invariant blockText == Spaced(TextsOf(spansData))
    {
      var span := line[s];
      PrefixStep(before, line, s);
      KeptFastSnoc(before + line[..s], span);
      var text := Strip(span.text);
      if text == "" {
        continue;
      }
      var fontSize := span.size;
      var fontFlags := span.flags;
      var fontName := span.font;
      var isBold := PdfParser.HasFlag(fontFlags, 16) || Contains(Lower(fontName), "bold");
      var sd := Span(text, fontSize, fontName, isBold);
      TextsOfSnoc(spansData, sd);
      SpacedSnoc(TextsOf(spansData), text);
      spansData := spansData + [sd];
      blockText := blockText + text + " ";
    }
    assert line[..|line|] == line;
  }

  /** The line loop of one block (lines 152-171). */
  method BlockLinesFast(lines: seq<seq<PdfParser.RawSpan>>) returns (blockText: string, spansData: seq<Span>)
    ensures spansData == KeptFast(PdfParser.Flat(lines)) && blockText == Spaced(TextsOf(spansData))
  {
    blockText := "";
    spansData := [];
    for l := 0 to |lines|
      invariant spansData == KeptFast(PdfParser.Flat(lines[..l]))
      invariant blockText == Spaced(TextsOf(spansData))
    {
      assert lines[..l + 1][..l] == lines[..l];
      spansData, blockText := LineSpansFast(lines[l], PdfParser.Flat(lines[..l]), spansData, blockText);
    }
    assert lines[..|lines|] == lines;
  }

  /** `_extract_page_data_fast` (lines 138-181): the records of one page's
      blocks, numbered `pageNum + 1`. */
  method ExtractPageDataFast(blocks: seq<PdfParser.RawBlock>, pageNum: nat) returns (page: Page)
    ensures page == Page(pageNum + 1, PageBlocksFast(blocks))
  {
    var textBlocks: seq<Block> := [];
    for b := 0 to |blocks|
      invariant textBlocks == PageBlocksFast(blocks[..b])
    {
      assert blocks[..b + 1][..b] == blocks[..b];
      match blocks[b]
      case OtherBlock =>
      case TextBlock(lines) =>
        var blockText, spansData := BlockLinesFast(lines);
        var text := Strip(blockText);
        if text != "" {
          textBlocks := textBlocks + [Block(text, spansData)];
        }
        assert BlockOfFast(lines) == if text != "" then Some(Block(text, spansData)) else None;
    }
    assert blocks[..|blocks|] == blocks;
    page := Page(pageNum + 1, textBlocks);
  }

  // ==================================================================== reading order

  /** The spans of `blocks`, block after block. */
  function BlockSpans(blocks: seq<Block>): seq<Span> {
    if blocks == [] then [] else BlockSpans(blocks[..|blocks| - 1]) + blocks[|blocks| - 1].spans
  }

  /** The spans of the whole document in reading order. */
  function DocSpans(pages: seq<Page>): seq<Span> {
    if pages == [] then [] else DocSpans(pages[..|pages| - 1]) + BlockSpans(pages[|pages| - 1].blocks)
  }

  lemma {:induction false} BlockSpansStep(blocks: seq<Block>, b: nat)
    requires b < |blocks|
    ensures BlockSpans(blocks[..b + 1]) == BlockSpans(blocks[..b]) + blocks[b].spans
  {
    assert blocks[..b + 1][..b] == blocks[..b];
  }

  lemma {:induction false} DocSpansStep(pages: seq<Page>, p: nat)
    requires p < |pages|
    ensures DocSpans(pages[..p + 1]) == DocSpans(pages[..p]) + BlockSpans(pages[p].blocks)
  {
    assert pages[..p + 1][..p] == pages[..p];
  }

  // ==================================================================== font_info (process_pdf)

  /** The `font_info` dict: font name -> sizes seen, with Python's insertion
      order of the keys kept in `order`. */
  datatype FontInfo = FontInfo(order: seq<string>, sizes: map<string, seq<real>>)

  ghost predicate WellFormed(fi: FontInfo) {
    && (forall i, j :: 0 <= i < j < |fi.order| ==> fi.order[i] != fi.order[j])
    && (forall f :: f in fi.sizes <==> f in fi.order)
  }

  /** The fonts used by `spans`. */
  function Fonts(spans: seq<Span>): set<string> {
    set i | 0 <= i < |spans| :: spans[i].font
  }

  /** The sizes of the spans set in `font`, in reading order. */
  function FontSizes(spans: seq<Span>, font: string): seq<real> {
    if spans == [] then []
    else
      var last := spans[|spans| - 1];
      FontSizes(spans[..|spans| - 1], font) + (if last.font == font then [last.size] else [])
  }

  /** The sizes of all spans, in reading order. */
  function Sizes(spans: seq<Span>): seq<real> {
    if spans == [] then [] else Sizes(spans[..|spans| - 1]) + [spans[|spans| - 1].size]
  }

  /** `fi` records exactly the spans `spans`: one key per font used, and for
      each font the sizes of its spans in reading order. */
  ghost predicate Records(fi: FontInfo, spans: seq<Span>) {
    && WellFormed(fi)
    && fi.sizes.Keys == Fonts(spans)
    && forall f | f in fi.sizes :: fi.sizes[f] == FontSizes(spans, f)
  }

  /** One step of the collection loop (lines 107-112). */
  function AddSpan(fi: FontInfo, sp: Span): FontInfo {
    var fi' := if sp.font !in fi.sizes then FontInfo(fi.order + [sp.font], fi.sizes[sp.font := []]) else fi;
    fi'.(sizes := fi'.sizes[sp.font := fi'.sizes[sp.font] + [sp.size]])
  }

  lemma {:induction false} FontSizesUnused(spans: seq<Span>, f: string)
    requires f !in Fonts(spans)
    ensures FontSizes(spans, f) == []
  {
    if spans != [] {
      var init := spans[..|spans| - 1];
      assert spans[|spans| - 1].font in Fonts(spans);
      assert Fonts(init) <= Fonts(spans) by {
        forall g | g in Fonts(init) ensures g in Fonts(spans) {
          var i :| 0 <= i < |init| && init[i].font == g;
          assert spans[i].font == g;
        }
      }
      FontSizesUnused(init, f);
    }
  }

  lemma {:induction false} AddSpanRecords(fi: FontInfo, spans: seq<Span>, sp: Span)
    requires Records(fi, spans)
    ensures Records(AddSpan(fi, sp), spans + [sp])
  {
    var all := spans + [sp];
    assert all[..|all| - 1] == spans;
    assert Fonts(all) == Fonts(spans) + {sp.font} by {
      forall f | f in Fonts(all) ensures f in Fonts(spans) + {sp.font} {
        var i :| 0 <= i < |all| && all[i].font == f;
        if i < |spans| { assert spans[i].font == f; }
      }
      forall f | f in Fonts(spans) ensures f in Fonts(all) {
        var i :| 0 <= i < |spans| && spans[i].font == f;
        assert all[i].font == f;
      }
      assert all[|spans|].font == sp.font;
    }
    var fi' := AddSpan(fi, sp);
    forall f | f in fi'.sizes ensures fi'.sizes[f] == FontSizes(all, f) {
      assert FontSizes(all, f) == FontSizes(spans, f) + (if sp.font == f then [sp.size] else []);
      if f == sp.font && f !in fi.sizes {
        FontSizesUnused(spans, f);
      }
    }
  }

  /** The innermost loop (lines 106-112): each span of one block adds its
      size to the list of its font, creating the list on first use. */
  method CollectSpans(info0: FontInfo, spans: seq<Span>, ghost before: seq<Span>) returns (info: FontInfo)
    requires Records(info0, before)
    ensures Records(info, before + spans)
  {
    info := info0;
    assert before + spans[..0] == before;
    for s := 0 to |spans|
      invariant Records(info, before + spans[..s])
    {
      var span := spans[s];
      AddSpanRecords(info, before + spans[..s], span);
      PrefixStep(before, spans, s);
      if span.font !in info.sizes {
        info := FontInfo(info.order + [span.font], info.sizes[span.font := []]);
      }
      info := info.(sizes := info.sizes[span.font := info.sizes[span.font] + [span.size]]);
    }
    assert spans[..|spans|] == spans;
  }

  /** The font-information loop of `process_pdf` (lines 96-112): every span
      of every page adds its size to the list of its font.  The resulting
      table has one key per font used and, for each, the sizes of that
      font's spans in reading order. */
  method CollectFontInfo(pages: seq<Page>) returns (info: FontInfo)
    ensures Records(info, DocSpans(pages))
  {
    info := FontInfo([], map[]);
    for p := 0 to |pages|
      invariant Records(info, DocSpans(pages[..p]))
    {
      var blocks := pages[p].blocks;
      assert DocSpans(pages[..p]) + BlockSpans(blocks[..0]) == DocSpans(pages[..p]);
      for b := 0 to |blocks|
        invariant Records(info, DocSpans(pages[..p]) + BlockSpans(blocks[..b]))
      {
        var spans := blocks[b].spans;
        ghost var before := DocSpans(pages[..p]) + BlockSpans(blocks[..b]);
        info := CollectSpans(info, spans, before);
        BlockSpansStep(blocks, b);
        AppendAssoc(DocSpans(pages[..p]), BlockSpans(blocks[..b]), spans);
      }
      assert blocks[..|blocks|] == blocks;
      DocSpansStep(pages, p);
    }
    assert pages[..|pages|] == pages;
  }

  // ---------------------------------------------------------------- every size exactly once

  /** The sizes of the spans whose font is among `fonts`, in reading order. */
  function SizesIn(spans: seq<Span>, fonts: seq<string>): seq<real> {
    if spans == [] then []
    else
      var last := spans[|spans| - 1];
      SizesIn(spans[..|spans| - 1], fonts) + (if last.font in fonts then [last.size] else [])
  }

  /** `font_info.values()` concatenated in key order (the `extend` loop). */
  function Flatten(order: seq<string>, sizes: map<string, seq<real>>): seq<real>
    requires forall f | f in order :: f in sizes
  {
    if order == [] then [] else Flatten(order[..|order| - 1], sizes) + sizes[order[|order| - 1]]
  }

  lemma {:induction false} SizesInAddFont(spans: seq<Span>, fonts: seq<string>, f: string)
    requires f !in fonts
    ensures multiset(SizesIn(spans, fonts + [f])) == multiset(SizesIn(spans, fonts)) + multiset(FontSizes(spans, f))
  {
    if spans != [] {
      var init := spans[..|spans| - 1];
      var last := spans[|spans| - 1];
      SizesInAddFont(init, fonts, f);
      var here := if last.font in fonts + [f] then [last.size] else [];
      var there := if last.font in fonts then [last.size] else [];
      var mine := if last.font == f then [last.size] else [];
      assert multiset(here) == multiset(there) + multiset(mine);
      assert SizesIn(spans, fonts + [f]) == SizesIn(init, fonts + [f]) + here;
      assert SizesIn(spans, fonts) == SizesIn(init, fonts) + there;
      assert FontSizes(spans, f) == FontSizes(init, f) + mine;
    }
  }

  lemma {:induction false} SizesInAll(spans: seq<Span>, fonts: seq<string>)
    requires forall i :: 0 <= i < |spans| ==> spans[i].font in fonts
    ensures SizesIn(spans, fonts) == Sizes(spans)
  {
    if spans != [] {
      SizesInAll(spans[..|spans| - 1], fonts);
    }
  }

  lemma {:induction false} SizesInNone(spans: seq<Span>)
    ensures SizesIn(spans, []) == []
  {
    if spans != [] {
      SizesInNone(spans[..|spans| - 1]);
    }
  }

  lemma {:induction false} FlattenSizesIn(order: seq<string>, fi: FontInfo, spans: seq<Span>)
    requires forall i, j :: 0 <= i < j < |order| ==> order[i] != order[j]
    requires forall f | f in order :: f in fi.sizes && fi.sizes[f] == FontSizes(spans, f)
    ensures multiset(Flatten(order, fi.sizes)) == multiset(SizesIn(spans, order))
  {
    if order == [] {
      SizesInNone(spans);
    } else {
      var init := order[..|order| - 1];
      var f := order[|order| - 1];
      assert forall i :: 0 <= i < |init| ==> init[i] == order[i];
      FlattenSizesIn(init, fi, spans);
      assert f !in init;
      assert order == init + [f];
      SizesInAddFont(spans, init, f);
      assert Flatten(order, fi.sizes) == Flatten(init, fi.sizes) + FontSizes(spans, f);
    }
  }

  /** The `extend` loop over a table built by `CollectFontInfo` yields every
      span's size exactly once (in some order). */
  lemma {:induction false} FlattenRecords(fi: FontInfo, spans: seq<Span>)
    requires Records(fi, spans)
    ensures multiset(Flatten(fi.order, fi.sizes)) == multiset(Sizes(spans))
  {
    FlattenSizesIn(fi.order, fi, spans);
    forall i | 0 <= i < |spans| ensures spans[i].font in fi.order {
      assert spans[i].font in Fonts(spans);
    }
    SizesInAll(spans, fi.order);
  }

  // ==================================================================== thresholds

  /** The percentile picks of `_calculate_thresholds_fast` over the size list
      `all` (`int(n * 0.05)` is `n * 5 / 100`, and so on).  Empty input gives
      the fixed defaults; otherwise each threshold is an observed size and
      they are ordered h1 >= h2 >= h3 >= body. */
  function ThresholdsFast(all: seq<real>): (t: Thresholds)
    ensures all == [] ==> t == DefaultThresholds
    ensures all != [] ==> t.h1 >= t.h2 >= t.h3 >= t.body
    ensures all != [] ==> t.h1 in all && t.h2 in all && t.h3 in all && t.body in all
  {
    if all == [] then DefaultThresholds
    else
      var sorted := SortDescending(all);
      var n := |sorted|;
      PercentileIndices(n);
      var i1, i2, i3, ib := n * 5 / 100, n * 15 / 100, n * 30 / 100, n / 2;
      assert sorted[i1] >= sorted[i2] >= sorted[i3] >= sorted[ib];
      SortedMember(all, sorted, i1);
      SortedMember(all, sorted, i2);
      SortedMember(all, sorted, i3);
      SortedMember(all, sorted, ib);
      Thresholds(sorted[i1], sorted[i2], sorted[i3], sorted[ib])
  }

  /** The thresholds depend only on the multiset of sizes, not on the order
      in which the dict handed them over. */
  lemma {:induction false} ThresholdsFastPermutation(a: seq<real>, b: seq<real>)
    requires multiset(a) == multiset(b)
    ensures ThresholdsFast(a) == ThresholdsFast(b)
  {
    SortPermutationInvariant(a, b);
    assert |a| == |multiset(a)| == |multiset(b)| == |b|;
  }

  /** `_calculate_thresholds_fast` (lines 183-206): extend a list with every
      value list of `font_info`, sort it descending, pick percentiles. */
  method CalculateThresholdsFast(info: FontInfo) returns (t: Thresholds)
    requires WellFormed(info)
    ensures t == ThresholdsFast(Flatten(info.order, info.sizes))
  {
    var all: seq<real> := [];
    for i := 0 to |info.order|
      invariant all == Flatten(info.order[..i], info.sizes)
    {
      assert info.order[..i + 1][..i] == info.order[..i];
      all := all + info.sizes[info.order[i]];
    }
    assert info.order[..|info.order|] == info.order;
    if all == [] {
      return DefaultThresholds;
    }
    var sorted := SortDescending(all);
    var n := |sorted|;
    PercentileIndices(n);
    t := Thresholds(sorted[n * 5 / 100], sorted[n * 15 / 100], sorted[n * 30 / 100], sorted[n / 2]);
  }

  // ==================================================================== candidate filter

  const CaptionWords: seq<string> := ["figure", "table", "chart", "graph"]

  /** `re.match(r'^\s*(figure|table|chart|graph)\s+\d+', text, re.IGNORECASE)` */
  predicate IsCaption(text: string) {
    var t := Lower(LStrip(text));
    WordThenNumber(t, CaptionWords)
  }

  /** `_is_potential_heading_fast` (lines 265-277). */
  predicate IsPotentialHeadingFast(text: string) {
    if |text| < 3 || |text| > 200 then false
    else if EndsWithChar(text, '.') && |Words(text)| > 15 then false
    else if IsCaption(text) then false
    else true
  }

  /** The filter rejects exactly the texts of length outside 3..200, the
      '.'-ending texts of more than 15 words, and the texts that start, after
      optional whitespace and in any case, with figure/table/chart/graph,
      whitespace and a digit. */
  lemma {:induction false} IsPotentialHeadingFastExactly(text: string)
    ensures var t := Lower(LStrip(text));
      IsPotentialHeadingFast(text) <==>
        && 3 <= |text| <= 200
        && !(EndsWithChar(text, '.') && |Words(text)| > 15)
        && !exists i :: 0 <= i < |CaptionWords| && StartsWith(t, CaptionWords[i]) && SpacesThenDigit(t[|CaptionWords[i]|..])
  {
    WordThenNumberMember(Lower(LStrip(text)), CaptionWords);
  }

  /** A (lower-cased) text opening with "figure", a space and a digit is a
      caption. */
  lemma {:induction false} FigureThenDigit(t: string)
    requires |t| >= 8 && t[..6] == "figure" && t[6] == ' ' && IsDigit(t[7])
    ensures WordThenNumber(t, CaptionWords)
  {
    var rest := t[6..];
    assert rest[0] == ' ' && rest[1..][0] == t[7];
    assert LeadingSpaces(rest[1..]) == 0;
    assert LeadingSpaces(rest) == 1;
    assert StartsWith(t, CaptionWords[0]);
  }

  /** A figure caption ("Figure 3", whatever follows) is never a heading
      candidate, whatever its size. */
  lemma {:induction false} FigureCaptionRejected(rest: string)
    ensures IsCaption("Figure 3" + rest)
    ensures !IsPotentialHeadingFast("Figure 3" + rest)
  {
    var text := "Figure 3" + rest;
    assert text[0] == 'F';
    assert LeadingSpaces(text) == 0;
    var t := Lower(text);
    assert t[0] == 'f' && t[1] == 'i' && t[2] == 'g' && t[3] == 'u' && t[4] == 'r' && t[5] == 'e';
    assert t[6] == ' ' && t[7] == '3';
    assert t[..6] == "figure";
    FigureThenDigit(t);
  }

  // ==================================================================== scoring

  predicate IsRomanChar(c: char) {
    c == 'I' || c == 'V' || c == 'X' || c == 'i' || c == 'v' || c == 'x'
  }

  function RomanRun(s: string): (k: nat)
    ensures k <= |s|
  {
    if s == [] || !IsRomanChar(s[0]) then 0 else 1 + RomanRun(s[1..])
  }

  /** `^[IVX]+\.?\s+[A-Z]` under IGNORECASE. */
  predicate RomanHeading(s: string) {
    var k := RomanRun(s);
    k > 0 && DotSpacesLetter(s[k..])
  }

  /** The first four of `self.heading_patterns`, the only ones consulted. */
  predicate FastPattern(s: string) {
    NumberedHeading(s, 1) || NumberedHeading(s, 2) || ChapterHeading(s) || RomanHeading(s)
  }

  const HeadingKeywordsFast: seq<string> := [
    "introduction", "conclusion", "summary", "overview", "background",
    "abstract", "references", "acknowledgments", "appendix", "contents",
    "methodology", "results", "discussion", "analysis"]

  /** 1 when some heading keyword occurs anywhere in the lower-cased text. */
  function KeywordScoreFast(text: string): nat {
    if ContainsAny(Lower(text), HeadingKeywordsFast) then 1 else 0
  }

  function PatternScoreFast(text: string): nat {
    if FastPattern(Strip(text)) then 2 else 0
  }

  /** `_classify_text_fast` (lines 279-315): pattern (0 or 2) + size (0..3)
      + bold (0 or 1) + keyword (0 or 1), mapped by `LevelForTotal`. */
  function ClassifyTextFast(text: string, size: real, isBold: bool, t: Thresholds): Option<Level> {
    LevelForTotal(PatternScoreFast(text) + SizeScore(size, t) + (if isBold then 1 else 0) + KeywordScoreFast(text))
  }

  /** A bigger font never makes a block a weaker heading. */
  lemma {:induction false} ClassifyTextFastMonotoneInSize(text: string, small: real, large: real, isBold: bool, t: Thresholds)
    requires small <= large
    ensures Rank(ClassifyTextFast(text, small, isBold, t)) <= Rank(ClassifyTextFast(text, large, isBold, t))
  {
    SizeScoreMonotone(small, large, t);
    var b := if isBold then 1 else 0;
    LevelForTotalMonotone(PatternScoreFast(text) + SizeScore(small, t) + b + KeywordScoreFast(text),
                          PatternScoreFast(text) + SizeScore(large, t) + b + KeywordScoreFast(text));
  }

  /** Bold never makes a block a weaker heading. */
  lemma {:induction false} ClassifyTextFastBold(text: string, size: real, t: Thresholds)
    ensures Rank(ClassifyTextFast(text, size, false, t)) <= Rank(ClassifyTextFast(text, size, true, t))
  {
    LevelForTotalMonotone(PatternScoreFast(text) + SizeScore(size, t) + 0 + KeywordScoreFast(text),
                          PatternScoreFast(text) + SizeScore(size, t) + 1 + KeywordScoreFast(text));
  }

  /** Which level a score gives: H1 iff total >= 4, H2 iff 3, H3 iff 2,
      nothing iff total <= 1; a numbered, chapter or roman pattern alone
      (score 2) already makes a heading. */
  lemma {:induction false} ClassifyTextFastLevels(text: string, size: real, isBold: bool, t: Thresholds)
    ensures var total := PatternScoreFast(text) + SizeScore(size, t) + (if isBold then 1 else 0) + KeywordScoreFast(text);
      var r := ClassifyTextFast(text, size, isBold, t);
      && 0 <= total <= 7
      && (r == Some(H1) <==> total >= 4)
      && (r == Some(H2) <==> total == 3)
      && (r == Some(H3) <==> total == 2)
      && (r == None <==> total <= 1)
      && (FastPattern(Strip(text)) ==> r != None)
  {
  }

  // ==================================================================== classification loop

  /** `max(span sizes, default=12)`: 12 for no spans, otherwise the largest
      span size. */
  function MaxSizeFast(spans: seq<Span>): (m: real)
    ensures spans == [] ==> m == 12.0
    ensures spans != [] ==> exists i :: 0 <= i < |spans| && spans[i].size == m
    ensures forall i :: 0 <= i < |spans| ==> spans[i].size <= m
  {
    if spans == [] then 12.0
    else if |spans| == 1 then spans[0].size
    else
      var rest := MaxSizeFast(spans[1..]);
      assert forall i :: 1 <= i < |spans| ==> spans[i] == spans[1..][i - 1];
      if spans[0].size >= rest then spans[0].size else rest
  }

  /** `any(span["is_bold"] for span in spans)` */
  predicate AnyBold(spans: seq<Span>) {
    exists i :: 0 <= i < |spans| && spans[i].isBold
  }

  /** The outline entry one block contributes, if any. */
  function BlockHeadingFast(block: Block, pageNumber: int, t: Thresholds): Option<Heading> {
    var text := Strip(block.text);
    if !IsPotentialHeadingFast(text) then None
    else
      match ClassifyTextFast(text, MaxSizeFast(block.spans), AnyBold(block.spans), t)
      case None => None
      case Some(l) => Some(Heading(l, text, pageNumber))
  }

  /** What each block of one page contributes, in block order. */
  function BlockResultsFast(blocks: seq<Block>, pageNumber: int, t: Thresholds): seq<Option<Heading>> {
    seq(|blocks|, i requires 0 <= i < |blocks| => BlockHeadingFast(blocks[i], pageNumber, t))
  }

  /** The entries one page's blocks contribute, in block order. */
  function BlocksHeadingsFast(blocks: seq<Block>, pageNumber: int, t: Thresholds): seq<Heading> {
    Somes(BlockResultsFast(blocks, pageNumber, t))
  }

  /** The entries `_classify_headings_fast` appends, before refinement:
      page after page, block after block. */
  function CandidatesFast(pages: seq<Page>, t: Thresholds): seq<Heading> {
    if pages == [] then []
    else
      var last := pages[|pages| - 1];
      CandidatesFast(pages[..|pages| - 1], t) + BlocksHeadingsFast(last.blocks, last.pageNumber, t)
  }

  /** `_refine_hierarchy_fast` on values: the first entry becomes H1 and
      nothing else changes. */
  function FirstAsH1(hs: seq<Heading>): (r: seq<Heading>)
    ensures |r| == |hs|
    ensures forall i :: 0 <= i < |hs| ==> r[i].text == hs[i].text && r[i].page == hs[i].page
    ensures |r| > 0 ==> r[0].level == H1
    ensures forall i :: 1 <= i < |hs| ==> r[i] == hs[i]
  {
    if hs == [] then [] else hs[0 := hs[0].(level := H1)]
  }

  /** `_refine_hierarchy_fast` (lines 317-326): the first heading's level is
      set to H1 in place. */
  method RefineHierarchyFast(headings: array<Heading>)
    modifies headings
    ensures headings[..] == FirstAsH1(old(headings[..]))
  {
    if headings.Length > 0 && headings[0].level != H1 {
      headings[0] := headings[0].(level := H1);
    }
    assert headings.Length > 0 ==> headings[..] == old(headings[..])[0 := old(headings[0]).(level := H1)];
  }

  /** The fast refinement is idempotent, and after it every entry but the
      first has an H1 before it. */
  lemma {:induction false} FirstAsH1Settled(hs: seq<Heading>)
    ensures FirstAsH1(FirstAsH1(hs)) == FirstAsH1(hs)
    ensures forall i :: 0 < i < |hs| ==> HasLevel(FirstAsH1(hs)[..i], H1)
  {
    var r := FirstAsH1(hs);
    forall i | 0 < i < |hs| ensures HasLevel(r[..i], H1) {
      assert r[..i][0].level == H1;
    }
  }

  /** `_classify_headings_fast` (lines 232-263): filter and score every block
      of every page, collect the headings, then fix the first one. */
  method ClassifyHeadingsFast(pages: seq<Page>, t: Thresholds) returns (outline: seq<Heading>)
    ensures outline == FirstAsH1(CandidatesFast(pages, t))
  {
    var headings: seq<Heading> := [];
    for p := 0 to |pages|
      invariant headings == CandidatesFast(pages[..p], t)
    {
      assert pages[..p + 1][..p] == pages[..p];
      headings := ClassifyBlocksFast(pages[p].blocks, pages[p].pageNumber, t, headings);
    }
    assert pages[..|pages|] == pages;
    var arr := new Heading[|headings|](i requires 0 <= i < |headings| => headings[i]);
    assert arr[..] == headings;
    RefineHierarchyFast(arr);
    outline := arr[..];
  }

  /** The inner loop of `_classify_headings_fast`, over one page's blocks. */
  method ClassifyBlocksFast(blocks: seq<Block>, pageNum: int, t: Thresholds, headings0: seq<Heading>)
    returns (headings: seq<Heading>)
    ensures headings == headings0 + BlocksHeadingsFast(blocks, pageNum, t)
  {
    headings := headings0;
    ghost var results := BlockResultsFast(blocks, pageNum, t);
    for b := 0 to |blocks|
      invariant headings == headings0 + Somes(results[..b])
    {
      SomesStep(results, b);
      assert results[b] == BlockHeadingFast(blocks[b], pageNum, t);
      var text := Strip(blocks[b].text);
      if !IsPotentialHeadingFast(text) {
        continue;
      }
      var maxSize := MaxSizeFast(blocks[b].spans);
      var hasBold := AnyBold(blocks[b].spans);
      var level := ClassifyTextFast(text, maxSize, hasBold, t);
      if level.Some? {
        AppendAssoc(headings0, Somes(results[..b]), [Heading(level.value, text, pageNum)]);
        headings := headings + [Heading(level.value, text, pageNum)];
      }
    }
    assert results[..|blocks|] == results;
  }

  // ---------------------------------------------------------------- what the outline contains

  lemma {:induction false} BlocksHeadingsFastSound(blocks: seq<Block>, pageNumber: int, t: Thresholds)
    ensures forall h | h in BlocksHeadingsFast(blocks, pageNumber, t) ::
      IsPotentialHeadingFast(h.text) && h.page == pageNumber
  {
    forall h | h in BlocksHeadingsFast(blocks, pageNumber, t)
      ensures IsPotentialHeadingFast(h.text) && h.page == pageNumber
    {
      var results := BlockResultsFast(blocks, pageNumber, t);
      SomesMember(results, h);
      var i :| 0 <= i < |results| && results[i] == Some(h);
      assert BlockHeadingFast(blocks[i], pageNumber, t) == Some(h);
    }
  }

  /** Every candidate passed the filter and carries the number of one of
      the pages. */
  lemma {:induction false} CandidatesFastSound(pages: seq<Page>, t: Thresholds)
    ensures forall h | h in CandidatesFast(pages, t) ::
      IsPotentialHeadingFast(h.text) && exists p | p in pages :: h.page == p.pageNumber
  {
    if pages != [] {
      var init := pages[..|pages| - 1];
      var last := pages[|pages| - 1];
      CandidatesFastSound(init, t);
      BlocksHeadingsFastSound(last.blocks, last.pageNumber, t);
      forall h | h in CandidatesFast(pages, t)
        ensures IsPotentialHeadingFast(h.text) && exists p | p in pages :: h.page == p.pageNumber
      {
        if h in CandidatesFast(init, t) {
          var p :| p in init && h.page == p.pageNumber;
          assert p in pages;
        } else {
          assert last in pages;
        }
      }
    }
  }

  /** No outline entry of the fast engine is a figure, table, chart or graph
      caption, and every entry's text passed the filter and its page is one
      of the document's. */
  lemma {:induction false} OutlineExcludesCaptions(pages: seq<Page>, t: Thresholds)
    ensures forall h | h in FirstAsH1(CandidatesFast(pages, t)) ::
      !IsCaption(h.text) && IsPotentialHeadingFast(h.text) && exists p | p in pages :: h.page == p.pageNumber
  {
    CandidatesFastSound(pages, t);
    var c := CandidatesFast(pages, t);
    forall h | h in FirstAsH1(c)
      ensures !IsCaption(h.text) && IsPotentialHeadingFast(h.text) && exists p | p in pages :: h.page == p.pageNumber
    {
      var i :| 0 <= i < |c| && FirstAsH1(c)[i] == h;
      assert c[i] in c;
    }
  }

  lemma {:induction false} CandidatesFastPagesAtMost(pages: seq<Page>, t: Thresholds, q: int)
    requires forall i :: 0 <= i < |pages| ==> pages[i].pageNumber <= q
    ensures forall h | h in CandidatesFast(pages, t) :: h.page <= q
  {
    if pages != [] {
      var init := pages[..|pages| - 1];
      var last := pages[|pages| - 1];
      assert forall i :: 0 <= i < |init| ==> init[i] == pages[i];
      CandidatesFastPagesAtMost(init, t, q);
      BlocksHeadingsFastSound(last.blocks, last.pageNumber, t);
    }
  }

  /** With pages numbered in increasing order, the outline's page numbers
      never go down: page order, then block order. */
  lemma {:induction false} CandidatesFastPageOrder(pages: seq<Page>, t: Thresholds)
    requires forall i, j :: 0 <= i < j < |pages| ==> pages[i].pageNumber < pages[j].pageNumber
    ensures PagesNonDecreasing(CandidatesFast(pages, t))
  {
    if pages != [] {
      var init := pages[..|pages| - 1];
      var last := pages[|pages| - 1];
      assert forall i :: 0 <= i < |init| ==> init[i] == pages[i];
      CandidatesFastPageOrder(init, t);
      CandidatesFastPagesAtMost(init, t, last.pageNumber);
      BlocksHeadingsFastSound(last.blocks, last.pageNumber, t);
      PagesNonDecreasingConcat(CandidatesFast(init, t), BlocksHeadingsFast(last.blocks, last.pageNumber, t), last.pageNumber);
    }
  }

  // ==================================================================== title

  /** `_is_page_number`: `^\s*\d+\s*$` */
  predicate IsPageNumber(text: string) {
    var t := LStrip(text);
    var k := DigitRun(t);
    k > 0 && AllSpace(t[k..])
  }

  /** A page number is exactly a text whose stripped form is a non-empty run
      of ASCII digits. */
  lemma {:induction false} IsPageNumberExactly(text: string)
    ensures IsPageNumber(text) <==>
      Strip(text) != [] && forall i :: 0 <= i < |Strip(text)| ==> IsDigit(Strip(text)[i])
  {
    var t := LStrip(text);
    var k := DigitRun(t);
    var m := |t| - TrailingSpaces(t);
    assert Strip(text) == t[..m];
    if IsPageNumber(text) {
      assert !IsSpace(t[k - 1]);
      assert TrailingSpaces(t) == |t| - k;
    }
    if Strip(text) != [] && forall i :: 0 <= i < |Strip(text)| ==> IsDigit(Strip(text)[i]) {
      assert forall i :: 0 <= i < m ==> IsDigit(t[i]) by {
        forall i | 0 <= i < m ensures IsDigit(t[i]) {
          assert t[i] == Strip(text)[i];
        }
      }
      if m < |t| {
        assert IsSpace(t[m]);
      }
      assert k == m;
    }
  }

  predicate TitleQualifiesFast(sp: Span) {
    var text := Strip(sp.text);
    5 <= |text| <= 100 && !IsPageNumber(text)
  }

  /** The running `(largest_size, title_candidate)` of `_extract_title_fast`. */
  datatype Best = Best(size: real, text: string)

  /** One span visited by the search: it replaces the pick when it
      qualifies and is strictly larger. */
  function TitleStep(b: Best, sp: Span): Best {
    if TitleQualifiesFast(sp) && sp.size > b.size then Best(sp.size, Strip(sp.text)) else b
  }

  /** The search continued from `b` over `spans`. */
  function BestFrom(b: Best, spans: seq<Span>): Best
    decreases |spans|
  {
    if spans == [] then b else BestFrom(TitleStep(b, spans[0]), spans[1..])
  }

  const NoTitle := Best(0.0, "")

  /** The spans the fast title search looks at: those of the first five
      blocks of the first page. */
  function TitleSpans(first: Page): seq<Span> {
    BlockSpans(first.blocks[..Min(5, |first.blocks|)])
  }

  /** What `_extract_title_fast` returns. */
  function TitleFast(pages: seq<Page>, filename: string): string {
    if pages == [] then CleanFilenameFast(filename)
    else
      var b := BestFrom(NoTitle, TitleSpans(pages[0]));
      if b.text != "" then b.text else CleanFilenameFast(filename)
  }

  lemma {:induction false} BestFromAppend(b: Best, x: seq<Span>, y: seq<Span>)
    ensures BestFrom(b, x + y) == BestFrom(BestFrom(b, x), y)
    decreases |x|
  {
    if x != [] {
      assert (x + y)[1..] == x[1..] + y;
      BestFromAppend(TitleStep(b, x[0]), x[1..], y);
    } else {
      assert x + y == y;
    }
  }

  /** The search never lowers the size of its pick. */
  lemma {:induction false} BestFromGrows(b: Best, spans: seq<Span>)
    ensures BestFrom(b, spans).size >= b.size
    decreases |spans|
  {
    if spans != [] {
      BestFromGrows(TitleStep(b, spans[0]), spans[1..]);
    }
  }

  /** The search ends at least as large as every qualifying span it visits. */
  lemma {:induction false} BestFromAbove(b: Best, spans: seq<Span>)
    ensures forall j :: 0 <= j < |spans| && TitleQualifiesFast(spans[j]) ==> spans[j].size <= BestFrom(b, spans).size
    decreases |spans|
  {
    if spans != [] {
      var step := TitleStep(b, spans[0]);
      BestFromAbove(step, spans[1..]);
      BestFromGrows(step, spans[1..]);
      var r := BestFrom(b, spans);
      assert r == BestFrom(step, spans[1..]);
      forall j | 0 <= j < |spans| && TitleQualifiesFast(spans[j]) ensures spans[j].size <= r.size {
        if j == 0 {
          assert spans[0].size <= step.size;
        } else {
          var q := spans[1..][j - 1];
          assert q == spans[j];
          assert q.size <= r.size;
        }
      }
    }
  }

  /** A pick that is empty exactly when its size is 0 stays so; its size
      never goes down and ends at least every qualifying span's size. */
  lemma {:induction false} BestFromBounds(b: Best, spans: seq<Span>)
    requires b.size >= 0.0 && (b.text == "" <==> b.size == 0.0)
    ensures var r := BestFrom(b, spans);
      && r.size >= b.size
      && (r.text == "" <==> r.size == 0.0)
      && forall j :: 0 <= j < |spans| && TitleQualifiesFast(spans[j]) ==> spans[j].size <= r.size
    decreases |spans|
  {
    BestFromGrows(b, spans);
    BestFromAbove(b, spans);
    if spans != [] {
      var step := TitleStep(b, spans[0]);
      if TitleQualifiesFast(spans[0]) && spans[0].size > b.size {
        assert |Strip(spans[0].text)| >= 5;
      }
      BestFromBounds(step, spans[1..]);
    }
  }

  /** `spans[i]` qualifies, is larger than `floor` and strictly larger than
      every qualifying span before it. */
  predicate PickAt(spans: seq<Span>, i: int, floor: real) {
    && 0 <= i < |spans| && TitleQualifiesFast(spans[i]) && spans[i].size > floor
    && forall j :: 0 <= j < i && TitleQualifiesFast(spans[j]) ==> spans[j].size < spans[i].size
  }

  lemma {:induction false} PickAtShift(spans: seq<Span>, k: int, floor: real)
    requires spans != [] && PickAt(spans[1..], k, floor)
    requires TitleQualifiesFast(spans[0]) ==> spans[0].size <= floor
    ensures PickAt(spans, k + 1, floor)
  {
    forall j | 0 <= j < k + 1 && TitleQualifiesFast(spans[j]) ensures spans[j].size < spans[k + 1].size {
      if j > 0 {
        assert spans[j] == spans[1..][j - 1];
      }
    }
  }

  /** The search either keeps its starting pick or ends on a qualifying span
      larger than that start and strictly larger than every qualifying span
      before it. */
  lemma {:induction false} BestFromPick(b: Best, spans: seq<Span>)
    ensures var r := BestFrom(b, spans);
      || r == b
      || exists i :: PickAt(spans, i, b.size) && r == Best(spans[i].size, Strip(spans[i].text))
    decreases |spans|
  {
    if spans != [] {
      var step := TitleStep(b, spans[0]);
      var rest := spans[1..];
      BestFromPick(step, rest);
      var r := BestFrom(step, rest);
      if r != step {
        var k :| PickAt(rest, k, step.size) && r == Best(rest[k].size, Strip(rest[k].text));
        PickAtShift(spans, k, step.size);
        assert PickAt(spans, k + 1, b.size);
      } else if step != b {
        assert PickAt(spans, 0, b.size);
      }
    }
  }

  /** `_extract_title_fast` (lines 208-230): among the spans of the first five
      blocks of page 1, the first one of length 5..100 that is not a page
      number and is strictly larger than every earlier pick; the cleaned
      file name when there is none. */
  method ExtractTitleFast(pages: seq<Page>, filename: string) returns (title: string)
    ensures title == TitleFast(pages, filename)
  {
    if |pages| == 0 {
      return CleanFilenameFast(filename);
    }
    var blocks := pages[0].blocks[..Min(5, |pages[0].blocks|)];
    var largest: real := 0.0;
    var candidate: string := "";
    for b := 0 to |blocks|
      invariant Best(largest, candidate) == BestFrom(NoTitle, BlockSpans(blocks[..b]))
    {
      var spans := blocks[b].spans;
      ghost var start := Best(largest, candidate);
      for s := 0 to |spans|
        invariant BestFrom(Best(largest, candidate), spans[s..]) == BestFrom(start, spans)
      {
        assert spans[s..][1..] == spans[s + 1..];
        var text := Strip(spans[s].text);
        var size := spans[s].size;
        if 5 <= |text| <= 100 && size > largest && !IsPageNumber(text) {
          largest := size;
          candidate := text;
        }
      }
      BlockSpansStep(blocks, b);
      BestFromAppend(NoTitle, BlockSpans(blocks[..b]), spans);
    }
    assert blocks[..|blocks|] == blocks;
    title := if candidate != "" then candidate else CleanFilenameFast(filename);
  }

  /** The title the fast engine picks: the cleaned file name when no
      qualifying span has a positive size, otherwise the text of the earliest
      qualifying span of largest size among the first five blocks of page 1. */
  lemma {:induction false} TitleFastChoice(pages: seq<Page>, filename: string)
    ensures var title := TitleFast(pages, filename);
      var spans := if pages == [] then [] else TitleSpans(pages[0]);
      || (title == CleanFilenameFast(filename)
          && forall j :: 0 <= j < |spans| && TitleQualifiesFast(spans[j]) ==> spans[j].size <= 0.0)
      || exists i :: PickAt(spans, i, 0.0) && title == Strip(spans[i].text)
          && forall j :: 0 <= j < |spans| && TitleQualifiesFast(spans[j]) ==> spans[j].size <= spans[i].size
  {
    if pages != [] {
      var spans := TitleSpans(pages[0]);
      BestFromBounds(NoTitle, spans);
      BestFromPick(NoTitle, spans);
    }
  }

  // ==================================================================== file name fallback

  /** `_clean_filename` of the fast engine (lines 332-343). */
  function CleanFilenameFast(filename: string): string {
    if filename == "" then Untitled
    else
      var title := Strip(CollapseSpaces(SeparatorsToSpaces(BeforeLastDot(filename))));
      var joined := Join(CapitalizeAll(Words(title)), " ");
      if joined == "" then Untitled else joined
  }

  /** The fast file-name fallback is never empty, holds no '_' or '-', and
      has no leading, trailing or doubled whitespace; an empty name gives
      "Untitled Document". */
  lemma {:induction false} CleanFilenameFastShape(filename: string)
    ensures var r := CleanFilenameFast(filename);
      && r != ""
      && NoSeparator(r)
      && SingleSpaced(r)
      && (filename == "" ==> r == Untitled)
  {
    UntitledShape();
    if filename != "" {
      var base := SeparatorsToSpaces(BeforeLastDot(filename));
      assert NoSeparator(base);
      var title := Strip(CollapseSpaces(base));
      assert NoSeparator(title);
      JoinedWordsShape(title);
    }
  }

  // ==================================================================== process_pdf

  /** The page records `_extract_page_data_fast` returns, numbered from 1. */
  function ReadPagesFast(doc: seq<seq<PdfParser.RawBlock>>): (pages: seq<Page>)
    ensures |pages| == |doc|
    ensures forall i :: 0 <= i < |doc| ==> pages[i] == Page(i + 1, PageBlocksFast(doc[i]))
  {
    seq(|doc|, i requires 0 <= i < |doc| => Page(i + 1, PageBlocksFast(doc[i])))
  }

  /** The page loop of `process_pdf` (lines 99-102): every page handed in is
      read through `_extract_page_data_fast`, in order. */
  method ExtractPagesFast(doc: seq<seq<PdfParser.RawBlock>>) returns (pages: seq<Page>)
    ensures pages == ReadPagesFast(doc)
  {
    pages := [];
    for p := 0 to |doc|
      invariant |pages| == p
      invariant forall i :: 0 <= i < p ==> pages[i] == Page(i + 1, PageBlocksFast(doc[i]))
    {
      var pageData := ExtractPageDataFast(doc[p], p);
      pages := pages + [pageData];
    }
  }

  /** The outline the fast engine builds for numbered pages. */
  function OutlineFast(pages: seq<Page>): seq<Heading> {
    FirstAsH1(CandidatesFast(pages, ThresholdsFast(Sizes(DocSpans(pages)))))
  }

  /** `process_pdf` (lines 75-136), with the raw page dictionaries as input:
      at most 50 pages are read, each through `_extract_page_data_fast`;
      no page gives an empty title and
      outline; otherwise the font table, thresholds, title and outline are
      computed in turn.  The thresholds are those of the document's span
      sizes, whatever the dict order; the outline holds no caption and its
      page numbers lie in 1..50 and never go down. */
  method ProcessPdf(doc: seq<seq<PdfParser.RawBlock>>, filename: string) returns (title: string, outline: seq<Heading>)
    ensures var pages := ReadPagesFast(doc[..Min(|doc|, MaxPages)]);
      && (pages == [] ==> title == "" && outline == [])
      && (pages != [] ==> title == TitleFast(pages, filename) && outline == OutlineFast(pages))
    ensures PagesNonDecreasing(outline)
    ensures forall h | h in outline :: 1 <= h.page <= MaxPages && !IsCaption(h.text)
  {
    var pageCount := Min(|doc|, MaxPages);
    if pageCount == 0 {
      return "", [];
    }
    var pages := ExtractPagesFast(doc[..pageCount]);
    var fontInfo := CollectFontInfo(pages);
    var thresholds := CalculateThresholdsFast(fontInfo);
    FlattenRecords(fontInfo, DocSpans(pages));
    ThresholdsFastPermutation(Flatten(fontInfo.order, fontInfo.sizes), Sizes(DocSpans(pages)));
    title := ExtractTitleFast(pages, filename);
    outline := ClassifyHeadingsFast(pages, thresholds);
    CandidatesFastPageOrder(pages, thresholds);
    OutlineExcludesCaptions(pages, thresholds);
    var c := CandidatesFast(pages, thresholds);
    forall i, j | 0 <= i < j < |outline| ensures outline[i].page <= outline[j].page {
      assert outline[i].page == c[i].page && outline[j].page == c[j].page;
    }
    forall h | h in outline ensures 1 <= h.page <= MaxPages {
      var p :| p in pages && h.page == p.pageNumber;
      var k :| 0 <= k < |pages| && pages[k] == p;
    }
  }
}
