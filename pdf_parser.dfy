/**
  The span and font-metric accumulation of `PDFParser` (pdf_parser.py).

  PyMuPDF's page dictionaries are the input: a page is a list of blocks, a
  text block a list of lines, a line a list of raw spans (text, font name,
  size, flag bits).  What the parser makes of them is modelled: the kept
  spans with their bold/italic flags and canonical font key, the block and
  page texts, the per-key metric table that `_process_text_block` updates in
  place, the document-wide merge and the avg/min/max summary.
*/
module PdfParser {
  import opened Text

  /** `self.max_pages` */
  const MaxPages: nat := 50

  datatype RawSpan = RawSpan(text: string, font: string, size: real, flags: nat)
  datatype RawBlock = TextBlock(lines: seq<seq<RawSpan>>) | OtherBlock

  /** A kept span as `_process_text_block` records it: stripped text, font
      key, size and the two style flags. */
  datatype SpanData = SpanData(text: string, font: string, size: real, isBold: bool, isItalic: bool)
  datatype BlockData = BlockData(text: string, spans: seq<SpanData>)

  // ==================================================================== style and font key

  /** `flags & mask != 0` for a one-bit mask. */
  predicate HasFlag(flags: nat, mask: nat)
    requires mask > 0
  {
    (flags / mask) % 2 == 1
  }

  /** The arithmetic test agrees with Python's `flags & 16` and `flags & 2`
      on every 32-bit flag word. */
  lemma {:induction false} HasFlagIsBitAnd(flags: nat)
    requires flags < 0x1_0000_0000
    ensures HasFlag(flags, 16) <==> (flags as bv32) & 16 != 0
    ensures HasFlag(flags, 2) <==> (flags as bv32) & 2 != 0
  {
  }

  /** Bit 4 (value 16) of the flags, or "bold" in the lower-cased name. */
  predicate IsBold(name: string, flags: nat) {
    HasFlag(flags, 16) || Contains(Lower(name), "bold")
  }

  /** Bit 1 (value 2) of the flags, or "italic" in the lower-cased name. */
  predicate IsItalic(name: string, flags: nat) {
    HasFlag(flags, 2) || Contains(Lower(name), "italic")
  }

  /** The canonical font identifier: name, then "-Bold", then "-Italic". */
  function FontKey(name: string, bold: bool, italic: bool): string {
    name + (if bold then "-Bold" else "") + (if italic then "-Italic" else "")
  }

  /** The key as `_process_text_block` builds it, one suffix at a time. */
  lemma {:induction false} FontKeyBuilt(name: string, bold: bool, italic: bool)
    ensures var k := if bold then name + "-Bold" else name;
      FontKey(name, bold, italic) == if italic then k + "-Italic" else k
  {
    assert name + "" == name;
    assert (if bold then name + "-Bold" else name) + "" == (if bold then name + "-Bold" else name);
  }

  /** A name ending in `marker` contains `word` once lower-cased, when the
      marker lower-cases to "-" followed by the word. */
  lemma {:induction false} MarkerInName(prefix: string, marker: string, word: string)
    requires Lower(marker) == "-" + word
    ensures Contains(Lower(prefix + marker), word)
  {
    LowerAppend(prefix, marker);
    assert Lower(prefix + marker) == (Lower(prefix) + "-") + word;
    ContainsSuffix(Lower(prefix) + "-", word);
  }

  /** Stripping the style suffixes back off a key built by `_process_text_block`. */
  lemma {:induction false} FontKeySuffix(name: string, flags: nat)
    ensures var k := FontKey(name, IsBold(name, flags), IsItalic(name, flags));
      && (EndsWith(k, "-Italic") <==> IsItalic(name, flags))
      && var k' := if IsItalic(name, flags) then k[..|k| - 7] else k;
         && k' == FontKey(name, IsBold(name, flags), false)
         && (EndsWith(k', "-Bold") <==> IsBold(name, flags))
         && (if IsBold(name, flags) then k'[..|k'| - 5] else k') == name
  {
    var bold := IsBold(name, flags);
    var italic := IsItalic(name, flags);
    var k := FontKey(name, bold, italic);
    var k' := FontKey(name, bold, false);
    assert Lower("-Italic") == "-" + "italic";
    assert Lower("-Bold") == "-" + "bold";
    if !italic {
      assert k == k';
      if bold {
        assert k[|k| - 1] == 'd';
        assert !EndsWith(k, "-Italic") by {
          if |"-Italic"| <= |k| {
            assert k[|k| - 7..][6] == k[|k| - 1];
          }
        }
      } else if EndsWith(k, "-Italic") {
        assert name == name[..|name| - 7] + "-Italic";
        MarkerInName(name[..|name| - 7], "-Italic", "italic");
      }
    } else {
      assert k == k' + "-Italic";
      assert k[..|k| - 7] == k';
    }
    if !bold {
      assert k' == name;
      if EndsWith(k', "-Bold") {
        assert name == name[..|name| - 5] + "-Bold";
        MarkerInName(name[..|name| - 5], "-Bold", "bold");
      }
    } else {
      assert k' == name + "-Bold";
      assert k'[..|k'| - 5] == name;
    }
  }

  /** The key is canonical: two spans share a key exactly when they share
      the font name and both style flags. */
  lemma {:induction false} FontKeyInjective(n1: string, f1: nat, n2: string, f2: nat)
    ensures FontKey(n1, IsBold(n1, f1), IsItalic(n1, f1)) == FontKey(n2, IsBold(n2, f2), IsItalic(n2, f2))
      <==> n1 == n2 && IsBold(n1, f1) == IsBold(n2, f2) && IsItalic(n1, f1) == IsItalic(n2, f2)
  {
    FontKeySuffix(n1, f1);
    FontKeySuffix(n2, f2);
  }

  // ==================================================================== kept spans

  /** What a raw span becomes once kept. */
  function SpanOf(s: RawSpan): SpanData {
    var bold := IsBold(s.font, s.flags);
    var italic := IsItalic(s.font, s.flags);
    SpanData(Strip(s.text), FontKey(s.font, bold, italic), s.size, bold, italic)
  }

  lemma {:induction false} SpanOfFields(s: RawSpan)
    ensures SpanOf(s) == SpanData(Strip(s.text), FontKey(s.font, IsBold(s.font, s.flags), IsItalic(s.font, s.flags)), s.size, IsBold(s.font, s.flags), IsItalic(s.font, s.flags))
  {
  }

  /** The spans of all lines, line after line. */
  function Flat(lines: seq<seq<RawSpan>>): seq<RawSpan> {
    if lines == [] then [] else Flat(lines[..|lines| - 1]) + lines[|lines| - 1]
  }

  /** A non-empty text with no white space at either end. */
  predicate Trimmed(t: string) {
    t != [] && !IsSpace(t[0]) && !IsSpace(t[|t| - 1])
  }

  /** The spans a block keeps: those whose stripped text is not empty, in
      reading order. */
  function KeptSpans(raw: seq<RawSpan>): (r: seq<SpanData>)
    ensures |r| <= |raw|
    ensures forall i :: 0 <= i < |r| ==> Trimmed(r[i].text)
  {
    if raw == [] then []
    else
      var rest := KeptSpans(raw[..|raw| - 1]);
      var last := raw[|raw| - 1];
      if Strip(last.text) == "" then rest else rest + [SpanOf(last)]
  }

  /** A span whose text strips to nothing leaves no trace; every other span
      is kept, once, in its place. */
  lemma {:induction false} KeptSpansAppend(a: seq<RawSpan>, b: seq<RawSpan>)
    ensures KeptSpans(a + b) == KeptSpans(a) + KeptSpans(b)
    decreases |b|
  {
    if b == [] {
      assert a + b == a;
    } else {
      assert (a + b)[..|a + b| - 1] == a + b[..|b| - 1];
      KeptSpansAppend(a, b[..|b| - 1]);
    }
  }

  /** One more raw span: kept at the end when its stripped text is not empty. */
  lemma {:induction false} KeptSpansSnoc(raw: seq<RawSpan>, s: RawSpan)
    ensures KeptSpans(raw + [s]) == if Strip(s.text) == "" then KeptSpans(raw) else KeptSpans(raw) + [SpanOf(s)]
  {
    assert (raw + [s])[..|raw|] == raw;
  }

  function Texts(spans: seq<SpanData>): seq<string> {
    seq(|spans|, i requires 0 <= i < |spans| => spans[i].text)
  }

  /** `block_text` while it is built: each kept text followed by a space. */
  function SpacedTexts(spans: seq<SpanData>): string {
    if spans == [] then "" else SpacedTexts(spans[..|spans| - 1]) + spans[|spans| - 1].text + " "
  }

  lemma {:induction false} SpacedTextsJoin(spans: seq<SpanData>)
    requires spans != []
    ensures SpacedTexts(spans) == Join(Texts(spans), " ") + " "
    decreases |spans|
  {
    var init := spans[..|spans| - 1];
    if init == [] {
      assert Texts(spans) == [spans[0].text];
    } else {
      SpacedTextsJoin(init);
      assert Texts(spans) == Texts(init) + [spans[|spans| - 1].text];
      JoinSnoc(Texts(init), spans[|spans| - 1].text, " ");
    }
  }

  /** The stripped `block_text` is the kept texts joined by single spaces. */
  lemma {:induction false} BlockTextJoined(spans: seq<SpanData>)
    requires forall i :: 0 <= i < |spans| ==> Trimmed(spans[i].text)
    ensures Strip(SpacedTexts(spans)) == Join(Texts(spans), " ")
  {
    if spans != [] {
      SpacedTextsJoin(spans);
      var ts := Texts(spans);
      forall i | 0 <= i < |ts|
        ensures ts[i] != [] && !IsSpace(ts[i][0]) && !IsSpace(ts[i][|ts[i]| - 1])
      {
        assert ts[i] == spans[i].text && Trimmed(spans[i].text);
      }
      StripJoinSpace(ts);
    }
  }

  // ==================================================================== the metric table

  /** One entry of `font_metrics`: `{"sizes", "count", "total_chars"}`. */
  datatype Metric = Metric(sizes: seq<real>, count: int, totalChars: int)

  const NoMetric := Metric([], 0, 0)

  /** `sizes.extend`, `count +=`, `total_chars +=`. */
  function Plus(a: Metric, b: Metric): Metric {
    Metric(a.sizes + b.sizes, a.count + b.count, a.totalChars + b.totalChars)
  }

  lemma {:induction false} PlusAssoc(a: Metric, b: Metric, c: Metric)
    ensures Plus(Plus(a, b), c) == Plus(a, Plus(b, c))
  {
    assert (a.sizes + b.sizes) + c.sizes == a.sizes + (b.sizes + c.sizes);
  }

  lemma {:induction false} PlusNone(a: Metric)
    ensures Plus(a, NoMetric) == a && Plus(NoMetric, a) == a
  {
    assert a.sizes + [] == a.sizes;
    assert [] + a.sizes == a.sizes;
  }

  /** Every entry the parser builds has one size per counted span and at
      least one character per span. */
  predicate Consistent(m: Metric) {
    m.count == |m.sizes| && m.totalChars >= m.count
  }

  /** A `font_metrics` dict: its keys in insertion order, and the entries. */
  datatype Table = Table(order: seq<string>, entries: map<string, Metric>)

  const EmptyTable := Table([], map[])

  /** The entry for `k`, or the empty entry when there is none. */
  function Lookup(t: Table, k: string): Metric {
    if k in t.entries then t.entries[k] else NoMetric
  }

  /** Keys listed once each, in the order they were first added. */
  ghost predicate WellFormed(t: Table) {
    && (forall i, j :: 0 <= i < j < |t.order| ==> t.order[i] != t.order[j])
    && (forall k :: k in t.entries <==> k in t.order)
  }

  /** Add `m` to the entry of `key`, creating it at the end of the key order
      when absent. */
  function AddTo(t: Table, key: string, m: Metric): Table {
    Table(if key in t.entries then t.order else t.order + [key], t.entries[key := Plus(Lookup(t, key), m)])
  }

  /** Adding to one key changes that key's entry by exactly `m` and no other. */
  lemma {:induction false} AddToLookup(t: Table, key: string, m: Metric, k: string)
    ensures Lookup(AddTo(t, key, m), k) == if k == key then Plus(Lookup(t, k), m) else Lookup(t, k)
  {
  }

  lemma {:induction false} AddToWellFormed(t: Table, key: string, m: Metric)
    requires WellFormed(t)
    ensures WellFormed(AddTo(t, key, m))
  {
  }

  /** The contribution of one kept span: its size, a count of 1, its length. */
  function SpanMetric(sd: SpanData): Metric {
    Metric([sd.size], 1, |sd.text|)
  }

  /** The table after recording every span of `spans`, in order. */
  function RecordAll(t: Table, spans: seq<SpanData>): Table {
    if spans == [] then t
    else
      var last := spans[|spans| - 1];
      AddTo(RecordAll(t, spans[..|spans| - 1]), last.font, SpanMetric(last))
  }

  /** Recording one more span, and the block text that goes with it. */
  lemma {:induction false} RecordSnoc(t: Table, spans: seq<SpanData>, sd: SpanData)
    ensures RecordAll(t, spans + [sd]) == AddTo(RecordAll(t, spans), sd.font, SpanMetric(sd))
    ensures SpacedTexts(spans + [sd]) == SpacedTexts(spans) + sd.text + " "
  {
    assert (spans + [sd])[..|spans|] == spans;
  }

  /** What the spans set under key `k` add up to. */
  function MetricOf(spans: seq<SpanData>, k: string): Metric {
    if spans == [] then NoMetric
    else
      var last := spans[|spans| - 1];
      Plus(MetricOf(spans[..|spans| - 1], k), if last.font == k then SpanMetric(last) else NoMetric)
  }

  /** Recording spans changes each key's entry by exactly what that key's
      spans add up to; keys no span uses are untouched. */
  lemma {:induction false} RecordAllLookup(t: Table, spans: seq<SpanData>, k: string)
    ensures Lookup(RecordAll(t, spans), k) == Plus(Lookup(t, k), MetricOf(spans, k))
  {
    if spans == [] {
      PlusNone(Lookup(t, k));
    } else {
      var init := spans[..|spans| - 1];
      var last := spans[|spans| - 1];
      RecordAllLookup(t, init, k);
      AddToLookup(RecordAll(t, init), last.font, SpanMetric(last), k);
      PlusAssoc(Lookup(t, k), MetricOf(init, k), if last.font == k then SpanMetric(last) else NoMetric);
    }
  }

  lemma {:induction false} RecordAllWellFormed(t: Table, spans: seq<SpanData>)
    requires WellFormed(t)
    ensures WellFormed(RecordAll(t, spans))
  {
    if spans != [] {
      var last := spans[|spans| - 1];
      RecordAllWellFormed(t, spans[..|spans| - 1]);
      AddToWellFormed(RecordAll(t, spans[..|spans| - 1]), last.font, SpanMetric(last));
    }
  }

  /** Splitting the spans splits each key's total. */
  lemma {:induction false} MetricOfAppend(a: seq<SpanData>, b: seq<SpanData>, k: string)
    ensures MetricOf(a + b, k) == Plus(MetricOf(a, k), MetricOf(b, k))
    decreases |b|
  {
    if b == [] {
      assert a + b == a;
      PlusNone(MetricOf(a, k));
    } else {
      var init := b[..|b| - 1];
      var last := b[|b| - 1];
      assert (a + b)[..|a + b| - 1] == a + init;
      MetricOfAppend(a, init, k);
      PlusAssoc(MetricOf(a, k), MetricOf(init, k), if last.font == k then SpanMetric(last) else NoMetric);
    }
  }

  /** Each key's total counts its spans, lists one size per span, and has at
      least one character per span when every text is non-empty. */
  lemma {:induction false} MetricOfConsistent(spans: seq<SpanData>, k: string)
    requires forall i :: 0 <= i < |spans| ==> spans[i].text != []
    ensures Consistent(MetricOf(spans, k))
  {
    if spans != [] {
      MetricOfConsistent(spans[..|spans| - 1], k);
    }
  }

  /** Some span of `spans` is set under key `k`. */
  ghost predicate UsesFont(spans: seq<SpanData>, k: string) {
    exists i :: 0 <= i < |spans| && spans[i].font == k
  }

  /** A key's total counts something exactly when some span uses the key. */
  lemma {:induction false} MetricOfUses(spans: seq<SpanData>, k: string)
    ensures MetricOf(spans, k).count >= 0
    ensures MetricOf(spans, k).count > 0 <==> UsesFont(spans, k)
  {
    if spans != [] {
      var init := spans[..|spans| - 1];
      var last := spans[|spans| - 1];
      MetricOfUses(init, k);
      if UsesFont(init, k) {
        var i :| 0 <= i < |init| && init[i].font == k;
        assert spans[i] == init[i];
      }
      if UsesFont(spans, k) && last.font != k {
        var i :| 0 <= i < |spans| && spans[i].font == k;
        assert init[i] == spans[i];
      }
    }
  }

  /** Every entry of the table counts at least one span. */
  ghost predicate Positive(t: Table) {
    forall k | k in t.entries :: t.entries[k].count > 0
  }

  lemma {:induction false} RecordAllPositive(t: Table, spans: seq<SpanData>)
    requires Positive(t)
    ensures Positive(RecordAll(t, spans))
  {
    if spans != [] {
      RecordAllPositive(t, spans[..|spans| - 1]);
    }
  }

  /** `font_metrics`, a dict whose entries are updated in place. */
  class FontMetrics {
    var order: seq<string>
    var entries: map<string, Metric>

    function Snapshot(): Table
      reads this
    {
      Table(order, entries)
    }

    ghost predicate Valid()
      reads this
    {
      WellFormed(Snapshot()) && forall k | k in entries :: Consistent(entries[k])
    }

    constructor ()
      ensures Snapshot() == EmptyTable && Valid()
    {
      order := [];
      entries := map[];
    }

    /** Create the entry `{"sizes": [], "count": 0, "total_chars": 0}` when
        `key` is new, then extend its sizes and add to its two counters
        (pdf_parser.py:163-172 for one span, 50-60 for a page's entry). */
    method Add(key: string, m: Metric)
      requires Valid() && Consistent(m)
      modifies this
      ensures Snapshot() == AddTo(old(Snapshot()), key, m)
      ensures Valid()
    {
      if key !in entries {
        entries := entries[key := NoMetric];
        order := order + [key];
      }
      var e := entries[key];
      entries := entries[key := Metric(e.sizes + m.sizes, e.count + m.count, e.totalChars + m.totalChars)];
    }
  }

  // ==================================================================== _process_text_block

  /** The loop over one line's spans in `_process_text_block` (lines
      141-180): a span whose stripped text is empty is skipped; any other
      is recorded under its font key in `metrics`, appended to the block's
      spans and, followed by a space, to the block text. */
  method ProcessLine(line: seq<RawSpan>, metrics: FontMetrics, spansData0: seq<SpanData>, blockText0: string)
    returns (spansData: seq<SpanData>, blockText: string)
    requires metrics.Valid()
    requires blockText0 == SpacedTexts(spansData0)
    modifies metrics
    ensures metrics.Valid()
    ensures spansData == spansData0 + KeptSpans(line)
    ensures blockText == SpacedTexts(spansData)
    ensures metrics.Snapshot() == RecordAll(old(metrics.Snapshot()), spansData[|spansData0|..])
  {
    spansData, blockText := spansData0, blockText0;
    ghost var t0 := metrics.Snapshot();
    for s := 0 to |line|
      invariant metrics.Valid()
      invariant spansData == spansData0 + KeptSpans(line[..s])
      invariant blockText == SpacedTexts(spansData)
      invariant metrics.Snapshot() == RecordAll(t0, KeptSpans(line[..s]))
    {
      var span := line[s];
      TakeStep(line, s);
      KeptSpansSnoc(line[..s], span);
      var text := Strip(span.text);
      if text == "" {
        continue;
      }
      var fontName := span.font;
      var fontSize := span.size;
      var fontFlags := span.flags;
      var isBold := IsBold(fontName, fontFlags);
      var isItalic := IsItalic(fontName, fontFlags);
      var fontKey := fontName;
      if isBold {
        fontKey := fontKey + "-Bold";
      }
      if isItalic {
        fontKey := fontKey + "-Italic";
      }
      FontKeyBuilt(fontName, isBold, isItalic);
      var sd := SpanData(text, fontKey, fontSize, isBold, isItalic);
      SpanOfFields(span);
      ghost var kept := KeptSpans(line[..s]);
      assert KeptSpans(line[..s + 1]) == kept + [sd];
      AppendAssoc(spansData0, kept, [sd]);
      RecordSnoc(t0, KeptSpans(line[..s]), sd);
      RecordSnoc(t0, spansData, sd);
      metrics.Add(fontKey, Metric([fontSize], 1, |text|));
      spansData := spansData + [sd];
      blockText := blockText + text + " ";
    }
    assert line[..|line|] == line;
    assert spansData[|spansData0|..] == KeptSpans(line);
  }

  /** `_process_text_block` (lines 126-189): every span of every line whose
      stripped text is non-empty is recorded under its font key in
      `metrics`, added to the block's spans and appended to the block
      text.  The block text is the kept texts joined by single spaces, and
      the table changes by exactly the kept spans. */
  method ProcessTextBlock(lines: seq<seq<RawSpan>>, metrics: FontMetrics) returns (block: BlockData)
    requires metrics.Valid()
    modifies metrics
    ensures metrics.Valid()
    ensures block.spans == KeptSpans(Flat(lines))
    ensures block.text == Join(Texts(block.spans), " ")
    ensures metrics.Snapshot() == RecordAll(old(metrics.Snapshot()), block.spans)
  {
    var blockText := "";
    var spansData: seq<SpanData> := [];
    ghost var t0 := metrics.Snapshot();
    for l := 0 to |lines|
      invariant metrics.Valid()
      invariant spansData == KeptSpans(Flat(lines[..l]))
      invariant blockText == SpacedTexts(spansData)
      invariant metrics.Snapshot() == RecordAll(t0, spansData)
    {
      ghost var before := spansData;
      spansData, blockText := ProcessLine(lines[l], metrics, spansData, blockText);
      RecordAllAppend(t0, before, spansData[|before|..]);
      assert spansData == before + spansData[|before|..];
      assert lines[..l + 1][..l] == lines[..l];
      KeptSpansAppend(Flat(lines[..l]), lines[l]);
    }
    assert lines[..|lines|] == lines;
    BlockTextJoined(spansData);
    block := BlockData(Strip(blockText), spansData);
  }

  // ==================================================================== _extract_page_data

  datatype PageData = PageData(pageNumber: int, text: string, blocks: seq<BlockData>, metrics: Table)

  /** The block records of a page: one per text block, in order. */
  function PageBlocks(blocks: seq<RawBlock>): seq<BlockData> {
    if blocks == [] then []
    else
      var rest := PageBlocks(blocks[..|blocks| - 1]);
      match blocks[|blocks| - 1]
      case OtherBlock => rest
      case TextBlock(lines) =>
        var spans := KeptSpans(Flat(lines));
        rest + [BlockData(Join(Texts(spans), " "), spans)]
  }

  /** The kept spans of a page, block after block. */
  function PageSpans(blocks: seq<BlockData>): seq<SpanData> {
    if blocks == [] then [] else PageSpans(blocks[..|blocks| - 1]) + blocks[|blocks| - 1].spans
  }

  /** `page_text` while it is built: each block text followed by a newline. */
  function LinedTexts(blocks: seq<BlockData>): string {
    if blocks == [] then "" else LinedTexts(blocks[..|blocks| - 1]) + blocks[|blocks| - 1].text + "\n"
  }

  lemma {:induction false} PageSpansNonEmpty(blocks: seq<RawBlock>)
    ensures forall i :: 0 <= i < |PageSpans(PageBlocks(blocks))| ==> PageSpans(PageBlocks(blocks))[i].text != []
    decreases |blocks|
  {
    if blocks != [] {
      var init := blocks[..|blocks| - 1];
      PageSpansNonEmpty(init);
      var rest := PageBlocks(init);
      if blocks[|blocks| - 1].TextBlock? {
        var b := PageBlocks(blocks)[|rest|];
        assert PageBlocks(blocks) == rest + [b];
        assert (rest + [b])[..|rest|] == rest;
      }
    }
  }

  /** `_extract_page_data` (lines 91-124): process every text block with a
      fresh metric table, collect the block records and the page text.  The
      table ends as exactly the record of the page's kept spans, and each
      key's entry is their total. */
  method ExtractPageData(blocks: seq<RawBlock>, pageNum: int) returns (page: PageData)
    ensures page.pageNumber == pageNum
    ensures page.blocks == PageBlocks(blocks)
    ensures page.text == Strip(LinedTexts(page.blocks))
    ensures page.metrics == RecordAll(EmptyTable, PageSpans(page.blocks))
    ensures WellFormed(page.metrics)
    ensures forall k :: Lookup(page.metrics, k) == MetricOf(PageSpans(page.blocks), k)
  {
    var pageText := "";
    var textBlocks: seq<BlockData> := [];
    var metrics := new FontMetrics();
    for b := 0 to |blocks|
      invariant metrics.Valid()
      invariant textBlocks == PageBlocks(blocks[..b])
      invariant pageText == LinedTexts(textBlocks)
      invariant metrics.Snapshot() == RecordAll(EmptyTable, PageSpans(textBlocks))
    {
      assert blocks[..b + 1][..b] == blocks[..b];
      if blocks[b].TextBlock? {
        var blockData := ProcessTextBlock(blocks[b].lines, metrics);
        RecordAllAppend(EmptyTable, PageSpans(textBlocks), blockData.spans);
        textBlocks := textBlocks + [blockData];
        pageText := pageText + blockData.text + "\n";
      }
    }
    assert blocks[..|blocks|] == blocks;
    page := PageData(pageNum, Strip(pageText), textBlocks, metrics.Snapshot());
    forall k ensures Lookup(page.metrics, k) == MetricOf(PageSpans(page.blocks), k) {
      RecordAllLookup(EmptyTable, PageSpans(page.blocks), k);
      PlusNone(MetricOf(PageSpans(page.blocks), k));
    }
  }

  lemma {:induction false} RecordAllAppend(t: Table, a: seq<SpanData>, b: seq<SpanData>)
    ensures RecordAll(t, a + b) == RecordAll(RecordAll(t, a), b)
    decreases |b|
  {
    if b == [] {
      assert a + b == a;
    } else {
      assert (a + b)[..|a + b| - 1] == a + b[..|b| - 1];
      RecordAllAppend(t, a, b[..|b| - 1]);
    }
  }

  // ==================================================================== extract_text_and_layout

  /** Add every entry of `u` to `t`, key by key in `u`'s order. */
  function MergeKeys(t: Table, u: Table, keys: seq<string>): Table {
    if keys == [] then t
    else
      var k := keys[|keys| - 1];
      AddTo(MergeKeys(t, u, keys[..|keys| - 1]), k, Lookup(u, k))
  }

  /** Merging adds each listed key's entry of `u` once. */
  lemma {:induction false} MergeKeysLookup(t: Table, u: Table, keys: seq<string>, k: string)
    requires forall i, j :: 0 <= i < j < |keys| ==> keys[i] != keys[j]
    ensures Lookup(MergeKeys(t, u, keys), k) == if k in keys then Plus(Lookup(t, k), Lookup(u, k)) else Lookup(t, k)
  {
    if keys != [] {
      var init := keys[..|keys| - 1];
      var last := keys[|keys| - 1];
      MergeKeysLookup(t, u, init, k);
      AddToLookup(MergeKeys(t, u, init), last, Lookup(u, last), k);
      assert k in keys <==> k in init || k == last;
      if k == last {
        assert k !in init by {
          assert forall i :: 0 <= i < |init| ==> init[i] == keys[i];
        }
      }
    }
  }

  lemma {:induction false} MergeKeysWellFormed(t: Table, u: Table, keys: seq<string>)
    requires WellFormed(t)
    ensures WellFormed(MergeKeys(t, u, keys))
  {
    if keys != [] {
      var k := keys[|keys| - 1];
      MergeKeysWellFormed(t, u, keys[..|keys| - 1]);
      AddToWellFormed(MergeKeys(t, u, keys[..|keys| - 1]), k, Lookup(u, k));
    }
  }

  /** Merging a well-formed table adds its entries key by key. */
  lemma {:induction false} MergeLookup(t: Table, u: Table, k: string)
    requires WellFormed(u)
    ensures Lookup(MergeKeys(t, u, u.order), k) == Plus(Lookup(t, k), Lookup(u, k))
  {
    MergeKeysLookup(t, u, u.order, k);
    if k !in u.order {
      PlusNone(Lookup(t, k));
    }
  }

  /** The document table after merging the tables of `pages` in order. */
  function MergePages(pages: seq<PageData>): Table {
    if pages == [] then EmptyTable
    else
      var last := pages[|pages| - 1];
      MergeKeys(MergePages(pages[..|pages| - 1]), last.metrics, last.metrics.order)
  }

  /** The spans of the whole document, page after page. */
  function DocSpans(pages: seq<PageData>): seq<SpanData> {
    if pages == [] then [] else DocSpans(pages[..|pages| - 1]) + PageSpans(pages[|pages| - 1].blocks)
  }

  /** Merging the per-page tables gives, for every key, the total of that
      key's spans over the whole document: sizes concatenated in page order,
      counts and character totals summed. */
  lemma {:induction false} MergePagesLookup(pages: seq<PageData>, k: string)
    requires forall i :: 0 <= i < |pages| ==> pages[i].metrics == RecordAll(EmptyTable, PageSpans(pages[i].blocks))
    ensures Lookup(MergePages(pages), k) == MetricOf(DocSpans(pages), k)
  {
    if pages != [] {
      var init := pages[..|pages| - 1];
      var last := pages[|pages| - 1];
      MergePagesLookup(init, k);
      RecordAllWellFormed(EmptyTable, PageSpans(last.blocks));
      MergeLookup(MergePages(init), last.metrics, k);
      RecordAllLookup(EmptyTable, PageSpans(last.blocks), k);
      PlusNone(MetricOf(PageSpans(last.blocks), k));
      MetricOfAppend(DocSpans(init), PageSpans(last.blocks), k);
    }
  }

  lemma {:induction false} MergePagesWellFormed(pages: seq<PageData>)
    ensures WellFormed(MergePages(pages))
  {
    if pages != [] {
      var last := pages[|pages| - 1];
      MergePagesWellFormed(pages[..|pages| - 1]);
      MergeKeysWellFormed(MergePages(pages[..|pages| - 1]), last.metrics, last.metrics.order);
    }
  }

  lemma {:induction false} MergeKeysPositive(t: Table, u: Table, keys: seq<string>)
    requires Positive(t) && Positive(u)
    requires forall k | k in keys :: k in u.entries
    ensures Positive(MergeKeys(t, u, keys))
  {
    if keys != [] {
      MergeKeysPositive(t, u, keys[..|keys| - 1]);
      assert keys[|keys| - 1] in keys;
    }
  }

  /** A page table built from spans only holds keys that count something. */
  lemma {:induction false} MergePagesPositive(pages: seq<PageData>)
    requires forall i :: 0 <= i < |pages| ==> pages[i].metrics == RecordAll(EmptyTable, PageSpans(pages[i].blocks))
    ensures Positive(MergePages(pages))
  {
    if pages != [] {
      var init := pages[..|pages| - 1];
      var last := pages[|pages| - 1];
      MergePagesPositive(init);
      RecordAllPositive(EmptyTable, PageSpans(last.blocks));
      RecordAllWellFormed(EmptyTable, PageSpans(last.blocks));
      MergeKeysPositive(MergePages(init), last.metrics, last.metrics.order);
    }
  }

  /** The document table has an entry for `k` exactly when some span of the
      document is set under `k`. */
  lemma {:induction false} MergePagesKeys(pages: seq<PageData>, k: string)
    requires forall i :: 0 <= i < |pages| ==> pages[i].metrics == RecordAll(EmptyTable, PageSpans(pages[i].blocks))
    ensures k in MergePages(pages).entries <==> UsesFont(DocSpans(pages), k)
  {
    MergePagesLookup(pages, k);
    MergePagesPositive(pages);
    MetricOfUses(DocSpans(pages), k);
  }

  // ---------------------------------------------------------------- avg / max / min

  function Sum(s: seq<real>): real {
    if s == [] then 0.0 else Sum(s[..|s| - 1]) + s[|s| - 1]
  }

  /** `max(sizes)` */
  function MaxOf(s: seq<real>): (m: real)
    requires s != []
    ensures m in s && forall x | x in s :: x <= m
  {
    if |s| == 1 then s[0]
    else
      var r := MaxOf(s[..|s| - 1]);
      assert forall x | x in s :: x in s[..|s| - 1] || x == s[|s| - 1];
      if s[|s| - 1] > r then s[|s| - 1] else r
  }

  /** `min(sizes)` */
  function MinOf(s: seq<real>): (m: real)
    requires s != []
    ensures m in s && forall x | x in s :: m <= x
  {
    if |s| == 1 then s[0]
    else
      var r := MinOf(s[..|s| - 1]);
      assert forall x | x in s :: x in s[..|s| - 1] || x == s[|s| - 1];
      if s[|s| - 1] < r then s[|s| - 1] else r
  }

  /** The fields added to each entry: average, largest and smallest size. */
  datatype Summary = Summary(avgSize: real, maxSize: real, minSize: real)

  /** avg/max/min of the sizes, or 12.0 for all three when there are none. */
  function SummaryOf(sizes: seq<real>): Summary {
    if sizes == [] then Summary(12.0, 12.0, 12.0)
    else Summary(Sum(sizes) / (|sizes| as real), MaxOf(sizes), MinOf(sizes))
  }

  lemma {:induction false} SumBounds(s: seq<real>, lo: real, hi: real)
    requires forall x | x in s :: lo <= x <= hi
    ensures (|s| as real) * lo <= Sum(s) <= (|s| as real) * hi
  {
    if s != [] {
      var init := s[..|s| - 1];
      assert forall x | x in init :: x in s;
      SumBounds(init, lo, hi);
      assert s[|s| - 1] in s;
    }
  }

  lemma {:induction false} DivideBounds(x: real, n: real, lo: real, hi: real)
    requires n > 0.0 && n * lo <= x <= n * hi
    ensures lo <= x / n <= hi
  {
    assert x / n - lo == (x - n * lo) / n;
    assert hi - x / n == (n * hi - x) / n;
  }

  /** The smallest size is at most the average, which is at most the largest;
      all three are 12.0 for an entry without sizes. */
  lemma {:induction false} SummaryOrdered(sizes: seq<real>)
    ensures var r := SummaryOf(sizes);
      && r.minSize <= r.avgSize <= r.maxSize
      && (sizes == [] ==> r == Summary(12.0, 12.0, 12.0))
      && (sizes != [] ==> r.minSize in sizes && r.maxSize in sizes)
  {
    if sizes != [] {
      var lo, hi := MinOf(sizes), MaxOf(sizes);
      SumBounds(sizes, lo, hi);
      var n := |sizes| as real;
      DivideBounds(Sum(sizes), n, lo, hi);
    }
  }

  /** A summarised entry of the document-wide `font_metrics`. */
  datatype FontEntry = FontEntry(metric: Metric, summary: Summary)

  /** The result of `extract_text_and_layout`. */
  datatype Layout = Layout(
    pages: seq<PageData>,
    fontOrder: seq<string>,
    fonts: map<string, FontEntry>,
    totalPages: nat,
    totalCharacters: nat)

  function TextLengths(pages: seq<PageData>): nat {
    if pages == [] then 0 else TextLengths(pages[..|pages| - 1]) + |pages[|pages| - 1].text|
  }

  function Min(a: nat, b: nat): nat { if a <= b then a else b }

  /** `extract_text_and_layout` (lines 21-89): extract the first
      min(page_count, 50) pages numbered from 1, merge each page's metric
      table into the document's, count the characters of the page texts,
      then summarise every entry.  Each document entry is the total of its
      key's spans across all pages, and its summary is ordered
      min <= avg <= max. */
  method ExtractTextAndLayout(doc: seq<seq<RawBlock>>) returns (layout: Layout)
    ensures |layout.pages| == layout.totalPages == Min(|doc|, MaxPages)
    ensures ReadPages(doc, layout.pages)
    ensures layout.totalCharacters == TextLengths(layout.pages)
    ensures layout.fontOrder == MergePages(layout.pages).order
    ensures forall k :: k in layout.fonts <==> k in layout.fontOrder
    ensures forall k :: k in layout.fonts <==> UsesFont(DocSpans(layout.pages), k)
    ensures forall k | k in layout.fonts ::
      && layout.fonts[k].metric == MetricOf(DocSpans(layout.pages), k)
      && layout.fonts[k].summary == SummaryOf(layout.fonts[k].metric.sizes)
      && layout.fonts[k].summary.minSize <= layout.fonts[k].summary.avgSize <= layout.fonts[k].summary.maxSize
  {
    var pagesData: seq<PageData> := [];
    var fontMetrics := new FontMetrics();
    var totalChars: nat := 0;
    var pageCount := Min(|doc|, MaxPages);
    for pageNum := 0 to pageCount
      invariant fontMetrics.Valid()
      invariant |pagesData| == pageNum
      invariant ReadPages(doc, pagesData)
      invariant fontMetrics.Snapshot() == MergePages(pagesData)
      invariant totalChars == TextLengths(pagesData)
    {
      var pageData := ExtractPageData(doc[pageNum], pageNum + 1);
      ReadPagesSnoc(doc, pagesData, pageData);
      PagesSnoc(pagesData, pageData);
      MergePage(fontMetrics, doc[pageNum], pageData);
      pagesData := pagesData + [pageData];
      totalChars := totalChars + |pageData.text|;
    }
    layout := Summarize(pagesData, fontMetrics, totalChars);
  }

  /** `page` is what reading the raw blocks `raw` as page number `n` gives. */
  ghost predicate PageRead(raw: seq<RawBlock>, n: int, page: PageData) {
    && page.pageNumber == n && page.blocks == PageBlocks(raw)
    && page.text == Strip(LinedTexts(page.blocks))
    && page.metrics == RecordAll(EmptyTable, PageSpans(page.blocks))
  }

  /** `pages` are the records of the first pages of `doc`, numbered from 1. */
  ghost predicate ReadPages(doc: seq<seq<RawBlock>>, pages: seq<PageData>) {
    && |pages| <= |doc|
    && forall i :: 0 <= i < |pages| ==> PageRead(doc[i], i + 1, pages[i])
  }

  /** Reading the next page of `doc` keeps the records in step. */
  lemma {:induction false} ReadPagesSnoc(doc: seq<seq<RawBlock>>, pages: seq<PageData>, page: PageData)
    requires ReadPages(doc, pages) && |pages| < |doc|
    requires PageRead(doc[|pages|], |pages| + 1, page)
    ensures ReadPages(doc, pages + [page])
  {
    var all := pages + [page];
    forall i | 0 <= i < |all|
      ensures PageRead(doc[i], i + 1, all[i])
    {
      if i < |pages| {
        assert all[i] == pages[i];
      } else {
        assert i == |pages| && all[i] == page;
      }
    }
  }

  /** One more page: the merged table and the character count move by that
      page. */
  lemma {:induction false} PagesSnoc(pages: seq<PageData>, page: PageData)
    ensures MergePages(pages + [page]) == MergeKeys(MergePages(pages), page.metrics, page.metrics.order)
    ensures TextLengths(pages + [page]) == TextLengths(pages) + |page.text|
  {
    assert (pages + [page])[..|pages|] == pages;
  }

  /** The merge loop for one page (lines 50-60): add every entry of the
      page's table to the document table, key by key. */
  method MergePage(fontMetrics: FontMetrics, ghost blocks: seq<RawBlock>, pageData: PageData)
    requires fontMetrics.Valid()
    requires pageData.blocks == PageBlocks(blocks)
    requires pageData.metrics == RecordAll(EmptyTable, PageSpans(pageData.blocks))
    modifies fontMetrics
    ensures fontMetrics.Valid()
    ensures fontMetrics.Snapshot() == MergeKeys(old(fontMetrics.Snapshot()), pageData.metrics, pageData.metrics.order)
  {
    var page := pageData.metrics;
    RecordAllWellFormed(EmptyTable, PageSpans(pageData.blocks));
    ghost var t0 := fontMetrics.Snapshot();
    for i := 0 to |page.order|
      invariant fontMetrics.Valid()
      invariant fontMetrics.Snapshot() == MergeKeys(t0, page, page.order[..i])
    {
      var fontName := page.order[i];
      assert page.order[..i + 1][..i] == page.order[..i];
      assert MergeKeys(t0, page, page.order[..i + 1]) == AddTo(MergeKeys(t0, page, page.order[..i]), fontName, page.entries[fontName]);
      PageEntryConsistent(blocks, pageData, fontName);
      fontMetrics.Add(fontName, page.entries[fontName]);
    }
    assert page.order[..|page.order|] == page.order;
  }

  /** Every entry of a page's table is consistent: one size per counted
      span, and at least one character per span. */
  lemma {:induction false} PageEntryConsistent(blocks: seq<RawBlock>, pageData: PageData, k: string)
    requires pageData.blocks == PageBlocks(blocks)
    requires pageData.metrics == RecordAll(EmptyTable, PageSpans(pageData.blocks))
    ensures Consistent(Lookup(pageData.metrics, k))
  {
    var spans := PageSpans(pageData.blocks);
    RecordAllLookup(EmptyTable, spans, k);
    PlusNone(MetricOf(spans, k));
    PageSpansNonEmpty(blocks);
    MetricOfConsistent(spans, k);
  }

  /** The summary loop (lines 66-76): every document entry gets the avg,
      max and min of its sizes. */
  method Summarize(pagesData: seq<PageData>, fontMetrics: FontMetrics, totalChars: nat) returns (layout: Layout)
    requires forall i :: 0 <= i < |pagesData| ==> pagesData[i].metrics == RecordAll(EmptyTable, PageSpans(pagesData[i].blocks))
    requires fontMetrics.Snapshot() == MergePages(pagesData)
    ensures layout.pages == pagesData && layout.totalPages == |pagesData| && layout.totalCharacters == totalChars
    ensures layout.fontOrder == fontMetrics.order
    ensures forall k :: k in layout.fonts <==> k in layout.fontOrder
    ensures forall k :: k in layout.fonts <==> UsesFont(DocSpans(pagesData), k)
    ensures forall k | k in layout.fonts ::
      && layout.fonts[k].metric == MetricOf(DocSpans(pagesData), k)
      && layout.fonts[k].summary == SummaryOf(layout.fonts[k].metric.sizes)
      && layout.fonts[k].summary.minSize <= layout.fonts[k].summary.avgSize <= layout.fonts[k].summary.maxSize
  {
    MergePagesWellFormed(pagesData);
    var fonts: map<string, FontEntry> := map[];
    var order := fontMetrics.order;
    for i := 0 to |order|
      invariant forall k :: k in fonts <==> k in order[..i]
      invariant forall k | k in fonts ::
        && fonts[k].metric == MetricOf(DocSpans(pagesData), k)
        && fonts[k].summary == SummaryOf(fonts[k].metric.sizes)
        && fonts[k].summary.minSize <= fonts[k].summary.avgSize <= fonts[k].summary.maxSize
    {
      var fontName := order[i];
      var entry := fontMetrics.entries[fontName];
      MergePagesLookup(pagesData, fontName);
      SummaryOrdered(entry.sizes);
      var summary := SummaryOf(entry.sizes);
      assert entry == Lookup(MergePages(pagesData), fontName);
      fonts := fonts[fontName := FontEntry(entry, summary)];
      TakeStep(order, i);
    }
    assert order[..|order|] == order;
    forall k ensures k in fonts <==> UsesFont(DocSpans(pagesData), k) {
      MergePagesKeys(pagesData, k);
    }
    layout := Layout(pagesData, order, fonts, |pagesData|, totalChars);
  }
}
