/**
  The richer engine, `HeadingClassifier` (python-parser/src/heading_classifier.py),
  working on the page records of `PDFParser`: thresholds clamped above the
  median body size, a filter on the share of word characters, pattern +
  size + bold scoring, a forward promotion pass over the outline, the
  tie-aware title search and the stand-alone `classify_heading`.
*/
module HeadingClassifier {
  import opened Text
  import opened Sorting
  import opened Outline
  import opened PdfParser

  // ==================================================================== thresholds

  function Max(a: real, b: real): real { if a >= b then a else b }

  /** Thresholds for a collection of sizes: the entries at the 5%, 15% and
      30% positions of the descending sort and its median, the first three
      raised to at least median + 4, + 2 and + 1. */
  function ThresholdsRich(all: seq<real>): Thresholds {
    if all == [] then DefaultThresholds
    else
      var sorted := SortDescending(all);
      var n := |sorted|;
      PercentileIndices(n);
      var body := sorted[n / 2];
      Thresholds(Max(sorted[n * 5 / 100], body + 4.0), Max(sorted[n * 15 / 100], body + 2.0),
        Max(sorted[n * 30 / 100], body + 1.0), body)
  }

  /** No sizes give the defaults.  Otherwise each heading threshold clears
      the body size by its margin, the thresholds are strictly above the
      body size and ordered, the body size is an observed size, and each
      heading threshold is an observed size or the body size plus its margin. */
  lemma {:induction false} ThresholdsRichBounds(all: seq<real>)
    ensures var t := ThresholdsRich(all);
      && (all == [] ==> t == DefaultThresholds)
      && (all != [] ==>
        && t.h1 >= t.body + 4.0 && t.h2 >= t.body + 2.0 && t.h3 >= t.body + 1.0
        && t.h1 >= t.h2 >= t.h3 > t.body
        && t.body in all
        && (t.h1 in all || t.h1 == t.body + 4.0)
        && (t.h2 in all || t.h2 == t.body + 2.0)
        && (t.h3 in all || t.h3 == t.body + 1.0))
  {
    if all != [] {
      var sorted := SortDescending(all);
      var n := |sorted|;
      PercentileIndices(n);
      assert sorted[n * 5 / 100] >= sorted[n * 15 / 100] >= sorted[n * 30 / 100];
      SortedMember(all, sorted, n * 5 / 100);
      SortedMember(all, sorted, n * 15 / 100);
      SortedMember(all, sorted, n * 30 / 100);
      SortedMember(all, sorted, n / 2);
    }
  }

  /** The thresholds depend only on which sizes occur how often, not on the
      order in which the font table lists them. */
  lemma {:induction false} ThresholdsRichPermutation(a: seq<real>, b: seq<real>)
    requires multiset(a) == multiset(b)
    ensures ThresholdsRich(a) == ThresholdsRich(b)
  {
    SortPermutationInvariant(a, b);
    assert |a| == |multiset(a)| == |multiset(b)| == |b|;
  }

  /** The sizes of every entry of a font table, entry after entry. */
  function AllSizes(order: seq<string>, fonts: map<string, FontEntry>): seq<real>
    requires forall k | k in order :: k in fonts
  {
    if order == [] then []
    else AllSizes(order[..|order| - 1], fonts) + fonts[order[|order| - 1]].metric.sizes
  }

  /** `_calculate_font_thresholds` (lines 118-151): collect the sizes of
      every table entry in order, then sort and pick. */
  method CalculateFontThresholds(order: seq<string>, fonts: map<string, FontEntry>) returns (t: Thresholds)
    requires forall k | k in order :: k in fonts
    ensures t == ThresholdsRich(AllSizes(order, fonts))
  {
    var allSizes: seq<real> := [];
    for i := 0 to |order|
      invariant allSizes == AllSizes(order[..i], fonts)
    {
      assert order[..i + 1][..i] == order[..i];
      allSizes := allSizes + fonts[order[i]].metric.sizes;
    }
    assert order[..|order|] == order;
    if allSizes == [] {
      return Thresholds(16.0, 14.0, 12.0, 10.0);
    }
    var sorted := SortDescending(allSizes);
    var n := |sorted|;
    PercentileIndices(n);
    var h1 := sorted[n * 5 / 100];
    var h2 := sorted[n * 15 / 100];
    var h3 := sorted[n * 30 / 100];
    var body := sorted[n / 2];
    t := Thresholds(Max(h1, body + 4.0), Max(h2, body + 2.0), Max(h3, body + 1.0), body);
  }

  // ==================================================================== candidate filter

  /** A final '.', '!' or '?'. */
  predicate EndsSentence(text: string) {
    EndsWithChar(text, '.') || EndsWithChar(text, '!') || EndsWithChar(text, '?')
  }

  /** `_is_potential_heading` (lines 184-197). */
  predicate IsPotentialHeading(text: string) {
    if |text| < 3 || |text| > 200 then false
    else if 10 * |WordAndSpaceChars(text)| < 7 * |text| then false
    else if EndsSentence(text) && |SplitOn(text, '.')| > 1 then false
    else true
  }

  /** The filter accepts exactly the texts of 3 to 200 characters, at least
      70% of them word or whitespace characters, that do not end in '.',
      and that end in '!' or '?' only when no '.' occurs in them. */
  lemma {:induction false} IsPotentialHeadingExactly(text: string)
    ensures IsPotentialHeading(text) <==>
      && 3 <= |text| <= 200
      && 10 * |WordAndSpaceChars(text)| >= 7 * |text|
      && !EndsWithChar(text, '.')
      && ((EndsWithChar(text, '!') || EndsWithChar(text, '?')) ==> '.' !in text)
  {
    SplitOnCount(text, '.');
    if EndsWithChar(text, '.') {
      assert text[|text| - 1] in text;
    }
  }

  // ==================================================================== pattern score

  const SectionWords: seq<string> := [
    "introduction", "conclusion", "summary", "overview", "background",
    "methodology", "results", "discussion", "references"]

  const FrontMatterWords: seq<string> := ["abstract", "acknowledgments", "appendix", "bibliography", "glossary"]

  /** `^[A-Z\s]{3,}$` under IGNORECASE: three or more letters and spaces. */
  predicate LettersAndSpaces(s: string) {
    |s| >= 3 && forall i :: 0 <= i < |s| ==> IsLetter(s[i]) || IsSpace(s[i])
  }

  /** Any of the seven compiled `heading_patterns` (lines 19-32), all under
      IGNORECASE, matches at the start of `s`. */
  predicate StrongPattern(s: string) {
    || ChapterHeading(s)
    || NumberedHeading(s, 1)
    || NumberedHeading(s, 2)
    || NumberedHeading(s, 3)
    || StartsWithAny(Lower(s), SectionWords)
    || StartsWithAny(Lower(s), FrontMatterWords)
    || LettersAndSpaces(s)
  }

  /** What `\.?\s+\w+` leaves to match after a number: an optional '.',
      whitespace, then a word character. */
  predicate DotSpacesWord(s: string) {
    var r := if s != [] && s[0] == '.' then s[1..] else s;
    var k := LeadingSpaces(r);
    0 < k < |r| && IsWordChar(r[k])
  }

  /** `re.match(r'^\d+\.?\s+\w+', s)` */
  predicate NumberedWord(s: string) {
    var k := DigitRun(s);
    k > 0 && DotSpacesWord(s[k..])
  }

  /** `_get_pattern_score` (lines 245-255): 2 for a strong pattern, 1 for a
      numbered section, 0 otherwise, on the stripped text. */
  function PatternScore(text: string): nat {
    var s := Strip(text);
    if StrongPattern(s) then 2 else if NumberedWord(s) then 1 else 0
  }

  /** The score is 0, 1 or 2, and 2 exactly on a strong pattern; every text
      of three or more characters, all letters or whitespace, scores 2. */
  lemma {:induction false} PatternScoreRange(text: string)
    ensures PatternScore(text) <= 2
    ensures PatternScore(text) == 2 <==> StrongPattern(Strip(text))
    ensures LettersAndSpaces(Strip(text)) ==> PatternScore(text) == 2
  {
  }

  /** Because the strong numbered pattern ignores case, the weak pattern
      scores 1 only when the number is followed, after the optional dot and
      the whitespace, by a digit or an underscore. */
  lemma {:induction false} WeakPatternOnlyDigitOrUnderscore(text: string)
    requires PatternScore(text) == 1
    ensures var s := Strip(text);
      var r := s[DigitRun(s)..];
      var r' := if r != [] && r[0] == '.' then r[1..] else r;
      var k := LeadingSpaces(r');
      0 < k < |r'| && (IsDigit(r'[k]) || r'[k] == '_')
  {
    var s := Strip(text);
    var d := DigitRun(s);
    var r := s[d..];
    var r' := if r != [] && r[0] == '.' then r[1..] else r;
    NumberThenLetter(s);
  }

  lemma {:induction false} NumberThenLetter(s: string)
    ensures var d := DigitRun(s);
      var r := s[d..];
      var r' := if r != [] && r[0] == '.' then r[1..] else r;
      var k := LeadingSpaces(r');
      d > 0 && 0 < k < |r'| && IsLetter(r'[k]) ==> NumberedHeading(s, 1)
  {
  }

  // ==================================================================== classification

  /** The decision of `_classify_text_as_heading` (lines 236-243) from its
      three scores: a pattern score of 2 or a total of 4 is H1; a total of 3,
      or a size score of 2 with some pattern or boldness, is H2; a total of 2,
      or a size score of 1 with some pattern or boldness, is H3. */
  function LevelFromScores(patternScore: nat, sizeScore: nat, boldScore: nat): Option<Level> {
    var totalScore := patternScore + sizeScore + boldScore;
    if totalScore >= 4 || patternScore >= 2 then Some(H1)
    else if totalScore >= 3 || (sizeScore >= 2 && (patternScore >= 1 || boldScore >= 1)) then Some(H2)
    else if totalScore >= 2 || (sizeScore >= 1 && (patternScore >= 1 || boldScore >= 1)) then Some(H3)
    else None
  }

  /** `_classify_text_as_heading` (lines 213-243). */
  function ClassifyTextAsHeading(text: string, fontSize: real, isBold: bool, t: Thresholds): Option<Level> {
    LevelFromScores(PatternScore(text), SizeScore(fontSize, t), if isBold then 1 else 0)
  }

  /** A higher size score never gives a weaker level. */
  lemma {:induction false} LevelFromScoresMonotone(patternScore: nat, small: nat, large: nat, boldScore: nat)
    requires small <= large
    ensures Rank(LevelFromScores(patternScore, small, boldScore)) <= Rank(LevelFromScores(patternScore, large, boldScore))
  {
  }

  /** A strong pattern alone makes an H1; otherwise the level is that of
      the total score (4 or more H1, 3 H2, 2 H3, less no heading), so the
      extra conditions of the H2 and H3 tests never decide anything. */
  lemma {:induction false} ClassifyTextAsHeadingLevels(text: string, fontSize: real, isBold: bool, t: Thresholds)
    ensures var p := PatternScore(text);
      var total := p + SizeScore(fontSize, t) + (if isBold then 1 else 0);
      && (p >= 2 ==> ClassifyTextAsHeading(text, fontSize, isBold, t) == Some(H1))
      && (p < 2 ==> ClassifyTextAsHeading(text, fontSize, isBold, t) == LevelForTotal(total))
  {
    PatternScoreRange(text);
  }

  /** A larger font never gives a weaker level. */
  lemma {:induction false} ClassifyTextAsHeadingMonotone(text: string, small: real, large: real, isBold: bool, t: Thresholds)
    requires small <= large
    ensures Rank(ClassifyTextAsHeading(text, small, isBold, t)) <= Rank(ClassifyTextAsHeading(text, large, isBold, t))
  {
    SizeScoreMonotone(small, large, t);
    LevelFromScoresMonotone(PatternScore(text), SizeScore(small, t), SizeScore(large, t), if isBold then 1 else 0);
  }

  /** The largest span size of a block, starting from 0. */
  function MaxSize(spans: seq<SpanData>): (m: real)
    ensures m >= 0.0
    ensures forall i :: 0 <= i < |spans| ==> spans[i].size <= m
    ensures m == 0.0 || exists i :: 0 <= i < |spans| && spans[i].size == m
  {
    if spans == [] then 0.0
    else
      var rest := MaxSize(spans[..|spans| - 1]);
      var last := spans[|spans| - 1].size;
      assert forall i :: 0 <= i < |spans| - 1 ==> spans[i] == spans[..|spans| - 1][i];
      if last > rest then last else rest
  }

  /** `_get_max_font_size` (lines 199-204): a running maximum from 0. */
  method GetMaxFontSize(block: BlockData) returns (maxSize: real)
    ensures maxSize == MaxSize(block.spans)
  {
    maxSize := 0.0;
    for i := 0 to |block.spans|
      invariant maxSize == MaxSize(block.spans[..i])
    {
      assert block.spans[..i + 1][..i] == block.spans[..i];
      maxSize := Max(maxSize, block.spans[i].size);
    }
    assert block.spans[..|block.spans|] == block.spans;
  }

  /** Some span of the block is bold. */
  predicate AnyBold(spans: seq<SpanData>) {
    exists i :: 0 <= i < |spans| && spans[i].isBold
  }

  /** `_has_bold_text` (lines 206-211): stops at the first bold span. */
  method HasBoldText(block: BlockData) returns (r: bool)
    ensures r <==> AnyBold(block.spans)
  {
    for i := 0 to |block.spans|
      invariant forall j :: 0 <= j < i ==> !block.spans[j].isBold
    {
      if block.spans[i].isBold {
        return true;
      }
    }
    return false;
  }

  // ==================================================================== classify_headings

  /** The outline entry one block contributes, if any. */
  function BlockHeading(block: BlockData, pageNumber: int, t: Thresholds): Option<Heading> {
    var text := Strip(block.text);
    if !IsPotentialHeading(text) then None
    else
      match ClassifyTextAsHeading(text, MaxSize(block.spans), AnyBold(block.spans), t)
      case None => None
      case Some(l) => Some(Heading(l, text, pageNumber))
  }

  function BlockResults(blocks: seq<BlockData>, pageNumber: int, t: Thresholds): seq<Option<Heading>> {
    seq(|blocks|, i requires 0 <= i < |blocks| => BlockHeading(blocks[i], pageNumber, t))
  }

  /** The entries one page contributes, in block order. */
  function PageHeadings(page: PageData, t: Thresholds): seq<Heading> {
    Somes(BlockResults(page.blocks, page.pageNumber, t))
  }

  /** The entries before refinement: page after page, block after block. */
  function Candidates(pages: seq<PageData>, t: Thresholds): seq<Heading> {
    if pages == [] then []
    else Candidates(pages[..|pages| - 1], t) + PageHeadings(pages[|pages| - 1], t)
  }

  /** `_classify_page_headings` (lines 153-182). */
  method ClassifyPageHeadings(page: PageData, t: Thresholds) returns (headings: seq<Heading>)
    ensures headings == PageHeadings(page, t)
  {
    headings := [];
    var pageNum := page.pageNumber;
    ghost var results := BlockResults(page.blocks, pageNum, t);
    for b := 0 to |page.blocks|
      invariant headings == Somes(results[..b])
    {
      SomesStep(results, b);
      var block := page.blocks[b];
      assert results[b] == BlockHeading(block, pageNum, t);
      var text := Strip(block.text);
      if !IsPotentialHeading(text) {
        continue;
      }
      var maxSize := GetMaxFontSize(block);
      var hasBold := HasBoldText(block);
      var headingType := ClassifyTextAsHeading(text, maxSize, hasBold, t);
      if headingType.Some? {
        headings := headings + [Heading(headingType.value, text, pageNum)];
      }
    }
    assert results[..|page.blocks|] == results;
  }

  /** `classify_headings` (lines 41-70): thresholds from the font table,
      the candidates of every page, then the promotion pass. */
  method ClassifyHeadings(pages: seq<PageData>, order: seq<string>, fonts: map<string, FontEntry>)
    returns (headings: seq<Heading>)
    requires forall k | k in order :: k in fonts
    ensures headings == Refined(Candidates(pages, ThresholdsRich(AllSizes(order, fonts))))
  {
    var sizeThresholds := CalculateFontThresholds(order, fonts);
    var collected: seq<Heading> := [];
    for p := 0 to |pages|
      invariant collected == Candidates(pages[..p], sizeThresholds)
    {
      assert pages[..p + 1][..p] == pages[..p];
      var pageHeadings := ClassifyPageHeadings(pages[p], sizeThresholds);
      collected := collected + pageHeadings;
    }
    assert pages[..|pages|] == pages;
    var arr := new Heading[|collected|](i requires 0 <= i < |collected| => collected[i]);
    assert arr[..] == collected;
    RefineHeadingHierarchy(arr);
    headings := arr[..];
  }

  lemma {:induction false} PageHeadingsSound(page: PageData, t: Thresholds)
    ensures forall h | h in PageHeadings(page, t) ::
      IsPotentialHeading(h.text) && h.text == Strip(h.text) && h.page == page.pageNumber
  {
    forall h | h in PageHeadings(page, t)
      ensures IsPotentialHeading(h.text) && h.text == Strip(h.text) && h.page == page.pageNumber
    {
      var results := BlockResults(page.blocks, page.pageNumber, t);
      SomesMember(results, h);
      var i :| 0 <= i < |results| && results[i] == Some(h);
      assert BlockHeading(page.blocks[i], page.pageNumber, t) == Some(h);
      StripIdempotent(page.blocks[i].text);
    }
  }

  /** Every candidate is a stripped text that passed the filter, on one of
      the pages. */
  lemma {:induction false} CandidatesSound(pages: seq<PageData>, t: Thresholds)
    ensures forall h | h in Candidates(pages, t) ::
      IsPotentialHeading(h.text) && h.text == Strip(h.text) && exists p | p in pages :: h.page == p.pageNumber
  {
    if pages != [] {
      var init := pages[..|pages| - 1];
      var last := pages[|pages| - 1];
      CandidatesSound(init, t);
      PageHeadingsSound(last, t);
      forall h | h in Candidates(pages, t)
        ensures IsPotentialHeading(h.text) && h.text == Strip(h.text) && exists p | p in pages :: h.page == p.pageNumber
      {
        if h in Candidates(init, t) {
          var p :| p in init && h.page == p.pageNumber;
          assert p in pages;
        } else {
          assert last in pages;
        }
      }
    }
  }

  lemma {:induction false} CandidatesPagesAtMost(pages: seq<PageData>, t: Thresholds, q: int)
    requires forall i :: 0 <= i < |pages| ==> pages[i].pageNumber <= q
    ensures forall h | h in Candidates(pages, t) :: h.page <= q
  {
    if pages != [] {
      var init := pages[..|pages| - 1];
      assert forall i :: 0 <= i < |init| ==> init[i] == pages[i];
      CandidatesPagesAtMost(init, t, q);
      PageHeadingsSound(pages[|pages| - 1], t);
    }
  }

  /** With pages numbered in increasing order, candidates come in page
      order. */
  lemma {:induction false} CandidatesPageOrder(pages: seq<PageData>, t: Thresholds)
    requires forall i, j :: 0 <= i < j < |pages| ==> pages[i].pageNumber < pages[j].pageNumber
    ensures PagesNonDecreasing(Candidates(pages, t))
  {
    if pages != [] {
      var init := pages[..|pages| - 1];
      var last := pages[|pages| - 1];
      assert forall i :: 0 <= i < |init| ==> init[i] == pages[i];
      CandidatesPageOrder(init, t);
      CandidatesPagesAtMost(init, t, last.pageNumber);
      PageHeadingsSound(last, t);
      PagesNonDecreasingConcat(Candidates(init, t), PageHeadings(last, t), last.pageNumber);
    }
  }

  // ==================================================================== _refine_heading_hierarchy

  /** The level one entry ends with, given the entries already refined
      before it: an H2 with no H1 before it becomes H1, then an H3 with no
      H1 or H2 before it becomes H2. */
  function Promote(before: seq<Heading>, h: Heading): Heading {
    var l1 := if h.level == H2 && !HasLevel(before, H1) then H1 else h.level;
    var l2 := if l1 == H3 && !(HasLevel(before, H1) || HasLevel(before, H2)) then H2 else l1;
    h.(level := l2)
  }

  /** The forward promotion pass on values. */
  function Refined(hs: seq<Heading>): seq<Heading> {
    if hs == [] then []
    else
      var r := Refined(hs[..|hs| - 1]);
      r + [Promote(r, hs[|hs| - 1])]
  }

  /** `_refine_heading_hierarchy` (lines 257-288): each entry's level is
      updated in place, looking at the entries already refined. */
  method RefineHeadingHierarchy(headings: array<Heading>)
    modifies headings
    ensures headings[..] == Refined(old(headings[..]))
  {
    ghost var hs := headings[..];
    for i := 0 to headings.Length
      invariant headings[..i] == Refined(hs[..i])
      invariant forall j :: i <= j < headings.Length ==> headings[j] == hs[j]
    {
      var heading := headings[i];
      var headingType := heading.level;
      if headingType == H2 && !HasLevel(headings[..i], H1) {
        headingType := H1;
      }
      if headingType == H3 && !(HasLevel(headings[..i], H1) || HasLevel(headings[..i], H2)) {
        headingType := H2;
      }
      ghost var done := headings[..i];
      assert hs[..i + 1][..i] == hs[..i];
      headings[i] := heading.(level := headingType);
      assert headings[..i + 1] == done + [headings[i]];
    }
    assert hs[..headings.Length] == hs;
    assert headings[..headings.Length] == headings[..];
  }

  /** A level stays or moves one step up: H2 to H1, H3 to H2. */
  predicate RaisedFrom(before: Level, after: Level) {
    after == before || (before == H2 && after == H1) || (before == H3 && after == H2)
  }

  /** The pass keeps the length, every text and page, and only raises
      levels, one step at most; refining a prefix gives the prefix of the
      refinement. */
  lemma {:induction false} RefinedShape(hs: seq<Heading>)
    ensures |Refined(hs)| == |hs|
    ensures forall i :: 0 <= i < |hs| ==>
      && Refined(hs)[i].text == hs[i].text
      && Refined(hs)[i].page == hs[i].page
      && RaisedFrom(hs[i].level, Refined(hs)[i].level)
      && Refined(hs)[i] == Promote(Refined(hs)[..i], hs[i])
  {
    if hs != [] {
      var init := hs[..|hs| - 1];
      RefinedShape(init);
      var r := Refined(hs);
      var ri := Refined(init);
      assert r == ri + [Promote(ri, hs[|init|])];
      forall i | 0 <= i < |hs|
        ensures r[i].text == hs[i].text && r[i].page == hs[i].page
        ensures RaisedFrom(hs[i].level, r[i].level) && r[i] == Promote(r[..i], hs[i])
      {
        if i < |init| {
          assert r[i] == ri[i] && hs[i] == init[i];
          assert r[..i] == ri[..i];
        } else {
          assert r[..i] == ri;
        }
      }
    }
  }

  /** The first entry of the result is never an H3. */
  lemma {:induction false} RefinedFirstNotH3(hs: seq<Heading>)
    requires hs != []
    ensures Refined(hs)[0].level != H3
  {
    RefinedShape(hs);
    assert Refined(hs)[..0] == [];
  }

  /** Every H3 of the result has an H1 or an H2 before it in the result, and
      every H2 of the input with no H1 before it in the result became H1. */
  lemma {:induction false} RefinedOrder(hs: seq<Heading>)
    ensures |Refined(hs)| == |hs|
    ensures forall i :: 0 <= i < |Refined(hs)| && Refined(hs)[i].level == H3 ==>
      HasLevel(Refined(hs)[..i], H1) || HasLevel(Refined(hs)[..i], H2)
    ensures forall i :: 0 <= i < |hs| && hs[i].level == H2 && !HasLevel(Refined(hs)[..i], H1) ==>
      Refined(hs)[i].level == H1
  {
    RefinedShape(hs);
  }

  /** The pass is not idempotent: a lone H3 becomes an H2 with no H1 before
      it, and a second pass would turn that H2 into an H1. */
  lemma {:induction false} RefinedNotIdempotent()
    ensures var hs := [Heading(H3, "Scope", 1)];
      && Refined(hs) == [Heading(H2, "Scope", 1)]
      && Refined(Refined(hs)) == [Heading(H1, "Scope", 1)]
  {
    var hs := [Heading(H3, "Scope", 1)];
    assert hs[..0] == [];
    assert !HasLevel([], H1) && !HasLevel([], H2);
    assert [Heading(H2, "Scope", 1)][..0] == [];
  }

  /** The outline `classify_headings` returns for pages numbered in
      increasing order: page numbers never go down, and every entry is a
      stripped text that passed the filter, on one of the pages. */
  lemma {:induction false} OutlineShape(pages: seq<PageData>, t: Thresholds)
    requires forall i, j :: 0 <= i < j < |pages| ==> pages[i].pageNumber < pages[j].pageNumber
    ensures PagesNonDecreasing(Refined(Candidates(pages, t)))
    ensures forall h | h in Refined(Candidates(pages, t)) ::
      IsPotentialHeading(h.text) && h.text == Strip(h.text) && exists p | p in pages :: h.page == p.pageNumber
  {
    var c := Candidates(pages, t);
    CandidatesPageOrder(pages, t);
    CandidatesSound(pages, t);
    RefinedShape(c);
    var r := Refined(c);
    forall h | h in r
      ensures IsPotentialHeading(h.text) && h.text == Strip(h.text) && exists p | p in pages :: h.page == p.pageNumber
    {
      var i :| 0 <= i < |r| && r[i] == h;
      assert c[i] in c;
    }
  }

  // ==================================================================== extract_title

  const FooterWords: seq<string> := ["page", "copyright", "confidential", "draft", "proprietary"]

  /** `re.match(r'^\d+$', s)` */
  predicate AllDigits(s: string) {
    s != [] && forall i :: 0 <= i < |s| ==> IsDigit(s[i])
  }

  /** `_is_likely_header_footer` (lines 290-298). */
  predicate IsLikelyHeaderFooter(text: string) {
    AllDigits(Strip(text)) || ContainsAny(Lower(text), FooterWords)
  }

  /** Header/footer text is exactly a page-number-only text or one holding
      page, copyright, confidential, draft or proprietary in any case. */
  lemma {:induction false} IsLikelyHeaderFooterExactly(text: string)
    ensures IsLikelyHeaderFooter(text) <==>
      AllDigits(Strip(text)) || exists i :: 0 <= i < |FooterWords| && Contains(Lower(text), FooterWords[i])
  {
    ContainsAnyMember(Lower(text), FooterWords);
  }

  /** A span as the title search sees it: its stripped text, its size, and
      whether the text passes the length and header/footer tests. */
  datatype TitleEntry = TitleEntry(text: string, size: real, ok: bool)

  function EntryOf(sp: SpanData): TitleEntry {
    var text := Strip(sp.text);
    TitleEntry(text, sp.size, 5 <= |text| <= 100 && !IsLikelyHeaderFooter(text))
  }

  function Entries(spans: seq<SpanData>): seq<TitleEntry> {
    seq(|spans|, i requires 0 <= i < |spans| => EntryOf(spans[i]))
  }

  /** The largest size of a passing entry, or 0 when none is larger. */
  function TopSize(es: seq<TitleEntry>): real {
    if es == [] then 0.0
    else
      var m := TopSize(es[..|es| - 1]);
      var e := es[|es| - 1];
      if e.ok && e.size > m then e.size else m
  }

  /** The texts of the passing entries of size `m`, in order. */
  function AtSize(es: seq<TitleEntry>, m: real): seq<string> {
    if es == [] then []
    else
      var e := es[|es| - 1];
      AtSize(es[..|es| - 1], m) + (if e.ok && e.size == m then [e.text] else [])
  }

  lemma {:induction false} TopSizeBounds(es: seq<TitleEntry>)
    ensures TopSize(es) >= 0.0
    ensures forall i :: 0 <= i < |es| && es[i].ok ==> es[i].size <= TopSize(es)
    ensures TopSize(es) == 0.0 || exists i :: 0 <= i < |es| && es[i].ok && es[i].size == TopSize(es)
  {
    if es != [] {
      var init := es[..|es| - 1];
      TopSizeBounds(init);
      assert forall i :: 0 <= i < |init| ==> es[i] == init[i];
    }
  }

  lemma {:induction false} AtSizeAbove(es: seq<TitleEntry>, m: real)
    requires forall i :: 0 <= i < |es| && es[i].ok ==> es[i].size < m
    ensures AtSize(es, m) == []
  {
    if es != [] {
      var init := es[..|es| - 1];
      assert forall i :: 0 <= i < |init| ==> es[i] == init[i];
      AtSizeAbove(init, m);
    }
  }

  /** The candidate list the search keeps: the texts of the passing spans
      whose size is the largest passing size (and at least 0). */
  function TitleCandidates(spans: seq<SpanData>): seq<string> {
    var es := Entries(spans);
    AtSize(es, TopSize(es))
  }

  /** `len(candidate.split()) >= 2` */
  predicate MultiWord(text: string) {
    |Words(text)| >= 2
  }

  /** The position of the first candidate of two or more words, or the
      number of candidates when there is none. */
  function FirstMultiWord(cands: seq<string>): (i: nat)
    ensures i <= |cands|
    ensures forall j :: 0 <= j < i ==> !MultiWord(cands[j])
    ensures i < |cands| ==> MultiWord(cands[i])
  {
    if cands == [] then 0
    else if MultiWord(cands[0]) then 0
    else 1 + FirstMultiWord(cands[1..])
  }

  /** The first candidate of two or more words, else the first candidate. */
  function PickTitle(cands: seq<string>): (t: string)
    requires cands != []
    ensures t in cands
  {
    var i := FirstMultiWord(cands);
    if i < |cands| then cands[i] else cands[0]
  }

  /** What `extract_title` returns. */
  function Title(pages: seq<PageData>, filename: string): string {
    if pages == [] then CleanFilename(filename)
    else
      var cands := TitleCandidates(PageSpans(pages[0].blocks));
      if cands != [] then PickTitle(cands) else CleanFilename(filename)
  }

  /** One more span for the search: how the largest size and the kept
      candidates move. */
  lemma {:induction false} ScanStep(es: seq<TitleEntry>, e: TitleEntry)
    ensures var m := TopSize(es);
      && TopSize(es + [e]) == (if e.ok && e.size > m then e.size else m)
      && AtSize(es + [e], TopSize(es + [e])) ==
        if e.ok && e.size > m then [e.text]
        else if e.ok && e.size == m then AtSize(es, m) + [e.text]
        else AtSize(es, m)
  {
    assert (es + [e])[..|es|] == es;
    var m := TopSize(es);
    if e.ok && e.size > m {
      TopSizeBounds(es);
      AtSizeAbove(es, e.size);
    }
  }

  lemma {:induction false} EntriesSnoc(spans: seq<SpanData>, sp: SpanData)
    ensures Entries(spans + [sp]) == Entries(spans) + [EntryOf(sp)]
  {
  }

  /** The search over one block's spans (lines 94-109): a span that passes
      the tests at or above the current largest size either starts a new
      candidate list or joins the current one. */
  method ScanSpans(spans: seq<SpanData>, ghost seen0: seq<SpanData>, largest0: real, cands0: seq<string>)
    returns (largestSize: real, titleCandidates: seq<string>)
    requires largest0 == TopSize(Entries(seen0)) && cands0 == AtSize(Entries(seen0), largest0)
    ensures largestSize == TopSize(Entries(seen0 + spans))
    ensures titleCandidates == AtSize(Entries(seen0 + spans), largestSize)
  {
    largestSize, titleCandidates := largest0, cands0;
    ghost var seen := seen0;
    for s := 0 to |spans|
      invariant seen == seen0 + spans[..s]
      invariant largestSize == TopSize(Entries(seen))
      invariant titleCandidates == AtSize(Entries(seen), largestSize)
    {
      var span := spans[s];
      var text := Strip(span.text);
      var size := span.size;
      ScanStep(Entries(seen), EntryOf(span));
      EntriesSnoc(seen, span);
      PrefixStep(seen0, spans, s);
      seen := seen + [span];
      if 5 <= |text| <= 100 && size >= largestSize && !IsLikelyHeaderFooter(text) {
        if size > largestSize {
          largestSize := size;
          titleCandidates := [text];
        } else if size == largestSize {
          titleCandidates := titleCandidates + [text];
        }
      }
    }
    assert spans[..|spans|] == spans;
  }

  /** `extract_title` (lines 72-116). */
  method ExtractTitle(pages: seq<PageData>, filename: string) returns (title: string)
    ensures title == Title(pages, filename)
  {
    if pages == [] {
      return CleanFilename(filename);
    }
    var firstPage := pages[0];
    var largestSize := 0.0;
    var titleCandidates: seq<string> := [];
    for b := 0 to |firstPage.blocks|
      invariant largestSize == TopSize(Entries(PageSpans(firstPage.blocks[..b])))
      invariant titleCandidates == AtSize(Entries(PageSpans(firstPage.blocks[..b])), largestSize)
    {
      assert firstPage.blocks[..b + 1][..b] == firstPage.blocks[..b];
      largestSize, titleCandidates := ScanSpans(firstPage.blocks[b].spans, PageSpans(firstPage.blocks[..b]), largestSize, titleCandidates);
    }
    assert firstPage.blocks[..|firstPage.blocks|] == firstPage.blocks;
    if titleCandidates != [] {
      title := ChooseTitle(titleCandidates);
      return;
    }
    return CleanFilename(filename);
  }

  /** Lines 108-113: the first candidate of two or more words, else the
      first candidate. */
  method ChooseTitle(titleCandidates: seq<string>) returns (title: string)
    requires titleCandidates != []
    ensures title == PickTitle(titleCandidates)
  {
    for i := 0 to |titleCandidates|
      invariant forall j :: 0 <= j < i ==> !MultiWord(titleCandidates[j])
    {
      if |Words(titleCandidates[i])| >= 2 {
        assert FirstMultiWord(titleCandidates) == i;
        return titleCandidates[i];
      }
    }
    return titleCandidates[0];
  }

  /** Entry `i` passes the tests and no passing entry is larger; its size
      is at least 0, where the search starts. */
  predicate TopEntry(es: seq<TitleEntry>, i: int) {
    && 0 <= i < |es| && es[i].ok && es[i].size >= 0.0
    && forall j :: 0 <= j < |es| && es[j].ok ==> es[j].size <= es[i].size
  }

  /** With no pages, or no first-page span that passes the tests, the title
      is the file-name fallback. */
  lemma {:induction false} TitleFallback(pages: seq<PageData>, filename: string)
    requires pages == [] || TitleCandidates(PageSpans(pages[0].blocks)) == []
    ensures Title(pages, filename) == CleanFilename(filename)
  {
  }

  /** Otherwise the title is the stripped text of a passing first-page span
      that no other passing span is larger than. */
  lemma {:induction false} TitleFromFirstPage(pages: seq<PageData>, filename: string)
    requires pages != [] && TitleCandidates(PageSpans(pages[0].blocks)) != []
    ensures var es := Entries(PageSpans(pages[0].blocks));
      exists i :: TopEntry(es, i) && es[i].text == Title(pages, filename)
  {
    var es := Entries(PageSpans(pages[0].blocks));
    var m := TopSize(es);
    var cands := AtSize(es, m);
    var t := PickTitle(cands);
    assert Title(pages, filename) == t;
    TopSizeBounds(es);
    AtSizeMember(es, m, t);
    var i :| 0 <= i < |es| && es[i].ok && es[i].size == m && es[i].text == t;
    assert TopEntry(es, i);
  }

  lemma {:induction false} AtSizeMember(es: seq<TitleEntry>, m: real, x: string)
    requires x in AtSize(es, m)
    ensures exists i :: 0 <= i < |es| && es[i].ok && es[i].size == m && es[i].text == x
  {
    var init := es[..|es| - 1];
    if x in AtSize(init, m) {
      AtSizeMember(init, m, x);
      var i :| 0 <= i < |init| && init[i].ok && init[i].size == m && init[i].text == x;
      assert es[i] == init[i];
    }
  }

  // ==================================================================== _clean_filename

  /** `_clean_filename` of this engine (lines 300-314): no collapsing of
      runs and no fallback for a name that cleans to nothing. */
  function CleanFilename(filename: string): string {
    if filename == "" then Untitled
    else Join(CapitalizeAll(Words(SeparatorsToSpaces(BeforeLastDot(filename)))), " ")
  }

  /** The fallback holds no '_' or '-' and no leading, trailing or doubled
      whitespace, and an empty name gives "Untitled Document". */
  lemma {:induction false} CleanFilenameShape(filename: string)
    ensures var r := CleanFilename(filename);
      && NoSeparator(r) && SingleSpaced(r)
      && (filename == "" ==> r == Untitled)
  {
    UntitledShape();
    if filename != "" {
      var base := SeparatorsToSpaces(BeforeLastDot(filename));
      assert NoSeparator(base);
      JoinedWordsShape(base);
    }
  }

  /** Unlike the fast engine's, this fallback can be empty: a bare
      extension such as ".pdf" cleans to "". */
  lemma {:induction false} CleanFilenameCanBeEmpty()
    ensures CleanFilename(".pdf") == ""
  {
    assert ".pdf"[0] == '.';
    assert BeforeLastDot(".pdf") == "";
    assert Words("") == [];
  }

  // ==================================================================== classify_heading

  /** The module-level `classify_heading` as written (lines 316-338): the
      style test reads bit value 2, which is PyMuPDF's italic flag. */
  function ClassifyHeadingAsWritten(fontSize: real, fontFlags: nat): Option<Level> {
    var isBold := HasFlag(fontFlags, 2);
    if fontSize >= 20.0 then Some(H1)
    else if fontSize >= 16.0 && isBold then Some(H2)
    else if fontSize >= 13.0 then Some(H3)
    else None
  }

  /** `classify_heading` with the bold test reading bit value 16, the bold
      flag `_process_text_block` uses. */
  function ClassifyHeading(fontSize: real, fontFlags: nat): Option<Level> {
    var isBold := HasFlag(fontFlags, 16);
    if fontSize >= 20.0 then Some(H1)
    else if fontSize >= 16.0 && isBold then Some(H2)
    else if fontSize >= 13.0 then Some(H3)
    else None
  }

  /** As written: H1 exactly from size 20; H2 exactly for sizes 16 to 20
      with bit value 2 set; H3 exactly for the remaining sizes from 13;
      nothing below 13. */
  lemma {:induction false} ClassifyHeadingAsWrittenLevels(fontSize: real, fontFlags: nat)
    ensures ClassifyHeadingAsWritten(fontSize, fontFlags) == Some(H1) <==> fontSize >= 20.0
    ensures ClassifyHeadingAsWritten(fontSize, fontFlags) == Some(H2) <==> 16.0 <= fontSize < 20.0 && HasFlag(fontFlags, 2)
    ensures ClassifyHeadingAsWritten(fontSize, fontFlags) == Some(H3) <==>
      13.0 <= fontSize < 20.0 && !(fontSize >= 16.0 && HasFlag(fontFlags, 2))
    ensures ClassifyHeadingAsWritten(fontSize, fontFlags) == None <==> fontSize < 13.0
  {
  }

  /** The discrepancy: a 16pt span that the parser calls bold (flags 16)
      and not italic is only an H3, while a 16pt italic span that is not
      bold (flags 2) is an H2. */
  lemma {:induction false} ClassifyHeadingReadsItalic()
    ensures IsBold("", 16) && !IsItalic("", 16)
    ensures ClassifyHeadingAsWritten(16.0, 16) == Some(H3)
    ensures IsItalic("", 2) && !IsBold("", 2)
    ensures ClassifyHeadingAsWritten(16.0, 2) == Some(H2)
  {
    assert HasFlag(16, 16);
    assert !HasFlag(16, 2) by { assert 16 / 2 == 8; }
    assert HasFlag(2, 2);
  }

  /** Corrected: H2 exactly for sizes 16 to 20 with the bold bit set, so the
      H2 test agrees with the parser's flag half of `IsBold`. */
  lemma {:induction false} ClassifyHeadingLevels(fontSize: real, fontFlags: nat)
    ensures ClassifyHeading(fontSize, fontFlags) == Some(H1) <==> fontSize >= 20.0
    ensures ClassifyHeading(fontSize, fontFlags) == Some(H2) <==> 16.0 <= fontSize < 20.0 && HasFlag(fontFlags, 16)
    ensures ClassifyHeading(fontSize, fontFlags) == Some(H3) <==>
      13.0 <= fontSize < 20.0 && !(fontSize >= 16.0 && HasFlag(fontFlags, 16))
    ensures ClassifyHeading(fontSize, fontFlags) == None <==> fontSize < 13.0
    ensures 16.0 <= fontSize < 20.0 && HasFlag(fontFlags, 16) ==> IsBold("", fontFlags)
  {
  }

  lemma {:induction false} ClassifyHeadingBoldSpan()
    ensures ClassifyHeading(16.0, 16) == Some(H2)
    ensures ClassifyHeading(16.0, 2) == Some(H3)
  {
    assert HasFlag(16, 16);
    assert !HasFlag(2, 16);
  }
}
