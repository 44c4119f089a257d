/** Splitting pages into windows of bounded length that keep their source anchor. */
module Chunking {
  import opened Outcomes
  import opened Sequences
  import opened Text
  import opened Parsing

  datatype Chunk = Chunk(index: nat, page: int, startOffset: nat, text: string)

  datatype Error = MaxCharsNotPositive

  function Window(text: string, start: nat, maxChars: nat): string
    requires start <= |text|
  {
    text[start .. if start + maxChars <= |text| then start + maxChars else |text|]
  }

  /** The non-blank windows of a page from an offset on. */
  function PageChunks(page: Page, start: nat, maxChars: nat, index: nat): (chunks: seq<Chunk>)
    requires maxChars >= 1
    ensures forall i :: 0 <= i < |chunks| ==> chunks[i].index == index + i && chunks[i].page == page.number
    decreases if start < |page.text| then |page.text| - start else 0
  {
    if start >= |page.text| then []
    else
      var piece := Window(page.text, start, maxChars);
      if IsBlank(piece, IsPySpace) then PageChunks(page, start + maxChars, maxChars, index)
      else [Chunk(index, page.number, start, piece)] + PageChunks(page, start + maxChars, maxChars, index + 1)
  }

  function DocumentChunks(pages: seq<Page>, maxChars: nat, index: nat): (chunks: seq<Chunk>)
    requires maxChars >= 1
    ensures forall i :: 0 <= i < |chunks| ==> chunks[i].index == index + i
  {
    if pages == [] then []
    else
      var first := PageChunks(pages[0], 0, maxChars, index);
      first + DocumentChunks(pages[1..], maxChars, index + |first|)
  }

  /** The chunk list as the loops grow it. */
  ghost function WithPage(chunks: seq<Chunk>, page: Page, start: nat, maxChars: nat): seq<Chunk>
    requires maxChars >= 1
    decreases if start < |page.text| then |page.text| - start else 0
  {
    if start >= |page.text| then chunks
    else
      var piece := Window(page.text, start, maxChars);
      WithPage(if IsBlank(piece, IsPySpace) then chunks else chunks + [Chunk(|chunks|, page.number, start, piece)],
               page, start + maxChars, maxChars)
  }

  ghost function WithPages(chunks: seq<Chunk>, pages: seq<Page>, maxChars: nat): seq<Chunk>
    requires maxChars >= 1
  {
    if pages == [] then chunks
    else WithPage(WithPages(chunks, pages[..|pages| - 1], maxChars), pages[|pages| - 1], 0, maxChars)
  }

  lemma AppendAssociates<T>(a: seq<T>, b: seq<T>, c: seq<T>)
    ensures a + (b + c) == a + b + c
    ensures a + [] == a
  {}

  lemma {:induction false} WithPageAppends(chunks: seq<Chunk>, page: Page, start: nat, maxChars: nat)
    requires maxChars >= 1
    ensures WithPage(chunks, page, start, maxChars) == chunks + PageChunks(page, start, maxChars, |chunks|)
    decreases if start < |page.text| then |page.text| - start else 0
  {
    if start < |page.text| {
      var piece := Window(page.text, start, maxChars);
      if IsBlank(piece, IsPySpace) {
        WithPageAppends(chunks, page, start + maxChars, maxChars);
      } else {
        var c := Chunk(|chunks|, page.number, start, piece);
        WithPageAppends(chunks + [c], page, start + maxChars, maxChars);
        AppendAssociates(chunks, [c], PageChunks(page, start + maxChars, maxChars, |chunks| + 1));
      }
    }
  }

  lemma {:induction false} DocumentSnoc(init: seq<Page>, last: Page, maxChars: nat, index: nat)
    requires maxChars >= 1
    ensures var chunks := DocumentChunks(init, maxChars, index);
            DocumentChunks(init + [last], maxChars, index) == chunks + PageChunks(last, 0, maxChars, index + |chunks|)
  {
    if init == [] {
      assert (init + [last])[1..] == [];
      AppendAssociates(PageChunks(last, 0, maxChars, index), [], []);
    } else {
      var first := PageChunks(init[0], 0, maxChars, index);
      DocumentSnoc(init[1..], last, maxChars, index + |first|);
      assert (init + [last])[1..] == init[1..] + [last];
      var others := DocumentChunks(init[1..], maxChars, index + |first|);
      AppendAssociates(first, others, PageChunks(last, 0, maxChars, index + |first| + |others|));
    }
  }

  lemma {:induction false} WithPagesAppends(chunks: seq<Chunk>, pages: seq<Page>, maxChars: nat)
    requires maxChars >= 1
    ensures WithPages(chunks, pages, maxChars) == chunks + DocumentChunks(pages, maxChars, |chunks|)
    decreases |pages|
  {
    if pages != [] {
      var init, last := pages[..|pages| - 1], pages[|pages| - 1];
      WithPagesAppends(chunks, init, maxChars);
      var before := WithPages(chunks, init, maxChars);
      WithPageAppends(before, last, 0, maxChars);
      DocumentSnoc(init, last, maxChars, |chunks|);
      assert pages == init + [last];
      AppendAssociates(chunks, DocumentChunks(init, maxChars, |chunks|), PageChunks(last, 0, maxChars, |before|));
    }
  }

  method ChunkDocument(doc: ParsedDocument, maxChars: int) returns (result: Result<seq<Chunk>, Error>)
    ensures result.Err? <==> maxChars <= 0
    ensures result.Ok? ==> result.value == DocumentChunks(doc.pages, maxChars, 0)
  {
    if maxChars <= 0 {
      return Err(MaxCharsNotPositive);
    }
    var chunks: seq<Chunk> := [];
    var idx: nat := 0;
    for k := 0 to |doc.pages|
      invariant idx == |chunks|
      invariant chunks == WithPages([], doc.pages[..k], maxChars)
    {
      var page := doc.pages[k];
      ghost var before := chunks;
      var limit := if |page.text| > 1 then |page.text| else 1;
      var start: nat := 0;
      while start < limit
        invariant idx == |chunks|
        invariant WithPage(chunks, page, start, maxChars) == WithPage(before, page, 0, maxChars)
      {
        if start < |page.text| {
          var piece := Window(page.text, start, maxChars);
          if !IsBlank(piece, IsPySpace) {
            chunks := chunks + [Chunk(idx, page.number, start, piece)];
            idx := idx + 1;
          }
        }
        start := start + maxChars;
      }
      assert doc.pages[..k + 1][..k] == doc.pages[..k];
    }
    assert doc.pages[..|doc.pages|] == doc.pages;
    WithPagesAppends([], doc.pages, maxChars);
    result := Ok(chunks);
  }

  // ----- Anchors -----

  /** The chunk quotes the page at its offset, up to the window length or the end of the page, and is not blank. */
  predicate Anchored(c: Chunk, page: Page, maxChars: nat) {
    && c.page == page.number
    && c.startOffset < |page.text|
    && c.text == Window(page.text, c.startOffset, maxChars)
    && !IsBlank(c.text, IsPySpace)
  }

  /** Chunks of one page quote it, follow each other and do not overlap. */
  lemma {:induction false} PageAnchors(page: Page, start: nat, maxChars: nat, index: nat)
    requires maxChars >= 1
    ensures var chunks := PageChunks(page, start, maxChars, index);
            && (forall c :: c in chunks ==> Anchored(c, page, maxChars) && start <= c.startOffset)
            && (forall i, j :: 0 <= i < j < |chunks| ==> chunks[i].startOffset + maxChars <= chunks[j].startOffset)
    decreases if start < |page.text| then |page.text| - start else 0
  {
    if start < |page.text| {
      var piece := Window(page.text, start, maxChars);
      PageAnchors(page, start + maxChars, maxChars, if IsBlank(piece, IsPySpace) then index else index + 1);
    }
  }

  /** The chunk contains position p of its page. */
  predicate Contains(c: Chunk, p: nat) {
    c.startOffset <= p < c.startOffset + |c.text|
  }

  lemma ContainsCons(c: Chunk, chunks: seq<Chunk>, i: nat, p: nat)
    requires i < |chunks| && Contains(chunks[i], p)
    ensures i + 1 < |[c] + chunks| && Contains(([c] + chunks)[i + 1], p)
  {}

  lemma InWindow(text: string, start: nat, maxChars: nat, p: nat)
    requires start <= p < |text| && p < start + maxChars && !IsPySpace(text[p])
    ensures p < start + |Window(text, start, maxChars)| && !IsBlank(Window(text, start, maxChars), IsPySpace)
  {
    assert Window(text, start, maxChars)[p - start] == text[p];
  }

  /** Every non-blank character of a page from the offset on lies in some chunk. */
  lemma {:induction false} ChunkAt(page: Page, start: nat, maxChars: nat, index: nat, p: nat) returns (i: nat)
    requires maxChars >= 1 && start <= p < |page.text| && !IsPySpace(page.text[p])
    ensures var chunks := PageChunks(page, start, maxChars, index);
            i < |chunks| && Contains(chunks[i], p)
    decreases |page.text| - start
  {
    var piece := Window(page.text, start, maxChars);
    if p < start + maxChars {
      InWindow(page.text, start, maxChars, p);
      i := 0;
    } else if IsBlank(piece, IsPySpace) {
      i := ChunkAt(page, start + maxChars, maxChars, index, p);
    } else {
      i := ChunkAt(page, start + maxChars, maxChars, index + 1, p);
      ContainsCons(Chunk(index, page.number, start, piece), PageChunks(page, start + maxChars, maxChars, index + 1),
                   i, p);
      i := i + 1;
    }
  }

  /** Every non-blank character of a page lies in exactly one of its chunks. */
  lemma PageCoverage(page: Page, maxChars: nat, index: nat, p: nat)
    requires maxChars >= 1 && p < |page.text| && !IsPySpace(page.text[p])
    ensures var chunks := PageChunks(page, 0, maxChars, index);
            exists i :: 0 <= i < |chunks| && Contains(chunks[i], p)
              && forall j :: 0 <= j < |chunks| && Contains(chunks[j], p) ==> j == i
  {
    PageAnchors(page, 0, maxChars, index);
    var chunks := PageChunks(page, 0, maxChars, index);
    var i := ChunkAt(page, 0, maxChars, index, p);
    forall j | 0 <= j < |chunks| && Contains(chunks[j], p)
      ensures j == i
    {
      assert chunks[i] in chunks && chunks[j] in chunks;
    }
  }

  // ----- Documents -----

  /** Every chunk of a document quotes one of its pages at its offset. */
  lemma {:induction false} DocumentAnchors(pages: seq<Page>, maxChars: nat, index: nat)
    requires maxChars >= 1
    ensures forall c :: c in DocumentChunks(pages, maxChars, index) ==>
              exists page :: page in pages && Anchored(c, page, maxChars)
  {
    if pages != [] {
      var first := PageChunks(pages[0], 0, maxChars, index);
      PageAnchors(pages[0], 0, maxChars, index);
      DocumentAnchors(pages[1..], maxChars, index + |first|);
      assert pages[0] in pages && forall page :: page in pages[1..] ==> page in pages;
    }
  }

  predicate DistinctNumbers(pages: seq<Page>) {
    forall i, j :: 0 <= i < j < |pages| ==> pages[i].number != pages[j].number
  }

  /** Chunk i is the only one of the page with the number that contains position p. */
  ghost predicate OnlyChunk(chunks: seq<Chunk>, i: int, number: int, p: nat) {
    && 0 <= i < |chunks| && chunks[i].page == number && Contains(chunks[i], p)
    && forall j :: 0 <= j < |chunks| && chunks[j].page == number && Contains(chunks[j], p) ==> j == i
  }

  lemma {:induction false} ChunksOfPages(pages: seq<Page>, maxChars: nat, index: nat)
    requires maxChars >= 1
    ensures forall c :: c in DocumentChunks(pages, maxChars, index) ==>
              exists page :: page in pages && page.number == c.page
  {
    DocumentAnchors(pages, maxChars, index);
  }

  lemma OnlyInPage(page: Page, maxChars: nat, index: nat, p: nat) returns (i: int)
    requires maxChars >= 1 && p < |page.text| && !IsPySpace(page.text[p])
    ensures OnlyChunk(PageChunks(page, 0, maxChars, index), i, page.number, p)
  {
    PageCoverage(page, maxChars, index, p);
    var chunks := PageChunks(page, 0, maxChars, index);
    i :| 0 <= i < |chunks| && Contains(chunks[i], p)
         && forall j :: 0 <= j < |chunks| && Contains(chunks[j], p) ==> j == i;
  }

  lemma OnlyInFirst(first: seq<Chunk>, others: seq<Chunk>, i: int, number: int, p: nat)
    requires OnlyChunk(first, i, number, p) && forall c :: c in others ==> c.page != number
    ensures OnlyChunk(first + others, i, number, p)
  {}

  lemma OnlyInOthers(first: seq<Chunk>, others: seq<Chunk>, i: int, number: int, p: nat)
    requires OnlyChunk(others, i, number, p) && forall c :: c in first ==> c.page != number
    ensures OnlyChunk(first + others, |first| + i, number, p)
  {
    assert forall j :: 0 <= j < |first| ==> first[j] in first;
    assert forall j :: |first| <= j < |first + others| ==> (first + others)[j] == others[j - |first|];
  }

  /** Of all chunks of a document whose pages are numbered apart, exactly one holds a non-blank character. */
  lemma {:induction false} DocumentCoverage(pages: seq<Page>, maxChars: nat, index: nat, k: nat, p: nat)
    returns (i: int)
    requires maxChars >= 1 && DistinctNumbers(pages)
    requires k < |pages| && p < |pages[k].text| && !IsPySpace(pages[k].text[p])
    ensures OnlyChunk(DocumentChunks(pages, maxChars, index), i, pages[k].number, p)
    decreases |pages|
  {
    var first := PageChunks(pages[0], 0, maxChars, index);
    var others := DocumentChunks(pages[1..], maxChars, index + |first|);
    if k == 0 {
      i := OnlyInPage(pages[0], maxChars, index, p);
      ChunksOfPages(pages[1..], maxChars, index + |first|);
      OnlyInFirst(first, others, i, pages[0].number, p);
    } else {
      i := DocumentCoverage(pages[1..], maxChars, index + |first|, k - 1, p);
      OnlyInOthers(first, others, i, pages[k].number, p);
      i := |first| + i;
    }
  }

  function Texts(chunks: seq<Chunk>): string {
    if chunks == [] then "" else chunks[0].text + Texts(chunks[1..])
  }

  /** The characters that are not white space. */
  function Ink(s: string): string {
    Filter(s, c => !IsPySpace(c))
  }

  lemma InkConcat(a: string, b: string)
    ensures Ink(a + b) == Ink(a) + Ink(b)
  {
    FilterConcat(a, b, c => !IsPySpace(c));
  }

  lemma InkOfBlank(s: string)
    requires IsBlank(s, IsPySpace)
    ensures Ink(s) == ""
  {
    FilterNone(s, c => !IsPySpace(c));
  }

  lemma {:induction false} TextsConcat(a: seq<Chunk>, b: seq<Chunk>)
    ensures Texts(a + b) == Texts(a) + Texts(b)
  {
    if a == [] {
      assert a + b == b;
    } else {
      assert (a + b)[1..] == a[1..] + b;
      TextsConcat(a[1..], b);
      AppendAssociates(a[0].text, Texts(a[1..]), Texts(b));
    }
  }

  function InkFrom(text: string, start: nat): string {
    if start < |text| then Ink(text[start..]) else ""
  }

  lemma WindowThenRest(text: string, start: nat, maxChars: nat)
    requires start < |text|
    ensures text[start..]
         == Window(text, start, maxChars) + (if start + maxChars < |text| then text[start + maxChars..] else "")
  {}

  lemma InkFromWindow(text: string, start: nat, maxChars: nat)
    requires start < |text|
    ensures InkFrom(text, start) == Ink(Window(text, start, maxChars)) + InkFrom(text, start + maxChars)
  {
    WindowThenRest(text, start, maxChars);
    InkConcat(Window(text, start, maxChars), if start + maxChars < |text| then text[start + maxChars..] else "");
  }

  lemma InkFromBlank(text: string, start: nat, maxChars: nat)
    requires start < |text| && IsBlank(Window(text, start, maxChars), IsPySpace)
    ensures InkFrom(text, start) == InkFrom(text, start + maxChars)
  {
    InkFromWindow(text, start, maxChars);
    InkOfBlank(Window(text, start, maxChars));
  }

  lemma TextsCons(c: Chunk, chunks: seq<Chunk>)
    ensures Texts([c] + chunks) == c.text + Texts(chunks)
  {
    assert ([c] + chunks)[1..] == chunks;
  }

  lemma InkOfChunks(c: Chunk, chunks: seq<Chunk>)
    ensures Ink(Texts([c] + chunks)) == Ink(c.text) + Ink(Texts(chunks))
  {
    TextsCons(c, chunks);
    InkConcat(c.text, Texts(chunks));
  }

  lemma WindowInk(page: Page, start: nat, maxChars: nat, index: nat, chunks: seq<Chunk>)
    requires start < |page.text| && Ink(Texts(chunks)) == InkFrom(page.text, start + maxChars)
    ensures Ink(Texts([Chunk(index, page.number, start, Window(page.text, start, maxChars))] + chunks))
         == InkFrom(page.text, start)
  {
    InkFromWindow(page.text, start, maxChars);
    InkOfChunks(Chunk(index, page.number, start, Window(page.text, start, maxChars)), chunks);
  }

  lemma {:induction false} PageInk(page: Page, start: nat, maxChars: nat, index: nat)
    requires maxChars >= 1
    ensures Ink(Texts(PageChunks(page, start, maxChars, index))) == InkFrom(page.text, start)
    decreases if start < |page.text| then |page.text| - start else 0
  {
    if start < |page.text| {
      var piece := Window(page.text, start, maxChars);
      if IsBlank(piece, IsPySpace) {
        InkFromBlank(page.text, start, maxChars);
        PageInk(page, start + maxChars, maxChars, index);
      } else {
        PageInk(page, start + maxChars, maxChars, index + 1);
        WindowInk(page, start, maxChars, index, PageChunks(page, start + maxChars, maxChars, index + 1));
      }
    }
  }

  function PageTexts(pages: seq<Page>): string {
    if pages == [] then "" else pages[0].text + PageTexts(pages[1..])
  }

  /** Chunking loses and repeats no ink: the chunks' non-blank characters are the document's, in order. */
  lemma {:induction false} DocumentInk(pages: seq<Page>, maxChars: nat, index: nat)
    requires maxChars >= 1
    ensures Ink(Texts(DocumentChunks(pages, maxChars, index))) == Ink(PageTexts(pages))
  {
    if pages != [] {
      var first := PageChunks(pages[0], 0, maxChars, index);
      var others := DocumentChunks(pages[1..], maxChars, index + |first|);
      DocumentInk(pages[1..], maxChars, index + |first|);
      PageInk(pages[0], 0, maxChars, index);
      assert pages[0].text[0..] == pages[0].text;
      TextsConcat(first, others);
      InkConcat(Texts(first), Texts(others));
      InkConcat(pages[0].text, PageTexts(pages[1..]));
    }
  }

  lemma {:induction false} PagesOfParts(pages: seq<Page>, parts: seq<string>)
    requires |pages| == |parts| >= 1 && forall i :: 0 <= i < |pages| ==> pages[i].text == parts[i]
    ensures Ink(PageTexts(pages)) == Ink(Join(parts, '\U{000C}'))
    decreases |parts|
  {
    InkConcat(parts[0], PageTexts(pages[1..]));
    if |parts| == 1 {
      assert PageTexts(pages[1..]) == "";
      assert Ink(parts[0]) + "" == Ink(parts[0]);
    } else {
      PagesOfParts(pages[1..], parts[1..]);
      var later := Join(parts[1..], '\U{000C}');
      InkConcat(parts[0] + ['\U{000C}'], later);
      InkConcat(parts[0], ['\U{000C}']);
      InkOfBlank(['\U{000C}']);
    }
  }

  /** From source text to chunks: page breaks are white space, so all the ink of the source arrives, in order. */
  lemma SourceInk(source: string, maxChars: nat)
    requires maxChars >= 1
    ensures Ink(Texts(DocumentChunks(ParseNative(source).pages, maxChars, 0))) == Ink(source)
  {
    var doc := ParseNative(source);
    DocumentInk(doc.pages, maxChars, 0);
    JoinSplit(source, '\U{000C}');
    PagesOfParts(doc.pages, Split(source, '\U{000C}'));
  }

  lemma InkMeansNotBlank(s: string)
    ensures Ink(s) == "" <==> IsBlank(s, IsPySpace)
  {
    FilterMembers(s, c => !IsPySpace(c));
    if IsBlank(s, IsPySpace) {
      InkOfBlank(s);
    } else {
      var c :| c in s && !IsPySpace(c);
      assert c in Ink(s);
    }
  }

  lemma {:induction false} BlankPages(pages: seq<Page>)
    ensures IsBlank(PageTexts(pages), IsPySpace) <==> forall p :: p in pages ==> IsBlank(p.text, IsPySpace)
  {
    if pages != [] {
      BlankPages(pages[1..]);
      assert pages == [pages[0]] + pages[1..];
    }
  }

  /** The OCR fallback is taken exactly when the source holds nothing but white space. */
  lemma OcrOnlyForBlank(source: string, ocr: string -> ParsedDocument)
    ensures ParseDocument(source, ocr) == if IsBlank(source, IsPySpace) then ocr(source) else ParseNative(source)
  {
    var pages := ParseNative(source).pages;
    var parts := Split(source, '\U{000C}');
    PagesOfParts(pages, parts);
    JoinSplit(source, '\U{000C}');
    InkMeansNotBlank(source);
    InkMeansNotBlank(PageTexts(pages));
    BlankPages(pages);
  }
}
