// From a parsed document to its chunks: blocks first, then the running text.
module Documents {
  import opened Common
  import opened Words
  import opened Chunker

  const MAX_TEXT := 50 * 1024 * 1024

  datatype Kind = CodeKind | ImageKind | TableKind

  type Cell = Option<string>
  type Row = Option<seq<Cell>>

  // A block as the parser left it; a field that is missing or of the wrong type
  // is None, and alt and src are already the strings the code formats.
  datatype Block =
    | NotADict
    | Unsupported(name: string)
    | Code(text: Option<string>)
    | Image(alt: string, src: string, caption: Option<string>)
    | Table(rows: Option<seq<Row>>)

  datatype Document = Document(format: string, blocks: seq<Block>, text: string)

  datatype Chunk = Chunk(text: string, blockIndex: Option<nat>, tokens: nat, format: string, kind: Option<Kind>)

  datatype Error = SizeNotPositive | OverlapNegative | OverlapNotBelowSize | TextTooLong

  datatype Outcome<T> = Ok(value: T) | Raised(error: Error)

  function ConfigError(size: int, overlap: int): (e: Option<Error>)
    ensures e.None? <==> ValidConfig(size, overlap)
    ensures e == Some(SizeNotPositive) <==> size <= 0
    ensures e == Some(OverlapNegative) <==> size > 0 && overlap < 0
    ensures e == Some(OverlapNotBelowSize) <==> size > 0 && overlap >= size
  {
    if size <= 0 then Some(SizeNotPositive)
    else if overlap < 0 then Some(OverlapNegative)
    else if overlap >= size then Some(OverlapNotBelowSize)
    else None
  }

  // ---- Blocks as text ------------------------------------------------------------

  function Cells(row: seq<Cell>): seq<string> {
    if row == [] then []
    else Cells(row[..|row| - 1]) + match row[|row| - 1] { case None => [] case Some(c) => [c] }
  }

  // One line per row that is a list and has a cell.
  function Lines(rows: seq<Row>): seq<string> {
    if rows == [] then []
    else
      Lines(rows[..|rows| - 1]) +
      match rows[|rows| - 1] {
        case None => []
        case Some(row) => if Cells(row) == [] then [] else [Join("\t", Cells(row))]
      }
  }

  predicate Blank(s: string) { forall c <- s :: IsSpace(c) }

  function KindOf(block: Block): Option<Kind> {
    match block
    case NotADict => None
    case Unsupported(_) => None
    case Code(_) => Some(CodeKind)
    case Image(_, _, _) => Some(ImageKind)
    case Table(_) => Some(TableKind)
  }

  function BlockText(block: Block): string {
    match block
    case NotADict => ""
    case Unsupported(_) => ""
    case Code(text) => if text.Some? then text.value else ""
    case Image(alt, src, caption) =>
      var out := "Image: " + alt + " (" + src + ")";
      if caption.Some? && !Blank(caption.value) then out + "\n" + caption.value else out
    case Table(rows) => if rows.Some? then Join("\n", Lines(rows.value)) else ""
  }

  // The words of several texts, one text after the other.
  function WordsOf(texts: seq<string>): seq<string> {
    if texts == [] then [] else Split(texts[0]) + WordsOf(texts[1..])
  }

  lemma {:induction false} JoinKeepsWords(sep: char, texts: seq<string>)
    requires IsSpace(sep)
    ensures Split(Join([sep], texts)) == WordsOf(texts)
  {
    if |texts| == 1 {
      assert WordsOf(texts[1..]) == [];
    } else if texts != [] {
      SplitAcross(texts[0], sep, Join([sep], texts[1..]));
      JoinKeepsWords(sep, texts[1..]);
    }
  }

  lemma {:induction false} WordsOfAppend(texts: seq<string>, more: seq<string>)
    ensures WordsOf(texts + more) == WordsOf(texts) + WordsOf(more)
  {
    if texts == [] {
      assert texts + more == more;
    } else {
      assert (texts + more)[1..] == texts[1..] + more;
      WordsOfAppend(texts[1..], more);
    }
  }

  function Kept(cell: Cell): seq<string> { if cell.Some? then [cell.value] else [] }

  // The cells of a row that are there, from the left.
  function Present(row: seq<Cell>): seq<string> {
    if row == [] then [] else Kept(row[0]) + Present(row[1..])
  }

  lemma {:induction false} PresentAppend(row: seq<Cell>, cell: Cell)
    ensures Present(row + [cell]) == Present(row) + Kept(cell)
  {
    hide Kept;
    if row == [] {
      assert row + [cell] == [cell] && [cell][1..] == [];
    } else {
      var rest := row[1..];
      PresentAppend(rest, cell);
      assert (row + [cell])[1..] == rest + [cell] && (row + [cell])[0] == row[0];
      assert Kept(row[0]) + (Present(rest) + Kept(cell)) == Kept(row[0]) + Present(rest) + Kept(cell);
    }
  }

  lemma {:induction false} CellsArePresent(row: seq<Cell>)
    ensures Cells(row) == Present(row)
  {
    if row != [] {
      CellsArePresent(row[..|row| - 1]);
      PresentAppend(row[..|row| - 1], row[|row| - 1]);
      assert row == row[..|row| - 1] + [row[|row| - 1]];
    }
  }

  // The cells of a table, row after row.
  function AllCells(rows: seq<Row>): seq<string> {
    if rows == [] then []
    else
      AllCells(rows[..|rows| - 1]) + match rows[|rows| - 1] { case None => [] case Some(row) => Present(row) }
  }

  lemma {:induction false} LinesKeepWords(rows: seq<Row>)
    ensures WordsOf(Lines(rows)) == WordsOf(AllCells(rows))
  {
    if rows != [] {
      var init, last := rows[..|rows| - 1], rows[|rows| - 1];
      LinesKeepWords(init);
      if last.Some? { CellsArePresent(last.value); }
      if last.None? || Cells(last.value) == [] {
        assert AllCells(rows) == AllCells(init) && Lines(rows) == Lines(init);
      } else {
        var cells := Cells(last.value);
        CellsArePresent(last.value);
        WordsOfAppend(AllCells(init), cells);

        var line := Join("\t", cells);
        JoinKeepsWords('\t', cells);
        assert [line][1..] == [];
        assert WordsOf([line]) == WordsOf(cells);
        WordsOfAppend(Lines(init), [line]);
      }
    }
  }

  // A table's text has the words of its cells, in reading order; no two cells run
  // together.
  lemma TableTextHasTheCellWords(rows: seq<Row>)
    ensures Split(BlockText(Table(Some(rows)))) == WordsOf(AllCells(rows))
  {
    JoinKeepsWords('\n', Lines(rows));
    LinesKeepWords(rows);
  }

  lemma LinesAppend(rows: seq<Row>, row: seq<Cell>)
    ensures Present(row) != [] ==> Lines(rows + [Some(row)]) == Lines(rows) + [Join("\t", Present(row))]
    ensures Present(row) == [] ==> Lines(rows + [Some(row)]) == Lines(rows)
  {
    assert (rows + [Some(row)])[..|rows|] == rows;
    CellsArePresent(row);
  }

  lemma LinesSkip(rows: seq<Row>)
    ensures Lines(rows + [None]) == Lines(rows)
  {
    assert (rows + [None])[..|rows|] == rows;
  }

  lemma JoinTwo(sep: string, x: string, y: string)
    ensures Join(sep, [x, y]) == x + sep + y && Join(sep, [x]) == x
  {
    assert [x, y][1..] == [y];
  }

  // Two rows with cells, among rows that are missing or blank, and a missing cell.
  function Sparse(a: string, b: string, c: string): seq<Row> {
    [] + [Some([] + [Some(a)] + [None] + [Some(b)])] + [None] + [Some([] + [None])] + [Some([] + [Some(c)])]
  }

  lemma SparsePresent(a: string, b: string, c: string)
    ensures Present([] + [Some(a)] + [None] + [Some(b)]) == [a, b]
    ensures Present([] + [None]) == [] && Present([] + [Some(c)]) == [c]
  {
    PresentAppend([], Some(a));
    PresentAppend([] + [Some(a)], None);
    PresentAppend([] + [Some(a)] + [None], Some(b));
    PresentAppend([], None);
    PresentAppend([], Some(c));
    assert Present([]) == [];
    hide Present;
  }

  lemma SparseLines(a: string, b: string, c: string)
    ensures Lines(Sparse(a, b, c)) == [Join("\t", [a, b]), Join("\t", [c])]
  {
    assert Lines([]) == [];
    hide Present, Join, Lines;
    SparsePresent(a, b, c);
    var r1: seq<Row> := [] + [Some([] + [Some(a)] + [None] + [Some(b)])];
    var r2 := r1 + [None];
    var r3 := r2 + [Some([] + [None])];
    assert Lines(r1) == [Join("\t", [a, b])] by { LinesAppend([], [] + [Some(a)] + [None] + [Some(b)]); }
    assert Lines(r2) == Lines(r1) by { LinesSkip(r1); }
    assert Lines(r3) == Lines(r2) by { LinesAppend(r2, [] + [None]); }
    LinesAppend(r3, [] + [Some(c)]);
    assert Sparse(a, b, c) == r3 + [Some([] + [Some(c)])];
  }

  // Tabs between cells, newlines between rows; missing cells and rows leave nothing.
  lemma TableLayout(a: string, b: string, c: string)
    ensures BlockText(Table(Some(Sparse(a, b, c)))) == (a + "\t" + b) + "\n" + c
  {
    hide Lines, Sparse, Join;
    SparseLines(a, b, c);
    JoinTwo("\t", a, b);
    JoinTwo("\t", c, "");
    JoinTwo("\n", a + "\t" + b, c);
  }

  // A caption goes on a line of its own, a blank one nowhere.
  lemma ImageLayout(alt: string, src: string, caption: string)
    ensures (exists c <- caption :: !IsSpace(c)) ==>
      BlockText(Image(alt, src, Some(caption))) == "Image: " + alt + " (" + src + ")\n" + caption
    ensures (forall c <- caption :: IsSpace(c)) ==>
      BlockText(Image(alt, src, Some(caption))) == "Image: " + alt + " (" + src + ")"
  {
    assert ")\n" == ")" + "\n";
  }

  // An image's caption keeps all its words, and a blank one adds nothing.
  lemma ImageTextHasTheCaptionWords(alt: string, src: string, caption: string)
    ensures Split(BlockText(Image(alt, src, Some(caption))))
         == Split(BlockText(Image(alt, src, None))) + Split(caption)
  {
    SplitEmptyIff(caption);
    SplitAcross(BlockText(Image(alt, src, None)), '\n', caption);
  }

  // ---- Chunks ----------------------------------------------------------------------

  function WindowChunk(window: seq<string>, at: Option<nat>, format: string, kind: Option<Kind>): Chunk {
    Chunk(Join(" ", window), at, |window|, format, kind)
  }

  function WindowChunks(windows: seq<seq<string>>, at: Option<nat>, format: string, kind: Option<Kind>):
    (chunks: seq<Chunk>)
    ensures |chunks| == |windows|
    ensures forall k | 0 <= k < |windows| :: chunks[k] == WindowChunk(windows[k], at, format, kind)
  {
    if windows == [] then []
    else WindowChunks(windows[..|windows| - 1], at, format, kind) + [WindowChunk(windows[|windows| - 1], at, format, kind)]
  }

  function TextChunks(text: string, size: nat, overlap: nat, at: Option<nat>, format: string, kind: Option<Kind>):
    seq<Chunk>
    requires ValidConfig(size, overlap)
  {
    WindowChunks(Windows(Split(text), size, overlap, 0), at, format, kind)
  }

  function BlockChunks(block: Block, at: nat, size: nat, overlap: nat, format: string): seq<Chunk>
    requires ValidConfig(size, overlap)
  {
    var text := BlockText(block);
    if KindOf(block).None? then []
    else if |Split(text)| <= size then [Chunk(text, Some(at), |Split(text)|, format, KindOf(block))]
    else TextChunks(text, size, overlap, Some(at), format, KindOf(block))
  }

  function BlocksChunks(blocks: seq<Block>, size: nat, overlap: nat, format: string): seq<Chunk>
    requires ValidConfig(size, overlap)
  {
    if blocks == [] then []
    else
      var n := |blocks| - 1;
      BlocksChunks(blocks[..n], size, overlap, format) + BlockChunks(blocks[n], n, size, overlap, format)
  }

  function DocumentChunks(doc: Document, size: nat, overlap: nat): seq<Chunk>
    requires ValidConfig(size, overlap)
  {
    BlocksChunks(doc.blocks, size, overlap, doc.format) + TextChunks(doc.text, size, overlap, None, doc.format, None)
  }

  // ---- Reading the words back ---------------------------------------------------------

  // What a reader of the stored chunks has: the words of each chunk's text.
  function Stored(chunks: seq<Chunk>): (windows: seq<seq<string>>)
    ensures |windows| == |chunks|
    ensures forall k | 0 <= k < |chunks| :: windows[k] == Split(chunks[k].text)
  {
    if chunks == [] then [] else Stored(chunks[..|chunks| - 1]) + [Split(chunks[|chunks| - 1].text)]
  }

  lemma {:induction false} WindowsAreWords(words: seq<string>, size: nat, overlap: nat, k: nat)
    requires ValidConfig(size, overlap) && k < |Windows(words, size, overlap, 0)|
    requires forall w <- words :: IsWord(w)
    ensures forall w <- Windows(words, size, overlap, 0)[k] :: IsWord(w)
  {
    WindowFrom(words, size, overlap, 0, k);
  }

  // The words in the chunks of a text are the windows of its words.
  lemma {:induction false} StoredWindows(text: string, size: nat, overlap: nat, at: Option<nat>,
                                         format: string, kind: Option<Kind>)
    requires ValidConfig(size, overlap)
    ensures Stored(TextChunks(text, size, overlap, at, format, kind)) == Windows(Split(text), size, overlap, 0)
  {
    var windows := Windows(Split(text), size, overlap, 0);
    var chunks := TextChunks(text, size, overlap, at, format, kind);
    hide Windows, WindowChunks, Stored, Split;
    forall k | 0 <= k < |windows| ensures Stored(chunks)[k] == windows[k] {
      WindowsAreWords(Split(text), size, overlap, k);
      SplitJoin(windows[k]);
    }
  }

  // Every count is the number of words in the chunk, all chunks but the last have
  // size words, and neighbours share exactly the overlap.
  lemma ChunksAreWindows(text: string, size: nat, overlap: nat, at: Option<nat>, format: string, kind: Option<Kind>)
    requires ValidConfig(size, overlap)
    ensures var chunks := TextChunks(text, size, overlap, at, format, kind); var stored := Stored(chunks);
      && (forall k | 0 <= k < |chunks| :: chunks[k].tokens == |stored[k]| && 0 < |stored[k]| <= size)
      && (forall j, k | 0 <= j && k == j + 1 < |chunks| :: Overlapping(stored[j], stored[k], size, overlap))
  {
    hide Windows, WindowChunks, Stored, Split, Overlapping;
    var words := Split(text);
    var chunks := TextChunks(text, size, overlap, at, format, kind);
    var stored := Stored(chunks);
    StoredWindows(text, size, overlap, at, format, kind);
    assert forall k | 0 <= k < |chunks| :: chunks[k].tokens == |stored[k]|;
    hide TextChunks;
    forall k | 0 <= k < |chunks| ensures 0 < |stored[k]| <= size {
      WindowFrom(words, size, overlap, 0, k);
    }
    forall j, k | 0 <= j && k == j + 1 < |chunks| ensures Overlapping(stored[j], stored[k], size, overlap) {
      SharedOverlap(words, size, overlap, j);
    }
  }

  // Gluing a text's chunks back together gives its words; only a blank text has no
  // chunk.
  lemma {:induction false} TextRoundTrip(text: string, size: nat, overlap: nat, at: Option<nat>,
                                         format: string, kind: Option<Kind>)
    requires ValidConfig(size, overlap)
    ensures var chunks := TextChunks(text, size, overlap, at, format, kind);
      && Glue(Stored(chunks), overlap) == Split(text)
      && (chunks == [] <==> Blank(text))
  {
    var words := Split(text);
    assert words == [] <==> Windows(words, size, overlap, 0) == [];
    hide Windows, WindowChunks, Stored, Split, Glue;
    StoredWindows(text, size, overlap, at, format, kind);
    GlueWindows(words, size, overlap, 0);
    SplitEmptyIff(text);
    assert words[0..] == words;
  }

  // A supported block always has a chunk, even when its text is empty, and its
  // chunks glue back to the words of its text; any other block has none.
  lemma {:induction false} BlockRoundTrip(block: Block, at: nat, size: nat, overlap: nat, format: string)
    requires ValidConfig(size, overlap)
    ensures var chunks := BlockChunks(block, at, size, overlap, format);
      && (chunks == [] <==> KindOf(block).None?)
      && (chunks != [] ==> Glue(Stored(chunks), overlap) == Split(BlockText(block)))
      && (forall c <- chunks :: c.tokens == |Split(c.text)| <= size && c.kind == KindOf(block) && c.format == format)
  {
    var text := BlockText(block);
    var chunks := BlockChunks(block, at, size, overlap, format);
    if KindOf(block).Some? {
      if |Split(text)| > size {
        TextRoundTrip(text, size, overlap, Some(at), format, KindOf(block));
        ChunksAreWindows(text, size, overlap, Some(at), format, KindOf(block));
        SplitEmptyIff(text);
        hide Windows, Stored, Split, Glue, BlockText;
        forall k | 0 <= k < |chunks| ensures chunks[k].tokens == |Split(chunks[k].text)| <= size {
        }
      } else {
        assert Stored(chunks) == [Split(text)];
      }
    }
  }

  // The chunks anchored to one place, in order.
  function Anchored(chunks: seq<Chunk>, at: Option<nat>): seq<Chunk> {
    if chunks == [] then []
    else Anchored(chunks[..|chunks| - 1], at) + if chunks[|chunks| - 1].blockIndex == at then [chunks[|chunks| - 1]] else []
  }

  lemma {:induction false} AnchoredAppend(chunks: seq<Chunk>, more: seq<Chunk>, at: Option<nat>)
    ensures Anchored(chunks + more, at) == Anchored(chunks, at) + Anchored(more, at)
  {
    if more == [] {
      assert chunks + more == chunks;
    } else {
      assert (chunks + more)[..|chunks + more| - 1] == chunks + more[..|more| - 1];
      AnchoredAppend(chunks, more[..|more| - 1], at);
    }
  }

  lemma {:induction false} AnchoredSame(chunks: seq<Chunk>, here: Option<nat>, at: Option<nat>)
    requires forall i | 0 <= i < |chunks| :: chunks[i].blockIndex == here
    ensures Anchored(chunks, at) == if here == at then chunks else []
  {
    if chunks != [] {
      var n := |chunks| - 1;
      AnchoredSame(chunks[..n], here, at);
      if here == at { assert chunks == chunks[..n] + [chunks[n]]; } else { assert Anchored(chunks, at) == [] + []; }
    }
  }

  lemma BlockAnchors(block: Block, at: nat, size: nat, overlap: nat, format: string)
    requires ValidConfig(size, overlap)
    ensures forall c <- BlockChunks(block, at, size, overlap, format) :: c.blockIndex == Some(at)
  {
    hide Windows, Split, BlockText, WindowChunks;
  }

  lemma {:induction false} AnchoredBlocks(blocks: seq<Block>, size: nat, overlap: nat, format: string, at: Option<nat>)
    requires ValidConfig(size, overlap)
    ensures Anchored(BlocksChunks(blocks, size, overlap, format), at) ==
      if at.Some? && at.value < |blocks| then BlockChunks(blocks[at.value], at.value, size, overlap, format) else []
  {
    hide BlockChunks, Anchored;
    if blocks != [] {
      hide BlocksChunks;
      var n := |blocks| - 1;
      AnchoredBlocks(blocks[..n], size, overlap, format, at);
      AnchoredLast(blocks, size, overlap, format, at);
      if at.Some? && at.value < n {
        assert blocks[..n][at.value] == blocks[at.value];
      }
    } else {
      assert Anchored([], at) == [] by { AnchoredSame([], at, at); }
    }
  }

  lemma AnchoredLast(blocks: seq<Block>, size: nat, overlap: nat, format: string, at: Option<nat>)
    requires ValidConfig(size, overlap) && blocks != []
    ensures var n := |blocks| - 1;
      Anchored(BlocksChunks(blocks, size, overlap, format), at)
        == Anchored(BlocksChunks(blocks[..n], size, overlap, format), at)
        + if at == Some(n) then BlockChunks(blocks[n], n, size, overlap, format) else []
  {
    hide BlockChunks, Anchored;
    var n := |blocks| - 1;
    var last := BlockChunks(blocks[n], n, size, overlap, format);
    BlockAnchors(blocks[n], n, size, overlap, format);
    AnchoredSame(last, Some(n), at);
    AnchoredAppend(BlocksChunks(blocks[..n], size, overlap, format), last, at);
  }

  lemma TextAnchors(text: string, size: nat, overlap: nat, format: string)
    requires ValidConfig(size, overlap)
    ensures forall c <- TextChunks(text, size, overlap, None, format, None) :: c.blockIndex == None
  {
    hide Windows, Split, WindowChunks;
  }

  // A block that fits is one chunk with its text as it is: code verbatim, and for an
  // image its description and source.
  lemma SmallBlocksAreVerbatim(text: string, alt: string, src: string, at: nat, size: nat, overlap: nat, format: string)
    requires ValidConfig(size, overlap)
    ensures |Split(text)| <= size ==>
      BlockChunks(Code(Some(text)), at, size, overlap, format)
      == [Chunk(text, Some(at), |Split(text)|, format, Some(CodeKind))]
    ensures var image := "Image: " + alt + " (" + src + ")";
      |Split(image)| <= size ==>
        BlockChunks(Image(alt, src, None), at, size, overlap, format)
        == [Chunk(image, Some(at), |Split(image)|, format, Some(ImageKind))]
    ensures BlockChunks(Table(None), at, size, overlap, format) == [Chunk("", Some(at), 0, format, Some(TableKind))]
  {
    assert Split("") == [];
    hide Split, Windows;
  }

  // Blocks that are not dicts, or of another type, give nothing; every other does.
  lemma UnsupportedIff(block: Block, at: nat, size: nat, overlap: nat, format: string)
    requires ValidConfig(size, overlap)
    ensures BlockChunks(block, at, size, overlap, format) == [] <==> block.NotADict? || block.Unsupported?
  {
    BlockRoundTrip(block, at, size, overlap, format);
    hide BlockChunks;
  }

  // A chunk of running text belongs to no block, has its words a single space apart,
  // and carries the document's format.
  lemma TextChunksAreNormal(text: string, size: nat, overlap: nat, format: string)
    requires ValidConfig(size, overlap)
    ensures forall c <- TextChunks(text, size, overlap, None, format, None) ::
      && c.blockIndex == None && c.kind == None && c.format == format
      && c.text == Join(" ", Split(c.text))
  {
    var chunks := TextChunks(text, size, overlap, None, format, None);
    var windows := Windows(Split(text), size, overlap, 0);
    hide Windows, Split, WindowChunks, Join;
    forall k | 0 <= k < |chunks| ensures chunks[k].text == Join(" ", Split(chunks[k].text)) {
      WindowsAreWords(Split(text), size, overlap, k);
      SplitJoin(windows[k]);
    }
  }

  // A document's chunks partition by anchor: those of block i are exactly that
  // block's, those without an anchor exactly the text's.
  lemma DocumentAnchors(doc: Document, size: nat, overlap: nat)
    requires ValidConfig(size, overlap)
    ensures forall i | 0 <= i < |doc.blocks| ::
      Anchored(DocumentChunks(doc, size, overlap), Some(i)) == BlockChunks(doc.blocks[i], i, size, overlap, doc.format)
    ensures Anchored(DocumentChunks(doc, size, overlap), None) == TextChunks(doc.text, size, overlap, None, doc.format, None)
  {
    hide Anchored, BlockChunks, BlocksChunks, TextChunks;
    var blocks := BlocksChunks(doc.blocks, size, overlap, doc.format);
    var text := TextChunks(doc.text, size, overlap, None, doc.format, None);
    TextAnchors(doc.text, size, overlap, doc.format);
    forall at: Option<nat> | at.Some? ==> at.value < |doc.blocks|
      ensures Anchored(blocks + text, at) ==
        if at.Some? then BlockChunks(doc.blocks[at.value], at.value, size, overlap, doc.format) else text
    {
      AnchoredBlocks(doc.blocks, size, overlap, doc.format, at);
      AnchoredSame(text, None, at);
      AnchoredAppend(blocks, text, at);
    }
  }

  // Nothing in a document is lost: every supported block and the running text can
  // be read back, word for word, from the chunks anchored to them.
  lemma DocumentRoundTrip(doc: Document, size: nat, overlap: nat)
    requires ValidConfig(size, overlap)
    ensures forall i | 0 <= i < |doc.blocks| && KindOf(doc.blocks[i]).Some? ::
      Glue(Stored(Anchored(DocumentChunks(doc, size, overlap), Some(i))), overlap) == Split(BlockText(doc.blocks[i]))
    ensures Glue(Stored(Anchored(DocumentChunks(doc, size, overlap), None)), overlap) == Split(doc.text)
  {
    DocumentAnchors(doc, size, overlap);
    TextRoundTrip(doc.text, size, overlap, None, doc.format, None);
    forall i | 0 <= i < |doc.blocks| && KindOf(doc.blocks[i]).Some?
      ensures Glue(Stored(BlockChunks(doc.blocks[i], i, size, overlap, doc.format)), overlap)
           == Split(BlockText(doc.blocks[i]))
    {
      BlockRoundTrip(doc.blocks[i], i, size, overlap, doc.format);
    }
    hide Anchored, DocumentChunks, Stored, Glue, BlockChunks, TextChunks, Split, BlockText;
  }

  // Block order, then the text: anchors never go down, and no anchored chunk
  // follows an unanchored one.
  predicate InOrder(chunks: seq<Chunk>) {
    forall i, j | 0 <= i < j < |chunks| && chunks[j].blockIndex.Some? ::
      chunks[i].blockIndex.Some? && chunks[i].blockIndex.value <= chunks[j].blockIndex.value
  }

  lemma {:induction false} BlocksInOrder(blocks: seq<Block>, size: nat, overlap: nat, format: string)
    requires ValidConfig(size, overlap)
    ensures var chunks := BlocksChunks(blocks, size, overlap, format);
      InOrder(chunks) && forall c <- chunks :: c.blockIndex.Some? && c.blockIndex.value < |blocks|
  {
    if blocks != [] {
      var n := |blocks| - 1;
      BlocksInOrder(blocks[..n], size, overlap, format);
      BlockAnchors(blocks[n], n, size, overlap, format);
      hide BlockChunks;
    }
  }

  lemma DocumentInOrder(doc: Document, size: nat, overlap: nat)
    requires ValidConfig(size, overlap)
    ensures InOrder(DocumentChunks(doc, size, overlap))
  {
    BlocksInOrder(doc.blocks, size, overlap, doc.format);
    assert forall c <- TextChunks(doc.text, size, overlap, None, doc.format, None) :: c.blockIndex.None?;
  }

  // ---- Empty chunks -----------------------------------------------------------------

  lemma {:induction false} TextChunksHaveText(text: string, size: nat, overlap: nat, at: Option<nat>,
                                              format: string, kind: Option<Kind>)
    requires ValidConfig(size, overlap)
    ensures forall c <- TextChunks(text, size, overlap, at, format, kind) :: c.text != ""
  {
    ChunksAreWindows(text, size, overlap, at, format, kind);
    var chunks := TextChunks(text, size, overlap, at, format, kind);
    hide TextChunks, Stored;
    assert Split("") == [];
    forall k | 0 <= k < |chunks| ensures chunks[k].text != "" {
      assert |Stored(chunks)[k]| > 0;
    }
  }

  lemma BlockHasEmptyIff(block: Block, at: nat, size: nat, overlap: nat, format: string)
    requires ValidConfig(size, overlap)
    ensures (exists c <- BlockChunks(block, at, size, overlap, format) :: c.text == "")
       <==> KindOf(block).Some? && BlockText(block) == ""
  {
    assert Split("") == [];
    TextChunksHaveText(BlockText(block), size, overlap, Some(at), format, KindOf(block));
    hide TextChunks, Split, BlockText;
    var chunks := BlockChunks(block, at, size, overlap, format);
    if KindOf(block).Some? && |Split(BlockText(block))| <= size { assert chunks[0] in chunks; }
  }

  lemma {:induction false} BlocksHaveEmptyIff(blocks: seq<Block>, size: nat, overlap: nat, format: string)
    requires ValidConfig(size, overlap)
    ensures (exists c <- BlocksChunks(blocks, size, overlap, format) :: c.text == "")
       <==> exists b <- blocks :: KindOf(b).Some? && BlockText(b) == ""
  {
    hide BlockText, BlockChunks;
    if blocks != [] {
      var n := |blocks| - 1;
      BlocksHaveEmptyIff(blocks[..n], size, overlap, format);
      BlockHasEmptyIff(blocks[n], n, size, overlap, format);
      assert blocks == blocks[..n] + [blocks[n]];
      assert forall b :: b in blocks <==> b in blocks[..n] || b == blocks[n];
    }
  }

  // Empty chunks come from supported blocks with empty text, and from nothing else.
  lemma {:induction false} EmptyChunkIff(doc: Document, size: nat, overlap: nat)
    requires ValidConfig(size, overlap)
    ensures (exists c <- DocumentChunks(doc, size, overlap) :: c.text == "")
       <==> exists b <- doc.blocks :: KindOf(b).Some? && BlockText(b) == ""
  {
    BlocksHaveEmptyIff(doc.blocks, size, overlap, doc.format);
    TextChunksHaveText(doc.text, size, overlap, None, doc.format, None);
    hide BlocksChunks, TextChunks, BlockText;
  }

  // Such as a code block without text.
  lemma CodeWithoutText(format: string, text: string, size: nat, overlap: nat)
    requires ValidConfig(size, overlap)
    ensures Chunk("", Some(0), 0, format, Some(CodeKind))
      in DocumentChunks(Document(format, [Code(None)], text), size, overlap)
  {
    var doc := Document(format, [Code(None)], text);
    assert Split("") == [] && doc.blocks[..0] == [];
    hide TextChunks;
    assert BlocksChunks(doc.blocks, size, overlap, format) == [Chunk("", Some(0), 0, format, Some(CodeKind))];
    assert DocumentChunks(doc, size, overlap)[0] == Chunk("", Some(0), 0, format, Some(CodeKind));
  }

  // ---- The size guard ---------------------------------------------------------------

  // The bytes of a text in UTF-8.
  function Bytes(text: string): nat {
    if text == "" then 0
    else
      var c := text[|text| - 1];
      Bytes(text[..|text| - 1])
      + if c < '\U{0080}' then 1 else if c < '\U{0800}' then 2 else if c < '\U{10000}' then 3 else 4
  }

  // The guard counts characters against a limit meant in bytes: what it rejects is
  // over the limit, and what it accepts is at most four times it.
  lemma {:induction false} GuardCountsCharacters(text: string)
    ensures |text| <= Bytes(text) <= 4 * |text|
  {
    if text != "" { GuardCountsCharacters(text[..|text| - 1]); }
  }

  function Repeated(c: char, n: nat): string { if n == 0 then "" else Repeated(c, n - 1) + [c] }

  // The widest characters take four bytes.
  lemma {:induction false} RepeatedBytes(n: nat)
    ensures |Repeated('\U{10000}', n)| == n && Bytes(Repeated('\U{10000}', n)) == 4 * n
  {
    if n > 0 {
      RepeatedBytes(n - 1);
      var text := Repeated('\U{10000}', n);
      assert text[..|text| - 1] == Repeated('\U{10000}', n - 1);
    }
  }

  predicate GuardIsRight(text: string) { |text| > MAX_TEXT <==> Bytes(text) > MAX_TEXT }

  // The guard keeps the limit in bytes for all texts of a length exactly when that
  // length is over the limit, or at most a quarter of it.
  lemma {:induction false} GuardIsRightIff(n: nat)
    ensures (forall text: string | |text| == n :: GuardIsRight(text)) <==> n > MAX_TEXT || 4 * n <= MAX_TEXT
  {
    hide Bytes, Repeated;
    forall text: string | |text| == n && (n > MAX_TEXT || 4 * n <= MAX_TEXT) ensures GuardIsRight(text) {
      GuardCountsCharacters(text);
    }
    RepeatedBytes(n);
    assert 4 * n > MAX_TEXT && n <= MAX_TEXT ==> !GuardIsRight(Repeated('\U{10000}', n));
  }

  // A text it accepts at four times the limit.
  lemma GuardAcceptsFourTimesTheLimit()
    ensures |Repeated('\U{10000}', MAX_TEXT)| == 52428800
    ensures Bytes(Repeated('\U{10000}', MAX_TEXT)) == 4 * 52428800
  {
    hide Repeated, Bytes;
    RepeatedBytes(MAX_TEXT);
  }
}
