// The chunking loops, each against its specification.
module DocumentChunker {
  import opened Common
  import opened Words
  import opened Chunker
  import opened Documents

  // Only the place in the emission sequence is ever assigned again.
  class ChunkCandidate {
    const text: string
    const blockIndex: Option<nat>
    const tokenCount: nat
    const sourceFormat: string
    const blockType: Option<Kind>
    var chunkIndex: nat

    constructor (text: string, blockIndex: Option<nat>, tokenCount: nat, sourceFormat: string, blockType: Option<Kind>)
      ensures Value() == Chunk(text, blockIndex, tokenCount, sourceFormat, blockType)
    {
      this.text, this.blockIndex, this.tokenCount, this.chunkIndex := text, blockIndex, tokenCount, 0;
      this.sourceFormat, this.blockType := sourceFormat, blockType;
    }

    // Everything about the candidate but its place in the emission sequence.
    function Value(): Chunk {
      Chunk(text, blockIndex, tokenCount, sourceFormat, blockType)
    }
  }

  // The candidates are distinct objects holding exactly these chunks.
  ghost predicate Holds(candidates: seq<ChunkCandidate>, chunks: seq<Chunk>) {
    && |candidates| == |chunks|
    && (forall i | 0 <= i < |candidates| :: candidates[i].Value() == chunks[i])
    && (forall i, j | 0 <= i < j < |candidates| :: candidates[i] != candidates[j])
  }

  lemma WindowChunksLast(windows: seq<seq<string>>, last: seq<string>, at: Option<nat>, format: string, kind: Option<Kind>)
    ensures WindowChunks(windows + [last], at, format, kind)
      == WindowChunks(windows, at, format, kind) + [WindowChunk(last, at, format, kind)]
  {
    assert (windows + [last])[..|windows|] == windows;
  }

  lemma WindowsEnd(words: seq<string>, size: nat, overlap: nat, i: nat, done: seq<seq<string>>)
    requires ValidConfig(size, overlap) && i >= |words|
    ensures done + Windows(words, size, overlap, i) == done
  {
  }

  lemma WindowsUnfold(words: seq<string>, size: nat, overlap: nat, i: nat, done: seq<seq<string>>)
    requires ValidConfig(size, overlap) && i < |words|
    ensures var window := words[i..Min(i + size, |words|)];
      done + Windows(words, size, overlap, i) ==
        if |window| < size then done + [window] else done + [window] + Windows(words, size, overlap, i + (size - overlap))
  {
  }

  function Objects(candidates: seq<ChunkCandidate>): set<ChunkCandidate> { set c <- candidates }

  lemma ObjectsExist(candidates: seq<ChunkCandidate>)
    ensures forall c <- Objects(candidates) :: allocated(c)
  {
  }

  lemma HoldsAppend(candidates: seq<ChunkCandidate>, chunks: seq<Chunk>, more: seq<ChunkCandidate>, moreChunks: seq<Chunk>)
    requires Holds(candidates, chunks) && Holds(more, moreChunks)
    requires Objects(candidates) !! Objects(more)
    ensures Holds(candidates + more, chunks + moreChunks)
    ensures Objects(candidates + more) == Objects(candidates) + Objects(more)
  {
    assert forall i, j | 0 <= i < |candidates| && 0 <= j < |more| ::
      candidates[i] in Objects(candidates) && more[j] in Objects(more);
  }

  lemma NothingYet(words: seq<string>, size: nat, overlap: nat, format: string)
    requires ValidConfig(size, overlap)
    ensures Holds([], WindowChunks([], None, format, None)) && Objects([]) == {}
    ensures [] + Windows(words, size, overlap, 0) == Windows(words, size, overlap, 0)
    ensures words == [] ==> Windows(words, size, overlap, 0) == []
  {
  }

  lemma HoldsPush(candidates: seq<ChunkCandidate>, chunks: seq<Chunk>, candidate: ChunkCandidate)
    requires Holds(candidates, chunks) && candidate !in Objects(candidates)
    ensures Holds(candidates + [candidate], chunks + [candidate.Value()])
    ensures Objects(candidates + [candidate]) == Objects(candidates) + {candidate}
  {
    HoldsAppend(candidates, chunks, [candidate], [candidate.Value()]);
  }

  method LinearizeTableRows(rows: seq<Row>) returns (text: string)
    ensures text == BlockText(Table(Some(rows)))
  {
    var lines := [];
    for i := 0 to |rows|
      invariant lines == Lines(rows[..i])
    {
      assert rows[..i + 1][..i] == rows[..i];
      match rows[i] {
        case None =>
        case Some(row) =>
          var cells := Cells(row);
          if cells != [] {
            lines := lines + [Join("\t", cells)];
          }
      }
    }
    assert rows[..|rows|] == rows;
    text := Join("\n", lines);
  }

  method ChunkText(text: string, size: int, overlap: int, format: string) returns (result: Outcome<seq<ChunkCandidate>>)
    ensures result.Raised? <==> !ValidConfig(size, overlap)
    ensures result.Raised? ==> Some(result.error) == ConfigError(size, overlap)
    ensures result.Ok? ==> Holds(result.value, TextChunks(text, size, overlap, None, format, None))
    ensures result.Ok? ==> fresh(Objects(result.value))
  {
    var error := ConfigError(size, overlap);
    if error.Some? {
      return Raised(error.value);
    }
    var candidates := ChunkWords(Split(text), size, overlap, format);
    return Ok(candidates);
  }

  // One candidate per window, up to the first window that falls short.
  method ChunkWords(words: seq<string>, size: nat, overlap: nat, format: string) returns (candidates: seq<ChunkCandidate>)
    requires ValidConfig(size, overlap)
    ensures Holds(candidates, WindowChunks(Windows(words, size, overlap, 0), None, format, None))
    ensures fresh(Objects(candidates))
  {
    hide Windows, WindowChunks, Holds, Objects, Join;
    candidates := [];
    ghost var done: seq<seq<string>> := [];
    ghost var windows := Windows(words, size, overlap, 0);
    NothingYet(words, size, overlap, format);
    var i, n := 0, |words|;
    while i < n
      invariant windows == done + Windows(words, size, overlap, i)
      invariant i >= n ==> windows == done
      invariant Holds(candidates, WindowChunks(done, None, format, None))
      invariant fresh(Objects(candidates))
      decreases n - i
    {
      var window := words[i..Min(i + size, n)];
      ObjectsExist(candidates);
      var candidate := new ChunkCandidate(Join(" ", window), None, |window|, format, None);
      HoldsPush(candidates, WindowChunks(done, None, format, None), candidate);
      WindowsUnfold(words, size, overlap, i, done);
      WindowChunksLast(done, window, None, format, None);
      candidates, done := candidates + [candidate], done + [window];
      if |window| < size {
        break;
      }
      i := i + (size - overlap);
      if i >= n { WindowsEnd(words, size, overlap, i, done); }
    }
  }

  method ChunkBlock(block: Block, blockIndex: nat, format: string, size: nat, overlap: nat)
    returns (candidates: seq<ChunkCandidate>)
    requires ValidConfig(size, overlap)
    ensures Holds(candidates, BlockChunks(block, blockIndex, size, overlap, format))
    ensures fresh(Objects(candidates))
  {
    var blockType := KindOf(block);
    if blockType.None? {
      return [];
    }
    var text := BlockText(block);
    if block.Table? && block.rows.Some? {
      text := LinearizeTableRows(block.rows.value);
    }
    var wordCount := |Split(text)|;
    if wordCount <= size {
      var candidate := new ChunkCandidate(text, Some(blockIndex), wordCount, format, blockType);
      return [candidate];
    }
    var sub := ChunkText(text, size, overlap, format);
    ghost var windows := Windows(Split(text), size, overlap, 0);
    candidates := Reanchored(sub.value, windows, blockIndex, format, blockType);
  }

  // The chunks of a text again, now anchored to a block.
  method Reanchored(sub: seq<ChunkCandidate>, ghost windows: seq<seq<string>>, blockIndex: nat,
                    format: string, blockType: Option<Kind>)
    returns (candidates: seq<ChunkCandidate>)
    requires Holds(sub, WindowChunks(windows, None, format, None))
    ensures Holds(candidates, WindowChunks(windows, Some(blockIndex), format, blockType))
    ensures fresh(Objects(candidates))
  {
    candidates := [];
    for i := 0 to |sub|
      invariant Holds(candidates, WindowChunks(windows[..i], Some(blockIndex), format, blockType))
      invariant fresh(Objects(candidates))
    {
      var c := sub[i];
      assert c.Value() == WindowChunk(windows[i], None, format, None);
      var candidate := new ChunkCandidate(c.text, Some(blockIndex), c.tokenCount, format, blockType);
      HoldsPush(candidates, WindowChunks(windows[..i], Some(blockIndex), format, blockType), candidate);
      WindowChunksLast(windows[..i], windows[i], Some(blockIndex), format, blockType);
      assert windows[..i + 1] == windows[..i] + [windows[i]];
      candidates := candidates + [candidate];
    }
    assert windows[..|sub|] == windows;
  }

  // Every candidate is a fresh object, so stamping one never restamps another.
  method ChunkDocument(doc: Document, size: int, overlap: int) returns (result: Outcome<seq<ChunkCandidate>>)
    ensures result.Raised? <==> !ValidConfig(size, overlap) || |doc.text| > MAX_TEXT
    ensures result.Raised? ==>
      result.error == if ConfigError(size, overlap).Some? then ConfigError(size, overlap).value else TextTooLong
    ensures result.Ok? ==> Holds(result.value, DocumentChunks(doc, size, overlap))
    ensures result.Ok? ==> forall i | 0 <= i < |result.value| :: result.value[i].chunkIndex == i
    ensures result.Ok? ==> fresh(Objects(result.value))
  {
    var error := ConfigError(size, overlap);
    if error.Some? {
      return Raised(error.value);
    }
    if |doc.text| > MAX_TEXT {
      return Raised(TextTooLong);
    }
    var candidates := ChunkBlocks(doc, size, overlap);
    var textChunks := ChunkText(doc.text, size, overlap, doc.format);
    ghost var chunks := DocumentChunks(doc, size, overlap);
    HoldsAppend(candidates, BlocksChunks(doc.blocks, size, overlap, doc.format),
      textChunks.value, TextChunks(doc.text, size, overlap, None, doc.format, None));
    candidates := candidates + textChunks.value;
    hide Holds, TextChunks, BlocksChunks, DocumentChunks;
    Restamp(candidates, chunks);
    return Ok(candidates);
  }

  method ChunkBlocks(doc: Document, size: nat, overlap: nat) returns (candidates: seq<ChunkCandidate>)
    requires ValidConfig(size, overlap)
    ensures Holds(candidates, BlocksChunks(doc.blocks, size, overlap, doc.format))
    ensures fresh(Objects(candidates))
  {
    candidates := [];
    assert Holds(candidates, BlocksChunks(doc.blocks[..0], size, overlap, doc.format));
    hide *;
    for i := 0 to |doc.blocks|
      invariant Holds(candidates, BlocksChunks(doc.blocks[..i], size, overlap, doc.format))
      invariant fresh(Objects(candidates))
    {
      var chunks := ChunkBlock(doc.blocks[i], i, doc.format, size, overlap);
      BlocksChunksLast(doc.blocks, i, size, overlap, doc.format);
      HoldsAppend(candidates, BlocksChunks(doc.blocks[..i], size, overlap, doc.format),
        chunks, BlockChunks(doc.blocks[i], i, size, overlap, doc.format));
      candidates := candidates + chunks;
    }
    assert doc.blocks[..|doc.blocks|] == doc.blocks;
  }

  lemma BlocksChunksLast(blocks: seq<Block>, n: nat, size: nat, overlap: nat, format: string)
    requires ValidConfig(size, overlap) && n < |blocks|
    ensures BlocksChunks(blocks[..n + 1], size, overlap, format)
      == BlocksChunks(blocks[..n], size, overlap, format) + BlockChunks(blocks[n], n, size, overlap, format)
  {
    assert blocks[..n + 1][..n] == blocks[..n];
  }

  method Restamp(candidates: seq<ChunkCandidate>, ghost chunks: seq<Chunk>)
    requires Holds(candidates, chunks)
    modifies Objects(candidates)`chunkIndex
    ensures Holds(candidates, chunks)
    ensures forall i | 0 <= i < |candidates| :: candidates[i].chunkIndex == i
  {
    for i := 0 to |candidates|
      invariant Holds(candidates, chunks)
      invariant forall k | 0 <= k < i :: candidates[k].chunkIndex == k
    {
      candidates[i].chunkIndex := i;
    }
  }
}
