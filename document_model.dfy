/**
 * Documents for retrieval-augmented generation: the character-count chunker
 * with a fixed stride, the annotation of chunks with vector ids after
 * embedding, and the text search over chunks.
 */
module DocumentModel {
  import opened Common

  const DefaultChunkSize := 1000
  const DefaultOverlap := 200
  const DefaultProvider := "pinecone"

  /** An embedded chunk: its text, its [startIdx, endIdx) range in the document, and its vector. */
  datatype Chunk = Chunk(content: string, startIdx: int, endIdx: int, vectorId: Option<string>, vectorDbProvider: string)

  /** A freshly cut chunk; the provider takes its schema default. */
  function NewChunk(text: string, start: nat, end: nat): Chunk
    requires start <= end <= |text|
  {
    Chunk(text[start..end], start, end, None, DefaultProvider)
  }

  /**
   * For a positive chunk size, the chunking loop ends exactly when the
   * stride is positive or the whole text fits in the first chunk.
   */
  predicate Terminates(len: nat, chunkSize: int, overlap: int) {
    chunkSize - overlap > 0 || len <= chunkSize
  }

  /** The chunks the loop produces from position `i` onwards. */
  function ChunksFrom(text: string, i: nat, chunkSize: int, stride: int): seq<Chunk>
    requires chunkSize > 0
    requires stride > 0 || |text| <= chunkSize
    decreases |text| - i
  {
    if i >= |text| then []
    else
      var end := Min(i + chunkSize, |text|);
      [NewChunk(text, i, end)] + (if end == |text| then [] else ChunksFrom(text, i + stride, chunkSize, stride))
  }

  /** All chunks of `text`: the loop started at position 0 with stride chunkSize - overlap. */
  function Chunking(text: string, chunkSize: int, overlap: int): seq<Chunk>
    requires chunkSize > 0 && Terminates(|text|, chunkSize, overlap)
  {
    ChunksFrom(text, 0, chunkSize, chunkSize - overlap)
  }

  /** The start the loop variable has in its k-th iteration. */
  function LoopStart(k: nat, stride: int): int { k * stride }

  /** Chunk k of the chunks from `i` starts k strides after `i` and holds exactly its text range. */
  lemma {:induction false} ChunksFromAt(text: string, i: nat, chunkSize: int, stride: int, k: nat)
    requires chunkSize > 0
    requires stride > 0 || |text| <= chunkSize
    requires k < |ChunksFrom(text, i, chunkSize, stride)|
    decreases k
    ensures var c := ChunksFrom(text, i, chunkSize, stride)[k];
      && c.startIdx == i + k * stride
      && 0 <= c.startIdx < c.endIdx
      && c.endIdx == Min(c.startIdx + chunkSize, |text|)
      && c.content == text[c.startIdx..c.endIdx]
      && c.vectorId == None && c.vectorDbProvider == DefaultProvider
    ensures k + 1 < |ChunksFrom(text, i, chunkSize, stride)| ==>
      ChunksFrom(text, i, chunkSize, stride)[k].endIdx == i + k * stride + chunkSize < |text|
    ensures k + 1 == |ChunksFrom(text, i, chunkSize, stride)| && 0 < stride <= chunkSize ==>
      ChunksFrom(text, i, chunkSize, stride)[k].endIdx == |text|
  {
    var cs := ChunksFrom(text, i, chunkSize, stride);
    ChunksSuffix(text, i, chunkSize, stride, k);
    ChunksHead(text, i + k * stride, chunkSize, stride);
    assert cs[k] == cs[k..][0];
    assert |cs[k..]| == |cs| - k;
  }

  /** The first chunk from `start` and whether another one follows it. */
  lemma ChunksHead(text: string, start: nat, chunkSize: int, stride: int)
    requires chunkSize > 0
    requires stride > 0 || |text| <= chunkSize
    requires start < |text|
    ensures var cs := ChunksFrom(text, start, chunkSize, stride);
      && cs != []
      && cs[0].startIdx == start
      && 0 <= cs[0].startIdx < cs[0].endIdx
      && cs[0].endIdx == Min(start + chunkSize, |text|)
      && cs[0].content == text[cs[0].startIdx..cs[0].endIdx]
      && cs[0].vectorId == None && cs[0].vectorDbProvider == DefaultProvider
      && (|cs| > 1 ==> cs[0].endIdx == start + chunkSize < |text|)
      && (|cs| == 1 && 0 < stride <= chunkSize ==> cs[0].endIdx == |text|)
  {
    ChunksFromUnfold(text, start, chunkSize, stride);
    var end := Min(start + chunkSize, |text|);
    if end != |text| && 0 < stride <= chunkSize {
      assert start + stride < |text|;
    }
  }

  /** The chunks from the k-th on are the chunks the loop produces from the k-th start. */
  lemma {:induction false} ChunksSuffix(text: string, i: nat, chunkSize: int, stride: int, k: nat)
    requires chunkSize > 0
    requires stride > 0 || |text| <= chunkSize
    requires k < |ChunksFrom(text, i, chunkSize, stride)|
    decreases k
    ensures 0 <= i + k * stride < |text|
    ensures ChunksFrom(text, i, chunkSize, stride)[k..] == ChunksFrom(text, i + k * stride, chunkSize, stride)
  {
    var cs := ChunksFrom(text, i, chunkSize, stride);
    if k == 0 {
      assert cs[0..] == cs;
    } else {
      ChunksFromUnfold(text, i, chunkSize, stride);
      var rest := ChunksFrom(text, i + stride, chunkSize, stride);
      assert cs[k..] == rest[k - 1..];
      ChunksSuffix(text, i + stride, chunkSize, stride, k - 1);
      StrideStep(i, k, stride);
    }
  }

  /** One iteration of the loop: the chunk at `i`, then the chunks from the next start unless it reached the end. */
  lemma ChunksFromUnfold(text: string, i: nat, chunkSize: int, stride: int)
    requires chunkSize > 0
    requires stride > 0 || |text| <= chunkSize
    requires i < |text|
    ensures var end := Min(i + chunkSize, |text|);
      && (end == |text| ==> ChunksFrom(text, i, chunkSize, stride) == [NewChunk(text, i, end)])
      && (end != |text| ==>
            && i + stride >= 0
            && ChunksFrom(text, i, chunkSize, stride) == [NewChunk(text, i, end)] + ChunksFrom(text, i + stride, chunkSize, stride))
  {
  }

  lemma StrideStep(i: nat, k: nat, stride: int)
    requires k > 0
    ensures i + stride + (k - 1) * stride == i + k * stride
  {
  }

  lemma ChunkAt(text: string, chunkSize: int, overlap: int, k: nat)
    requires chunkSize > 0 && Terminates(|text|, chunkSize, overlap)
    requires k < |Chunking(text, chunkSize, overlap)|
    ensures var c := Chunking(text, chunkSize, overlap)[k];
      && c.startIdx == k * (chunkSize - overlap)
      && 0 <= c.startIdx < c.endIdx
      && c.endIdx == Min(c.startIdx + chunkSize, |text|)
      && c.content == text[c.startIdx..c.endIdx]
  {
    ChunksFromAt(text, 0, chunkSize, chunkSize - overlap, k);
  }

  /** No chunk is longer than chunkSize, and every chunk but the last has exactly chunkSize characters. */
  lemma ChunkLengths(text: string, chunkSize: int, overlap: int, k: nat)
    requires chunkSize > 0 && Terminates(|text|, chunkSize, overlap)
    requires k < |Chunking(text, chunkSize, overlap)|
    ensures 0 < |Chunking(text, chunkSize, overlap)[k].content| <= chunkSize
    ensures k + 1 < |Chunking(text, chunkSize, overlap)| ==> |Chunking(text, chunkSize, overlap)[k].content| == chunkSize
  {
    ChunksFromAt(text, 0, chunkSize, chunkSize - overlap, k);
  }

  /**
   * With 0 <= overlap < chunkSize the chunks cover the text: the first starts
   * at 0 and the last ends at its length; empty text has no chunks.
   */
  lemma ChunksCover(text: string, chunkSize: int, overlap: int)
    requires 0 <= overlap < chunkSize
    ensures var cs := Chunking(text, chunkSize, overlap);
      && (|text| == 0 <==> cs == [])
      && (cs != [] ==> cs[0].startIdx == 0 && cs[|cs| - 1].endIdx == |text|)
  {
    var cs := Chunking(text, chunkSize, overlap);
    if cs != [] {
      ChunksFromAt(text, 0, chunkSize, chunkSize - overlap, 0);
      ChunksFromAt(text, 0, chunkSize, chunkSize - overlap, |cs| - 1);
    }
  }

  /**
   * With the default arguments (1000 and 200) chunk k starts at 800·k, the
   * chunks run from 0 to the end of the text, and each holds its slice.
   */
  lemma DefaultChunking(text: string, k: nat)
    requires k < |Chunking(text, DefaultChunkSize, DefaultOverlap)|
    ensures var cs := Chunking(text, DefaultChunkSize, DefaultOverlap);
      && cs[k].startIdx == 800 * k
      && 800 * k < |text|
      && cs[k].endIdx == Min(800 * k + 1000, |text|)
      && cs[k].content == text[800 * k..cs[k].endIdx]
      && cs[0].startIdx == 0 && cs[|cs| - 1].endIdx == |text|
  {
    ChunkAt(text, DefaultChunkSize, DefaultOverlap, k);
    ChunksCover(text, DefaultChunkSize, DefaultOverlap);
  }

  /** Consecutive chunks share exactly `overlap` characters. */
  lemma ChunksOverlap(text: string, chunkSize: int, overlap: int, k: nat)
    requires chunkSize > 0 && Terminates(|text|, chunkSize, overlap)
    requires k + 1 < |Chunking(text, chunkSize, overlap)|
    ensures Chunking(text, chunkSize, overlap)[k + 1].startIdx == Chunking(text, chunkSize, overlap)[k].endIdx - overlap
  {
    var stride := chunkSize - overlap;
    ChunksFromAt(text, 0, chunkSize, stride, k);
    ChunksFromAt(text, 0, chunkSize, stride, k + 1);
    assert (k + 1) * stride == k * stride + stride;
  }

  /**
   * When the loop does not terminate it never exits: in every iteration k the
   * position k * stride is still below the text length and the chunk end
   * min(start + chunkSize, len) never reaches it.
   */
  lemma LoopNeverExits(len: nat, chunkSize: int, overlap: int, k: nat)
    requires chunkSize > 0 && !Terminates(len, chunkSize, overlap)
    ensures LoopStart(k, chunkSize - overlap) < len
    ensures Min(LoopStart(k, chunkSize - overlap) + chunkSize, len) != len
  {
    var stride := chunkSize - overlap;
    assert k * stride <= 0 by {
      assert stride <= 0;
      if k > 0 { assert k * stride <= k * 0; }
    }
  }

  class Document {
    var content: string
    var chunks: seq<Chunk>
    var isProcessed: bool

    constructor (content: string)
      ensures this.content == content && chunks == [] && !isProcessed
    {
      this.content := content;
      chunks := [];
      isProcessed := false;
    }

    /** The `chunkCount` virtual. */
    function ChunkCount(): nat
      reads this
    {
      |chunks|
    }

    /**
     * `processIntoChunks`: cut the content into windows of chunkSize
     * characters, stepping chunkSize - overlap, stopping after the window
     * that reaches the end; the chunk list is replaced wholesale.
     */
    method ProcessIntoChunks(chunkSize: int, overlap: int)
      requires chunkSize > 0 && Terminates(|content|, chunkSize, overlap)
      modifies this
      ensures content == old(content)
      ensures chunks == Chunking(content, chunkSize, overlap)
      ensures ChunkCount() == |Chunking(content, chunkSize, overlap)|
      ensures isProcessed
    {
      var text := content;
      var stride := chunkSize - overlap;
      var acc: seq<Chunk> := [];
      var i: nat := 0;
      while i < |text|
        invariant stride > 0 || (i == 0 && acc == [])
        invariant acc + ChunksFrom(text, i, chunkSize, stride) == Chunking(text, chunkSize, overlap)
        decreases |text| - i
      {
        var end := Min(i + chunkSize, |text|);
        ghost var rest := ChunksFrom(text, i, chunkSize, stride);
        assert rest == [NewChunk(text, i, end)] + (if end == |text| then [] else ChunksFrom(text, i + stride, chunkSize, stride));
        acc := acc + [NewChunk(text, i, end)];
        if end == |text| {
          assert acc == Chunking(text, chunkSize, overlap);
          break;
        }
        i := i + stride;
      }
      chunks := acc;
      isProcessed := true;
    }

    /**
     * `updateVectorIds`: with one id per chunk, chunk k gets id k and the
     * provider; otherwise it fails and changes nothing.
     */
    method UpdateVectorIds(vectorIds: seq<string>, provider: string) returns (r: Result<(), string>)
      modifies this
      ensures r.Err? <==> |vectorIds| != |old(chunks)|
      ensures r.Err? ==> chunks == old(chunks) && r.error == "Vector IDs array length must match chunk count"
      ensures r.Ok? ==> |chunks| == |old(chunks)|
      ensures r.Ok? ==> forall k :: 0 <= k < |chunks| ==>
        chunks[k] == old(chunks)[k].(vectorId := Some(vectorIds[k]), vectorDbProvider := provider)
      ensures ChunkCount() == old(ChunkCount())
      ensures content == old(content) && isProcessed == old(isProcessed)
    {
      if |vectorIds| != |chunks| {
        return Err("Vector IDs array length must match chunk count");
      }
      var k := 0;
      while k < |chunks|
        invariant 0 <= k <= |chunks| == |old(chunks)|
        invariant forall j :: 0 <= j < k ==> chunks[j] == old(chunks)[j].(vectorId := Some(vectorIds[j]), vectorDbProvider := provider)
        invariant forall j :: k <= j < |chunks| ==> chunks[j] == old(chunks)[j]
        invariant content == old(content) && isProcessed == old(isProcessed)
      {
        chunks := chunks[k := chunks[k].(vectorId := Some(vectorIds[k]), vectorDbProvider := provider)];
        k := k + 1;
      }
      return Ok(());
    }

    /**
     * `searchText`: the chunks whose content the query matches, in document
     * order. The regular-expression test is the abstract predicate `matches`.
     */
    function SearchText(matches: string -> bool): (r: seq<Chunk>)
      reads this
      ensures IsSubsequence(r, chunks)
      ensures forall c :: c in r ==> matches(c.content)
      ensures |r| == CountWhere(chunks, (c: Chunk) => matches(c.content))
    {
      Filter(chunks, (c: Chunk) => matches(c.content))
    }
  }
}
