/** The sending side of the chunked protocol (file-sender.tsx): a start frame,
    one chunk frame per 256 KiB slice of the file, then a done frame. */
module ChunkedSender {
  import opened Common
  import opened Frames

  /** The size of every chunk but the last: 256 KiB. */
  const CHUNK_SIZE: nat := 256 * 1024

  function Min(a: nat, b: nat): nat { if a <= b then a else b }

  /** `Math.ceil(size / CHUNK_SIZE)`: the least number of chunks that covers
      `size` bytes. */
  function TotalChunks(size: nat): (k: nat)
    ensures k * CHUNK_SIZE >= size
    ensures k > 0 ==> (k - 1) * CHUNK_SIZE < size
    ensures k == 0 <==> size == 0
  {
    (size + CHUNK_SIZE - 1) / CHUNK_SIZE
  }

  /** `Blob.slice(lo, hi)`: the bytes from `lo` up to `hi`, both clamped to the size. */
  function Slice(data: Bytes, lo: nat, hi: nat): Bytes
  {
    var s := Min(lo, |data|);
    var e := Min(hi, |data|);
    if s <= e then data[s..e] else []
  }

  /** The frame announcing the transfer (file-sender.tsx:74-80). */
  function StartFrame(f: File): Frame
  {
    Start(f.name, f.Size(), f.fileType, TotalChunks(f.Size()))
  }

  /** The chunk frame built when the read offset is `offset` (file-sender.tsx:53,60-66). */
  function ChunkFrameAt(f: File, offset: nat): Frame
  {
    Chunk(Slice(f.data, offset, offset + CHUNK_SIZE), f.name, f.Size(),
          offset / CHUNK_SIZE, TotalChunks(f.Size()))
  }

  /** The chunk frames of a transfer: the k-th is read at offset `k * CHUNK_SIZE`. */
  function ChunkFrames(f: File): seq<Frame>
  {
    seq(TotalChunks(f.Size()), k requires 0 <= k => ChunkFrameAt(f, k * CHUNK_SIZE))
  }

  /** Every frame a transfer of `f` sends, in order. */
  function Encode(f: File): seq<Frame>
  {
    [StartFrame(f)] + ChunkFrames(f) + [Done]
  }

  /** The progress values the sender reports, one after each chunk:
      `offset / size * 100` with `offset` already advanced. */
  function ProgressReports(size: nat): seq<Fraction>
  {
    seq(TotalChunks(size), k requires 0 <= k => Fraction((k + 1) * CHUNK_SIZE, size))
  }

  /** `sendFile`: the callback chain `sendChunk` / `reader.onload`, driven by
      `offset`, written as the loop it amounts to. Returns the frames handed to
      `connection.send` and the progress values passed to `setProgress`. */
  method SendFile(f: File) returns (sent: seq<Frame>, progress: seq<Fraction>)
    ensures sent == Encode(f)
    ensures progress == ProgressReports(f.Size())
  {
    var size := |f.data|;
    var offset: nat := 0;
    var totalChunks := TotalChunks(size);
    ghost var k: nat := 0;
    sent := [Start(f.name, size, f.fileType, totalChunks)];
    progress := [];
    while offset < size
      invariant k <= totalChunks
      invariant offset == k * CHUNK_SIZE
      invariant sent == [StartFrame(f)] + ChunkFrames(f)[..k]
      invariant progress == ProgressReports(size)[..k]
    {
      var chunk := Slice(f.data, offset, offset + CHUNK_SIZE);
      sent := sent + [Chunk(chunk, f.name, size, offset / CHUNK_SIZE, totalChunks)];
      offset := offset + CHUNK_SIZE;
      progress := progress + [Fraction(offset, size)];
      assert ChunkFrames(f)[..k + 1] == ChunkFrames(f)[..k] + [ChunkFrames(f)[k]];
      assert ProgressReports(size)[..k + 1] == ProgressReports(size)[..k] + [ProgressReports(size)[k]];
      k := k + 1;
    }
    assert k == totalChunks;
    assert ChunkFrames(f)[..k] == ChunkFrames(f);
    assert ProgressReports(size)[..k] == ProgressReports(size);
    sent := sent + [Done];
  }

  /** `handleFileChange`: a transfer starts only when a file was selected, a
      connection exists and this side is the initiator; otherwise nothing is sent. */
  method HandleFileChange(file: Option<File>, hasConnection: bool, isInitiator: bool)
    returns (sent: seq<Frame>)
    ensures file.Some? && hasConnection && isInitiator ==> sent == Encode(file.value)
    ensures !(file.Some? && hasConnection && isInitiator) ==> sent == []
  {
    sent := [];
    if file.Some? && hasConnection && isInitiator {
      var progress;
      sent, progress := SendFile(file.value);
    }
  }

  /** A file of CHUNK_SIZE + 1 bytes needs two chunks; CHUNK_SIZE bytes need one. */
  lemma TotalChunksExamples()
    ensures TotalChunks(0) == 0
    ensures TotalChunks(1) == 1
    ensures TotalChunks(CHUNK_SIZE) == 1
    ensures TotalChunks(CHUNK_SIZE + 1) == 2
  {
  }

  /** The k-th chunk frame carries bytes `[k * CHUNK_SIZE, min((k+1) * CHUNK_SIZE, size))`,
      its index is k, and it repeats the file's name, size and chunk count. */
  lemma ChunkFrameContents(f: File, k: nat)
    requires k < TotalChunks(f.Size())
    ensures ChunkFrames(f)[k].Chunk?
    ensures ChunkFrames(f)[k].bytes == f.data[k * CHUNK_SIZE .. Min((k + 1) * CHUNK_SIZE, f.Size())]
    ensures ChunkFrames(f)[k].chunkIndex == k
    ensures ChunkFrames(f)[k].name == f.name && ChunkFrames(f)[k].size == f.Size()
    ensures ChunkFrames(f)[k].totalChunks == TotalChunks(f.Size())
  {
    assert (k * CHUNK_SIZE) / CHUNK_SIZE == k;
  }

  /** Every chunk but the last is full; the last holds the remaining
      `size - (totalChunks - 1) * CHUNK_SIZE` bytes, between 1 and CHUNK_SIZE. */
  lemma ChunkLengths(f: File, k: nat)
    requires k < TotalChunks(f.Size())
    ensures k < TotalChunks(f.Size()) - 1 ==> |ChunkFrames(f)[k].bytes| == CHUNK_SIZE
    ensures k == TotalChunks(f.Size()) - 1 ==>
      |ChunkFrames(f)[k].bytes| == f.Size() - k * CHUNK_SIZE &&
      0 < |ChunkFrames(f)[k].bytes| <= CHUNK_SIZE
  {
    ChunkFrameContents(f, k);
  }

  /** Exactly one start frame, first; exactly one done frame, last; chunk
      frames, one per chunk, everywhere in between. */
  lemma EncodeShape(f: File)
    ensures |Encode(f)| == TotalChunks(f.Size()) + 2
    ensures Encode(f)[0] == StartFrame(f)
    ensures Encode(f)[|Encode(f)| - 1] == Done
    ensures forall i :: 0 < i < |Encode(f)| - 1 ==> Encode(f)[i].Chunk?
    ensures forall i :: 0 <= i < |Encode(f)| && Encode(f)[i].Start? ==> i == 0
    ensures forall i :: 0 <= i < |Encode(f)| && Encode(f)[i].Done? ==> i == |Encode(f)| - 1
  {
  }

  /** An empty file produces a start frame announcing zero chunks, then the done frame. */
  lemma EmptyFileFrames(name: string, fileType: string)
    ensures Encode(File(name, fileType, [])) == [Start(name, 0, fileType, 0), Done]
  {
    assert ChunkFrames(File(name, fileType, [])) == [];
  }

  /** The payloads of the first k chunk frames are the first
      `min(k * CHUNK_SIZE, size)` bytes of the file. */
  lemma {:induction false} ChunkPrefixPayloads(f: File, k: nat)
    requires k <= TotalChunks(f.Size())
    ensures Concat(ChunkPayloads(ChunkFrames(f)[..k])) == f.data[..Min(k * CHUNK_SIZE, f.Size())]
  {
    if k > 0 {
      var frames := ChunkFrames(f)[..k];
      var prev := ChunkFrames(f)[..k - 1];
      assert frames[..k - 1] == prev;
      var last := frames[k - 1];
      ChunkPrefixPayloads(f, k - 1);
      ChunkFrameContents(f, k - 1);
      assert ChunkPayloads(frames) == ChunkPayloads(prev) + [last.bytes];
      ConcatSnoc(ChunkPayloads(prev), last.bytes);
      var lo := (k - 1) * CHUNK_SIZE;
      var hi := Min(k * CHUNK_SIZE, f.Size());
      assert lo < f.Size() && lo <= hi;
      assert Min(lo, f.Size()) == lo;
      assert f.data[..hi] == f.data[..lo] + f.data[lo..hi];
    }
  }

  /** Concatenating the chunk payloads of a transfer, in send order, gives back
      exactly the file's bytes, `size` of them. */
  lemma {:induction false} EncodePayloads(f: File)
    ensures ChunkPayloads(Encode(f)) == ChunkPayloads(ChunkFrames(f))
    ensures Concat(ChunkPayloads(Encode(f))) == f.data
    ensures |ChunkPayloads(Encode(f))| == TotalChunks(f.Size())
  {
    var n := TotalChunks(f.Size());
    var cf := ChunkFrames(f);
    ChunkPrefixPayloads(f, n);
    assert cf[..n] == cf;
    ChunkPayloadsAppend([StartFrame(f)], cf);
    ChunkPayloadsAppend([StartFrame(f)] + cf, [Done]);
    assert ChunkPayloads([StartFrame(f)]) == [] by {
      assert [StartFrame(f)][..0] == [];
    }
    assert ChunkPayloads([Done]) == [] by {
      assert [Done][..0] == [];
    }
    AllChunksPayloadCount(cf);
  }

  /** The payload list of a concatenation of frame lists. */
  lemma {:induction false} ChunkPayloadsAppend(a: seq<Frame>, b: seq<Frame>)
    ensures ChunkPayloads(a + b) == ChunkPayloads(a) + ChunkPayloads(b)
  {
    if b != [] {
      var ab := a + b;
      assert ab[..|ab| - 1] == a + b[..|b| - 1];
      ChunkPayloadsAppend(a, b[..|b| - 1]);
    } else {
      assert a + b == a;
    }
  }

  /** A list made only of chunk frames has one payload per frame. */
  lemma {:induction false} AllChunksPayloadCount(frames: seq<Frame>)
    requires forall i :: 0 <= i < |frames| ==> frames[i].Chunk?
    ensures |ChunkPayloads(frames)| == |frames|
  {
    if frames != [] {
      AllChunksPayloadCount(frames[..|frames| - 1]);
    }
  }

  /** The reported progress numerator (`offset`) strictly increases, stays
      below `size` until the last chunk and reaches at least `size` with it;
      it exceeds `size` whenever the size is not a multiple of CHUNK_SIZE,
      since the source does not clamp it. */
  lemma ProgressReportsShape(size: nat)
    ensures |ProgressReports(size)| == TotalChunks(size)
    ensures forall i, j :: 0 <= i < j < |ProgressReports(size)| ==>
      ProgressReports(size)[i].num < ProgressReports(size)[j].num
    ensures forall i :: 0 <= i < |ProgressReports(size)| ==> ProgressReports(size)[i].den == size
    ensures forall i :: 0 <= i < |ProgressReports(size)| - 1 ==> ProgressReports(size)[i].num < size
    ensures size > 0 ==> ProgressReports(size)[TotalChunks(size) - 1].AtLeastWhole()
    ensures size % CHUNK_SIZE != 0 ==> ProgressReports(size)[TotalChunks(size) - 1].num > size
  {
  }

  /** The example of a file one byte over a chunk: chunks of 262144 and 1 bytes. */
  lemma OneByteOverAChunk(f: File)
    requires f.Size() == CHUNK_SIZE + 1
    ensures |ChunkFrames(f)| == 2
    ensures |ChunkFrames(f)[0].bytes| == 262144
    ensures |ChunkFrames(f)[1].bytes| == 1
  {
    ChunkLengths(f, 0);
    ChunkLengths(f, 1);
  }
}
