/** The two sides of the chunked protocol together: what the receiver holds
    after the sender's frames have arrived in order. */
module Transfer {
  import opened Common
  import opened Frames
  import opened ChunkedSender
  import opened ChunkedReceiver

  /** The receiver's state right after the start frame of `f`. */
  function AfterStart(f: File): ReceiverState
  {
    ReceiverState(Some(f.name), Some(f.Size()), TotalChunks(f.Size()), [], 0, ZeroProgress, None)
  }

  /** The blob the completing chunk builds: from all chunks under the intended
      rule, from all but the last as the handler is written. */
  function CompletedBlob(rule: BlobRule, f: File): Bytes
    requires TotalChunks(f.Size()) > 0
  {
    var n := TotalChunks(f.Size());
    Concat(ChunkPayloads(ChunkFrames(f)[..if rule == Intended then n else n - 1]))
  }

  /** After the start frame and the first k chunk frames, the receiver holds
      exactly those k payloads, counts k, and has a blob only once k reaches
      the announced total. */
  lemma {:induction false} FeedChunkPrefix(rule: BlobRule, f: File, k: nat)
    requires k <= TotalChunks(f.Size())
    ensures Feed(rule, AfterStart(f), ChunkFrames(f)[..k])
         == ReceiverState(Some(f.name), Some(f.Size()), TotalChunks(f.Size()),
                          ChunkPayloads(ChunkFrames(f)[..k]), k,
                          if k == 0 then ZeroProgress else Fraction(k, TotalChunks(f.Size())),
                          if k == TotalChunks(f.Size()) && k > 0 then Some(CompletedBlob(rule, f)) else None)
  {
    if k > 0 {
      var cf := ChunkFrames(f);
      var frames := cf[..k];
      assert frames[..k - 1] == cf[..k - 1];
      FeedChunkPrefix(rule, f, k - 1);
      ChunkFrameContents(f, k - 1);
      assert ChunkPayloads(frames) == ChunkPayloads(cf[..k - 1]) + [cf[k - 1].bytes];
    }
  }

  /** Whatever state the receiver is in, a transfer's frames leave it where
      they would leave a freshly mounted receiver. */
  lemma StartSupersedes(rule: BlobRule, s: ReceiverState, f: File)
    ensures Feed(rule, s, Encode(f)) == Feed(rule, Initial, Encode(f))
  {
    var rest := ChunkFrames(f) + [Done];
    assert Encode(f) == [StartFrame(f)] + rest;
    FeedAppend(rule, s, [StartFrame(f)], rest);
    FeedAppend(rule, Initial, [StartFrame(f)], rest);
    assert [StartFrame(f)][..0] == [];
  }

  /** The state a transfer of `f` leaves a receiver in, under either rule. */
  lemma {:induction false} FeedEncode(rule: BlobRule, f: File)
    ensures Feed(rule, Initial, Encode(f))
         == ReceiverState(Some(f.name), Some(f.Size()), TotalChunks(f.Size()),
                          ChunkPayloads(ChunkFrames(f)), TotalChunks(f.Size()),
                          if f.Size() == 0 then ZeroProgress else Fraction(TotalChunks(f.Size()), TotalChunks(f.Size())),
                          if f.Size() > 0 then Some(CompletedBlob(rule, f)) else None)
  {
    var cf := ChunkFrames(f);
    var n := TotalChunks(f.Size());
    FeedAppend(rule, Initial, [StartFrame(f)], cf);
    FeedAppend(rule, Initial, [StartFrame(f)] + cf, [Done]);
    assert [StartFrame(f)][..0] == [];
    assert [Done][..0] == [];
    assert cf[..n] == cf;
    FeedChunkPrefix(rule, f, n);
  }

  /** The round trip, under the intended rule: after every frame of a
      transfer, in order, the count equals the announced total, the chunks
      concatenate to the file, and the blob is the file. An empty file is the
      exception the source leaves: zero chunks never reach the completion
      test, so no blob is made. */
  lemma RoundTrip(f: File)
    ensures Feed(Intended, Initial, Encode(f)).count == TotalChunks(f.Size())
    ensures Feed(Intended, Initial, Encode(f)).totalChunks == TotalChunks(f.Size())
    ensures Concat(Feed(Intended, Initial, Encode(f)).chunks) == f.data
    ensures Feed(Intended, Initial, Encode(f)).fileName == Some(f.name)
    ensures Feed(Intended, Initial, Encode(f)).blob == if f.Size() > 0 then Some(f.data) else None
  {
    var n := TotalChunks(f.Size());
    FeedEncode(Intended, f);
    ChunkPrefixPayloads(f, n);
    assert ChunkFrames(f)[..n] == ChunkFrames(f);
  }

  /** As written, the completing chunk builds the blob from the chunks that
      arrived before it, so the blob of every non-empty file lacks its last
      chunk. */
  lemma AsWrittenBlobLacksLastChunk(f: File)
    requires f.Size() > 0
    ensures Feed(AsWritten, Initial, Encode(f)).blob
         == Some(f.data[..(TotalChunks(f.Size()) - 1) * CHUNK_SIZE])
    ensures Feed(AsWritten, Initial, Encode(f)).blob != Some(f.data)
  {
    var n := TotalChunks(f.Size());
    FeedEncode(AsWritten, f);
    ChunkPrefixPayloads(f, n - 1);
  }

  /** As written, every non-empty named file ends with the download button
      shown and a download possible, for a blob that is not the file: a
      partial file is offered as complete. */
  lemma AsWrittenOffersPartialFile(f: File)
    requires f.Size() > 0 && f.name != ""
    ensures CanDownload(Feed(AsWritten, Initial, Encode(f)))
    ensures View(Feed(AsWritten, Initial, Encode(f))) == DownloadButton
    ensures Feed(AsWritten, Initial, Encode(f)).blob != Some(f.data)
  {
    FeedEncode(AsWritten, f);
    AsWrittenBlobLacksLastChunk(f);
  }

  /** The smallest case: a one-byte file arrives as an empty blob. */
  lemma AsWrittenOneByteFile()
    ensures Feed(AsWritten, Initial, Encode(File("a", "", [0]))).blob == Some([])
  {
    AsWrittenBlobLacksLastChunk(File("a", "", [0]));
  }

  /** A transfer cut off after k of its chunks (the channel closed or failed)
      never produced a blob. */
  lemma PartialTransferNotReady(rule: BlobRule, f: File, k: nat)
    requires k < TotalChunks(f.Size())
    ensures Feed(rule, Initial, [StartFrame(f)] + ChunkFrames(f)[..k]).blob == None
  {
    FeedAppend(rule, Initial, [StartFrame(f)], ChunkFrames(f)[..k]);
    assert [StartFrame(f)][..0] == [];
    FeedChunkPrefix(rule, f, k);
  }

  /** What the responder finally shows under the corrected completion rule:
      the download button for a non-empty file with a non-empty name; for an
      empty file, a progress bar stuck at 0%, since no chunk ever arrives to
      move it. */
  lemma ViewAfterTransfer(f: File)
    requires f.name != ""
    ensures f.Size() > 0 ==> View(Feed(Intended, Initial, Encode(f))) == DownloadButton
    ensures f.Size() == 0 ==> View(Feed(Intended, Initial, Encode(f))) == ProgressBar(ZeroProgress)
  {
    FeedEncode(Intended, f);
  }

  /** Nothing stops a second file being picked while a transfer runs, and the
      two `sendFile` chains then share the channel. In the order start(a),
      first chunk of a, start(b), second chunk of a, the receiver offers,
      under the name of `b`, the tail of `a` by the intended rule, and an
      empty blob as the handler is written. */
  lemma InterleavedSendsMixFiles(a: File, b: File)
    requires TotalChunks(a.Size()) == 2 && TotalChunks(b.Size()) == 1
    ensures var t := Feed(Intended, Initial, [StartFrame(a), ChunkFrames(a)[0], StartFrame(b), ChunkFrames(a)[1]]);
      t.fileName == Some(b.name) && t.blob == Some(a.data[CHUNK_SIZE..])
    ensures var t := Feed(AsWritten, Initial, [StartFrame(a), ChunkFrames(a)[0], StartFrame(b), ChunkFrames(a)[1]]);
      t.fileName == Some(b.name) && t.blob == Some([])
  {
    var frames := [StartFrame(a), ChunkFrames(a)[0], StartFrame(b), ChunkFrames(a)[1]];
    assert frames[..3][..2][..1][..0] == [];
    var s3 := Feed(Intended, Initial, frames[..3]);
    assert s3 == AfterStart(b);
    ChunkFrameContents(a, 1);
    var last := ChunkFrames(a)[1].bytes;
    assert last == a.data[CHUNK_SIZE..];
    assert [last][..0] == [];
    assert Concat([last]) == last;
    assert Feed(Intended, Initial, frames) == Step(Intended, s3, ChunkFrames(a)[1]);
    var w3 := Feed(AsWritten, Initial, frames[..3]);
    assert w3 == AfterStart(b);
    assert Feed(AsWritten, Initial, frames) == Step(AsWritten, w3, ChunkFrames(a)[1]);
  }

  /** The initiator's `sendFile` feeding the responder's `handleData` through the
      channel, each frame as the object literal the sender builds. Returns
      what `downloadFile` would hand to the browser under the corrected
      completion rule; as written, the blob would lack the last chunk. */
  method SendAndReceive(f: File) returns (download: Option<(string, Bytes)>)
    ensures f.Size() > 0 && f.name != "" ==> download == Some((f.name, f.data))
    ensures f.Size() == 0 || f.name == "" ==> download == None
  {
    var sent, progress := SendFile(f);
    var receiver := new Receiver();
    var i := 0;
    while i < |sent|
      invariant 0 <= i <= |sent|
      invariant receiver.Valid()
      invariant receiver.State() == Feed(Intended, Initial, sent[..i])
    {
      receiver.HandleData(ToMessage(sent[i]));
      assert sent[..i + 1][..i] == sent[..i];
      i := i + 1;
    }
    assert sent[..|sent|] == sent;
    RoundTrip(f);
    download := receiver.DownloadFile();
  }
}
