/** The receiving side of the chunked protocol (file-receiver.tsx): a state
    machine that a start frame resets, that chunk frames grow, and that
    builds the file's blob when the chunk count reaches the announced total. */
module ChunkedReceiver {
  import opened Common
  import opened Frames

  /** Which chunks the completing chunk frame puts into the blob.
      `Intended`: every chunk received, this one included.
      `AsWritten`: the chunk list as the handler's closure last saw it, which
      does not yet hold this message's chunk (file-receiver.tsx:40-41). */
  datatype BlobRule = Intended | AsWritten

  /** The component's state fields, as one value. */
  datatype ReceiverState = ReceiverState(
    fileName: Option<string>,
    fileSize: Option<nat>,
    totalChunks: nat,
    chunks: seq<Bytes>,
    count: nat,
    progress: Fraction,
    blob: Option<Bytes>)

  /** The state the component mounts with (file-receiver.tsx:13-19). */
  const Initial := ReceiverState(None, None, 0, [], 0, ZeroProgress, None)

  /** One invocation of `handleData`, on an already classified frame. */
  function Step(rule: BlobRule, s: ReceiverState, f: Frame): ReceiverState
  {
    match f
    case Start(name, size, _, total) =>
      ReceiverState(Some(name), Some(size), total, [], 0, ZeroProgress, None)
    case Chunk(bytes, _, _, _, _) =>
      var chunks := s.chunks + [bytes];
      var completes := s.count + 1 == s.totalChunks;
      s.(chunks := chunks,
         count := s.count + 1,
         progress := Fraction(s.count + 1, s.totalChunks),
         blob := if completes then Some(Concat(if rule == Intended then chunks else s.chunks))
                 else s.blob)
    case _ => s
  }

  /** The state after handling `frames` in arrival order. */
  function Feed(rule: BlobRule, s: ReceiverState, frames: seq<Frame>): ReceiverState
  {
    if frames == [] then s
    else Step(rule, Feed(rule, s, frames[..|frames| - 1]), frames[|frames| - 1])
  }

  /** What holds of the state between any two messages under the intended rule:
      the count is the number of chunks kept; progress is `count / totalChunks`
      once a chunk has arrived; a blob exists exactly when the count has
      reached a non-zero total, and it is the concatenation of the first
      `totalChunks` chunks. */
  ghost predicate Inv(s: ReceiverState)
  {
    && s.count == |s.chunks|
    && s.progress == (if s.count == 0 then ZeroProgress else Fraction(s.count, s.totalChunks))
    && (s.blob.Some? <==> 0 < s.totalChunks <= s.count)
    && (s.blob.Some? ==> s.blob.value == Concat(s.chunks[..s.totalChunks]))
  }

  lemma InitialInv()
    ensures Inv(Initial)
  {
  }

  /** Every message keeps the invariant. */
  lemma StepKeepsInv(s: ReceiverState, f: Frame)
    requires Inv(s)
    ensures Inv(Step(Intended, s, f))
  {
    if f.Chunk? {
      var t := Step(Intended, s, f);
      if s.count + 1 == s.totalChunks {
        assert t.chunks[..t.totalChunks] == t.chunks;
      } else if s.blob.Some? {
        assert t.chunks[..t.totalChunks] == s.chunks[..s.totalChunks];
      }
    }
  }

  /** With a non-zero announced total, the progress bar is full exactly when
      the blob is ready. Under the corrected completion rule, whose states
      `Inv` describes, no partial file is ever offered as complete; as
      written, the blob offered lacks the last chunk
      (`Transfer.AsWrittenOffersPartialFile`). With a
      total of 0, any chunk at all makes the progress a division by zero
      that stops the bar, and there is still no blob. */
  lemma ProgressFullIffReady(s: ReceiverState)
    requires Inv(s)
    ensures s.totalChunks > 0 ==> (s.progress.AtLeastWhole() <==> s.blob.Some?)
    ensures s.totalChunks == 0 ==> (s.progress.AtLeastWhole() <==> s.count > 0) && s.blob.None?
  {
  }

  /** A start frame discards any earlier transfer, complete or partial: the
      state afterwards depends on the frame alone. */
  lemma StartResets(rule: BlobRule, s: ReceiverState, name: string, size: nat, fileType: string, total: nat)
    ensures Step(rule, s, Start(name, size, fileType, total))
         == ReceiverState(Some(name), Some(size), total, [], 0, ZeroProgress, None)
  {
  }

  /** A chunk frame appends its bytes, adds one to the count and sets progress
      to `count / totalChunks`; its name, size, index and announced total are
      not looked at. */
  lemma ChunkAppends(rule: BlobRule, s: ReceiverState, bytes: Bytes,
                     name: string, size: nat, index: nat, total: nat)
    ensures Step(rule, s, Chunk(bytes, name, size, index, total)).chunks == s.chunks + [bytes]
    ensures Step(rule, s, Chunk(bytes, name, size, index, total)).count == s.count + 1
    ensures Step(rule, s, Chunk(bytes, name, size, index, total)).progress == Fraction(s.count + 1, s.totalChunks)
    ensures Step(rule, s, Chunk(bytes, name, size, index, total)) == Step(rule, s, Chunk(bytes, "", 0, 0, 0))
  {
  }

  /** Start frames aside (they reset it), the blob changes only on the chunk
      that takes the count from `totalChunks - 1` to `totalChunks`. */
  lemma BlobOnlyOnCompletion(rule: BlobRule, s: ReceiverState, f: Frame)
    requires !f.Start?
    ensures Step(rule, s, f).blob != s.blob ==> f.Chunk? && s.count + 1 == s.totalChunks
  {
  }

  /** The sender's done frame, and any frame that is neither a start nor a
      chunk, leaves the state as it was. */
  lemma OtherFramesIgnored(rule: BlobRule, s: ReceiverState, f: Frame)
    requires f.Done? || f.Other?
    ensures Step(rule, s, f) == s
  {
  }

  /** Handling `a` then `b` is handling `a + b`. */
  lemma {:induction false} FeedAppend(rule: BlobRule, s: ReceiverState, a: seq<Frame>, b: seq<Frame>)
    ensures Feed(rule, s, a + b) == Feed(rule, Feed(rule, s, a), b)
  {
    if b == [] {
      assert a + b == a;
    } else {
      assert (a + b)[..|a + b| - 1] == a + b[..|b| - 1];
      FeedAppend(rule, s, a, b[..|b| - 1]);
    }
  }

  /** Chunks that arrive before any start frame are kept and counted, but
      the announced total is still 0, so they never complete a file. */
  lemma {:induction false} NoCompletionBeforeStart(rule: BlobRule, frames: seq<Frame>)
    requires forall i :: 0 <= i < |frames| ==> !frames[i].Start?
    ensures Feed(rule, Initial, frames).totalChunks == 0
    ensures Feed(rule, Initial, frames).blob == None
  {
    if frames != [] {
      NoCompletionBeforeStart(rule, frames[..|frames| - 1]);
    }
  }

  /** `downloadFile` does something only when there is a blob and a
      non-empty file name (file-receiver.tsx:72). */
  predicate CanDownload(s: ReceiverState)
  {
    s.blob.Some? && s.fileName.Some? && s.fileName.value != ""
  }

  /** What the component renders below its title (file-receiver.tsx:89-119):
      the waiting text without a (truthy) name; otherwise the name with a
      progress bar while `progress < 100`, else the download button if there
      is a blob, else the name alone. */
  datatype ReceiverView = Waiting | ProgressBar(progress: Fraction) | DownloadButton | NameOnly

  function View(s: ReceiverState): ReceiverView
  {
    if s.fileName.None? || s.fileName.value == "" then Waiting
    else if !s.progress.AtLeastWhole() then ProgressBar(s.progress)
    else if s.blob.Some? then DownloadButton
    else NameOnly
  }

  /** The download button is shown exactly when `downloadFile` would act;
      the name is shown with neither bar nor button exactly when chunks have
      arrived against an announced total of 0. */
  lemma ViewMatchesState(s: ReceiverState)
    requires Inv(s)
    ensures View(s) == DownloadButton <==> CanDownload(s)
    ensures View(s) == NameOnly <==>
      s.fileName.Some? && s.fileName.value != "" && s.totalChunks == 0 && s.count > 0
  {
  }

  /** A start frame announcing 0 chunks followed by one chunk reaches the
      state that shows the name with neither a bar nor a button. */
  lemma ZeroTotalThenChunkShowsNameOnly()
    ensures Inv(Feed(Intended, Initial, [Start("a", 0, "", 0), Chunk([1], "a", 0, 0, 0)]))
    ensures View(Feed(Intended, Initial, [Start("a", 0, "", 0), Chunk([1], "a", 0, 0, 0)])) == NameOnly
  {
  }

  /** The unit `formatFileSize` picks. */
  datatype SizeUnit = KB | MB | GB

  const KiB: nat := 1024
  const MiB: nat := 1024 * 1024
  const GiB: nat := 1024 * 1024 * 1024

  /** The unit of `formatFileSize` (file-receiver.tsx:61-69; file-sender.tsx:20-28
      holds the same function): GB from 2^30 bytes, MB from 2^20, KB below. */
  function UnitFor(size: nat): (u: SizeUnit)
    ensures u == GB <==> size >= GiB
    ensures u == MB <==> MiB <= size < GiB
    ensures u == KB <==> size < MiB
  {
    if size >= GiB then GB else if size >= MiB then MB else KB
  }

  /** The number of bytes one unit stands for. */
  function UnitBytes(u: SizeUnit): nat
  {
    match u
    case KB => KiB
    case MB => MiB
    case GB => GiB
  }

  /** The number `formatFileSize` prints before rounding, `size / UnitBytes`,
      lies in [1, 1024) for MB, is at least 1 for GB and below 1024 for KB. */
  lemma DisplayedQuantityRange(size: nat)
    ensures UnitFor(size) != GB ==> size < 1024 * UnitBytes(UnitFor(size))
    ensures UnitFor(size) != KB ==> size >= UnitBytes(UnitFor(size))
  {
  }

  /** A larger file never gets a smaller unit. */
  lemma UnitMonotone(a: nat, b: nat)
    requires a <= b
    ensures UnitBytes(UnitFor(a)) <= UnitBytes(UnitFor(b))
  {
  }

  /** The component's state and its data handler. */
  class Receiver {
    var fileName: Option<string>
    var fileSize: Option<nat>
    var totalChunks: nat
    var receivedChunks: seq<Bytes>
    var receivedChunksCount: nat
    var progress: Fraction
    var fileBlob: Option<Bytes>

    function State(): ReceiverState
      reads this
    {
      ReceiverState(fileName, fileSize, totalChunks, receivedChunks,
                    receivedChunksCount, progress, fileBlob)
    }

    ghost predicate Valid()
      reads this
    {
      Inv(State())
    }

    constructor ()
      ensures State() == Initial && Valid()
    {
      fileName, fileSize, totalChunks := None, None, 0;
      receivedChunks, receivedChunksCount := [], 0;
      progress, fileBlob := ZeroProgress, None;
    }

    /** `handleData`: `start` is tested first, then `fileChunk`; anything else
        is ignored. The completing chunk builds the blob from every chunk,
        its own included. */
    method HandleData(data: Message)
      requires Valid()
      modifies this
      ensures Valid()
      ensures State() == Step(Intended, old(State()), Classify(data))
    {
      StepKeepsInv(State(), Classify(data));
      if data.start {
        fileName := Some(data.name);
        fileSize := Some(data.size);
        totalChunks := data.totalChunks;
        receivedChunks := [];
        receivedChunksCount := 0;
        progress := ZeroProgress;
        fileBlob := None;
      } else if data.fileChunk.Some? {
        receivedChunks := receivedChunks + [data.fileChunk.value];
        var newCount := receivedChunksCount + 1;
        progress := Fraction(newCount, totalChunks);
        if newCount == totalChunks {
          fileBlob := Some(Concat(receivedChunks));
        }
        receivedChunksCount := newCount;
      }
    }

    /** `downloadFile`: returns the name and bytes handed to the browser, or
        nothing when the blob or the name is missing. */
    method DownloadFile() returns (download: Option<(string, Bytes)>)
      ensures download.Some? <==> CanDownload(State())
      ensures download.Some? ==> download.value == (fileName.value, fileBlob.value)
    {
      if fileBlob.None? || fileName.None? || fileName.value == "" {
        download := None;
      } else {
        download := Some((fileName.value, fileBlob.value));
      }
    }
  }
}
