/** The frames of the chunked transfer protocol, as the sender builds them and
    as the receiver's data handler tells them apart. */
module Frames {
  import opened Common

  /** A frame of the chunked protocol. `Other` is any message that is neither
      a start frame, a chunk frame nor the sender's `{done: true}`. */
  datatype Frame =
    | Start(name: string, size: nat, fileType: string, totalChunks: nat)
    | Chunk(bytes: Bytes, name: string, size: nat, chunkIndex: nat, totalChunks: nat)
    | Done
    | Other

  /** A message as the receiver's handler sees it: an untyped object whose
      `start`, `fileChunk` and `done` keys are tested for truthiness. A
      Uint8Array is always truthy, so `fileChunk` is truthy exactly when it
      is present. A key the sender leaves out reads here as `false`, `None`,
      `""` or `0`. */
  datatype Message = Message(
    start: bool,
    fileChunk: Option<Bytes>,
    done: bool,
    name: string,
    size: nat,
    fileType: string,
    chunkIndex: nat,
    totalChunks: nat)

  /** The receiver's dispatch: `start` is tested first, then `fileChunk`. */
  function Classify(m: Message): (f: Frame)
    ensures f.Start? <==> m.start
    ensures f.Chunk? <==> !m.start && m.fileChunk.Some?
    ensures f.Chunk? ==> f.bytes == m.fileChunk.value
    ensures f.Start? ==> f.name == m.name && f.size == m.size && f.totalChunks == m.totalChunks
  {
    if m.start then Start(m.name, m.size, m.fileType, m.totalChunks)
    else if m.fileChunk.Some? then Chunk(m.fileChunk.value, m.name, m.size, m.chunkIndex, m.totalChunks)
    else if m.done then Done
    else Other
  }

  /** The object literal the sender passes to `connection.send` for a frame. */
  function ToMessage(f: Frame): (m: Message)
    ensures Classify(m) == f
  {
    match f
    case Start(name, size, fileType, totalChunks) =>
      Message(true, None, false, name, size, fileType, 0, totalChunks)
    case Chunk(bytes, name, size, chunkIndex, totalChunks) =>
      Message(false, Some(bytes), false, name, size, "", chunkIndex, totalChunks)
    case Done =>
      Message(false, None, true, "", 0, "", 0, 0)
    case Other =>
      Message(false, None, false, "", 0, "", 0, 0)
  }

  /** The byte payloads of the chunk frames among `frames`, in order. */
  function ChunkPayloads(frames: seq<Frame>): (r: seq<Bytes>)
    ensures |r| <= |frames|
  {
    if frames == [] then []
    else
      var last := frames[|frames| - 1];
      ChunkPayloads(frames[..|frames| - 1]) + (if last.Chunk? then [last.bytes] else [])
  }
}
