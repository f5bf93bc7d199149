# A verified model of a peer-to-peer file-sharing session

The model covers the logic of a browser application in which two peers exchange a
file over a direct data connection. One peer (the initiator) dials the other by a
four-digit peer id. The other peer (the responder) accepts or rejects the call.
Once connected, the initiator streams the file in 256 KiB chunks and the
responder reassembles it and offers it for download. The model covers:

- the chunked transfer encoder (`sendFile` in `src/components/file-sender.tsx`),
  as a method with a `while` loop over the read offset, proved equal to a
  declarative specification of the frame sequence;
- the chunked transfer decoder (`handleData` in `src/components/file-receiver.tsx`),
  as a class whose `HandleData` method is one atomic transition, specified by a
  pure transition function `Step` on a state value;
- the round trip: when the encoder's frames are fed in order to a fresh
  decoder, the decoder reassembles the file under the corrected completion
  rule (see ## Findings); as written the blob lacks the last chunk;
- the mounted call/session state machine (`src/components/home.tsx`), with its
  render gating that decides which transfer side is active;
- the older, unmounted call machine (`src/App.tsx`) and the older single-frame
  protocol (`src/components/FileSender.tsx`, `src/components/FileReceiver.tsx`).

Files and modules: `Common.dfy` holds the shared values (options, bytes, blobs
as concatenations, progress as an exact ratio, call events). `Frames.dfy` holds
the wire frames and the receiver's dispatch. Then one module per source file:
`ChunkedSender.dfy`, `ChunkedReceiver.dfy`, `Session.dfy`, `LegacySession.dfy`
and `LegacyTransfer.dfy`. `Transfer.dfy` connects the two chunked sides.

Modelling choices:
- The data channel is a sink. `SendFile` returns the sequence of frames it
  hands to `connection.send`. Each connection event (`open`, `close`,
  `error`, an incoming connection) is a method call on the component class.
- A connection is an opaque identifier (`ConnId`). The identifier a dial
  returns is a parameter of `ConnectToPeer`.
- The handlers registered on a connection capture a flag at registration.
  In home.tsx this is `isSender`; in App.tsx it is which handler set was
  used. The model keeps these flags as a map `listeners` from connection to
  flag. An event therefore acts the way that connection's own handlers
  would.
- Progress values are exact ratios. In the source they are floating point.
- `Math.random` in `generateRandomPin` becomes an integer `draw` in [0, 9000),
  which stands for `Math.floor(Math.random() * 9000)`.
- Every React handler invocation is one atomic transition. So the receiver's
  closure sees the state that the previous message left behind.

On these points the code behaves as follows, and the model follows it:
- The code sends a final `{done: true}` frame. The receiver ignores it.
- Sender progress is not clamped. It exceeds 100% whenever the size is not a
  multiple of the chunk size (`ProgressReportsShape`).
- A chunk that arrives before any start frame is not dropped. It is appended
  and counted, but it never completes a file (`NoCompletionBeforeStart`).
- An empty file announces zero chunks. The code never builds a blob for it:
  the completion test `count + 1 == totalChunks` cannot hold when the total
  is 0. So no download is offered (`RoundTrip`, `SendAndReceive`).
- Accept and reject from the wrong state are silent no-ops, not state errors
  (`AcceptRejectGuards`).
- The responder's `open` event does not connect until the user accepts
  (home.tsx). In App.tsx the same event connects before any accept
  (`OpenConnectsBeforeAccept`).
- A call that arrives during a live session replaces the held connection
  but leaves `connected` set. So the receiver is mounted on the new
  connection and registers its data handler at once, before any accept and
  with the dialog still up (`IncomingDuringSessionMountsReceiver`).

## Model

| member | source | states |
|---|---|---|
| `Common.Concat` | src/components/file-receiver.tsx:41 | a blob built from a list of chunks has the summed length of the chunks |
| `Frames.Classify` | src/components/file-receiver.tsx:23-32 | the handler's dispatch: a truthy `start` makes a start frame even when a chunk is also present; otherwise a present `fileChunk` makes a chunk frame carrying exactly those bytes |
| `Frames.ToMessage` | src/components/file-sender.tsx:60-80 | every object the sender builds is classified by the receiver as the very frame it encodes |
| `ChunkedSender.TotalChunks` | src/components/file-sender.tsx:44 | the chunk count is the ceiling of size / 262144: enough chunks to cover the size, one fewer would not, and zero exactly for an empty file |
| `ChunkedSender.StartFrame` | src/components/file-sender.tsx:74-80 | definition of the start object: name, size, type and `Math.ceil(size / 262144)`; stated by `EncodeShape`, `Frames.ToMessage` and `Transfer.FeedEncode` |
| `ChunkedSender.ProgressReports` | src/components/file-sender.tsx:68-69 | definition of the values passed to `setProgress` after each chunk, `offset / size` with the offset already advanced; stated by `ProgressReportsShape`, and `SendFile` is proved to produce them |
| `ChunkedSender.Slice` | src/components/file-sender.tsx:53 | definition of `file.slice(offset, offset + 262144)`, both bounds clamped to the size; its results are stated by `ChunkFrameContents` |
| `ChunkedSender.ChunkFrameAt` | src/components/file-sender.tsx:53-66 | definition of the chunk object read at `offset`: the slice, name, size, `floor(offset / 262144)` and the total; stated by `ChunkFrameContents` |
| `ChunkedSender.ChunkFrames` | src/components/file-sender.tsx:53-71 | definition of the chunk frames of a transfer, the k-th read at offset k·262144; stated by `EncodeShape` and `ChunkFrameContents` |
| `ChunkedSender.Encode` | src/components/file-sender.tsx:38-82 | definition of the whole frame sequence of a transfer; `SendFile` is proved to emit it, and `EncodeShape`, `EncodePayloads` and `Transfer.RoundTrip` state its properties |
| `ChunkedSender.TotalChunksExamples` | src/components/file-sender.tsx:9-44 | 0 bytes need 0 chunks, 1 byte and 262144 bytes need 1, and 262145 bytes need 2 |
| `ChunkedSender.SendFile` | src/components/file-sender.tsx:38-82 | the offset-driven send loop emits exactly `Encode(f)`: the start frame, one chunk frame per slice, then the done frame; it reports progress `offset / size` after each chunk |
| `ChunkedSender.HandleFileChange` | src/components/file-sender.tsx:30-36 | a transfer is sent only when a file is selected, a connection exists and this side is the initiator; otherwise nothing is sent |
| `ChunkedSender.ChunkFrameContents` | src/components/file-sender.tsx:53-66 | the k-th chunk frame carries bytes [k·262144, min((k+1)·262144, size)), has chunkIndex floor(offset/262144) = k, and repeats name, size and total |
| `ChunkedSender.ChunkLengths` | src/components/file-sender.tsx:53 | every chunk but the last is full; the last holds the remaining 1 to 262144 bytes |
| `ChunkedSender.EncodeShape` | src/components/file-sender.tsx:46-81 | exactly one start frame, first; exactly one done frame, last; totalChunks chunk frames between them |
| `ChunkedSender.EmptyFileFrames` | src/components/file-sender.tsx:44-50 | an empty file produces a start frame announcing 0 chunks, then the done frame, and nothing else |
| `ChunkedSender.ChunkPrefixPayloads` | src/components/file-sender.tsx:53-68 | the payloads of the first k chunk frames concatenate to the first min(k·262144, size) bytes of the file |
| `ChunkedSender.EncodePayloads` | src/components/file-sender.tsx:53-68 | the chunk payloads of a whole transfer, in send order, concatenate to exactly the file's bytes; there are totalChunks of them |
| `ChunkedSender.ProgressReportsShape` | src/components/file-sender.tsx:68-69 | the reported offset strictly increases, stays below size before the last chunk, reaches at least size with it, and exceeds size when size is not a multiple of 262144 |
| `ChunkedSender.OneByteOverAChunk` | src/components/file-sender.tsx:44-53 | a file of 262145 bytes is sent as two chunks of 262144 and 1 bytes |
| `ChunkedReceiver.Step` | src/components/file-receiver.tsx:22-44 | definition of one `handleData` call on a classified frame, with the blob rule as a parameter; its properties are the lemmas below and `Receiver.HandleData` is proved to follow it |
| `ChunkedReceiver.Feed` | src/components/file-receiver.tsx:22-48 | definition of the handler applied to each arriving message in order; stated by `FeedAppend`, `Transfer.FeedEncode` and `Transfer.RoundTrip` |
| `ChunkedReceiver.View` | src/components/file-receiver.tsx:89-119 | definition of the render choice: waiting text without a truthy name, else a bar while `progress < 100`, else the button if there is a blob, else the name alone; stated by `ViewMatchesState` |
| `Common.Fraction.AtLeastWhole` | src/components/file-receiver.tsx:98 | the negation of `progress < 100`, with division by zero (Infinity, or NaN for 0/0) counted as not below 100; stated by `ChunkedReceiver.ProgressFullIffReady` |
| `ChunkedReceiver.CanDownload` | src/components/file-receiver.tsx:72 | the guard of `downloadFile`: a blob and a non-empty name; stated by `Receiver.DownloadFile` and `ViewMatchesState` |
| `ChunkedReceiver.InitialInv` | src/components/file-receiver.tsx:13-19 | the mounted state satisfies the decoder invariant |
| `ChunkedReceiver.StepKeepsInv` | src/components/file-receiver.tsx:22-44 | every message keeps the invariant: count = number of chunks kept, progress = count/total once a chunk has arrived, a blob exists iff the count has reached a non-zero total, and the blob is the first total chunks concatenated; this invariant holds under the corrected completion rule (see ## Findings); as written the blob lacks the last chunk |
| `ChunkedReceiver.ProgressFullIffReady` | src/components/file-receiver.tsx:34-43 | for any state satisfying the invariant: with a non-zero announced total, `progress < 100` fails exactly when the blob exists, so under the corrected completion rule (see ## Findings) no partial file is offered as complete (as written the blob lacks the last chunk, `Transfer.AsWrittenOffersPartialFile`); with a total of 0, any chunk makes the progress a division by zero (Infinity) that stops the bar, and there is no blob |
| `ChunkedReceiver.ViewMatchesState` | src/components/file-receiver.tsx:89-119 | the download button is rendered exactly when `downloadFile` would act; the name is rendered with neither bar nor button exactly when chunks arrived against an announced total of 0 |
| `ChunkedReceiver.ZeroTotalThenChunkShowsNameOnly` | src/components/file-receiver.tsx:23-40 | a start frame announcing 0 chunks and then one chunk reach that state: the name shows, with no bar and no button |
| `ChunkedReceiver.StartResets` | src/components/file-receiver.tsx:23-31 | a start frame sets name, size and total, and resets chunks, count, progress and blob, whatever the state held before |
| `ChunkedReceiver.ChunkAppends` | src/components/file-receiver.tsx:32-37 | a chunk frame appends its bytes at the end, adds exactly 1 to the count and sets progress to count/total; its index and other fields are ignored |
| `ChunkedReceiver.BlobOnlyOnCompletion` | src/components/file-receiver.tsx:40-43 | start frames aside (they reset it to none), the blob changes only on the chunk frame that takes the count from total−1 to total |
| `ChunkedReceiver.OtherFramesIgnored` | src/components/file-receiver.tsx:23-44 | the done frame and any frame that is neither start nor chunk change nothing |
| `ChunkedReceiver.FeedAppend` | src/components/file-receiver.tsx:22-44 | handling two runs of messages one after the other is handling their concatenation |
| `ChunkedReceiver.NoCompletionBeforeStart` | src/components/file-receiver.tsx:17-40 | chunks arriving before any start frame leave the total at 0 and never produce a blob |
| `ChunkedReceiver.UnitFor` | src/components/file-receiver.tsx:61-69 | the size unit is GB from 2^30 bytes, MB from 2^20 bytes, and KB otherwise |
| `ChunkedReceiver.DisplayedQuantityRange` | src/components/file-receiver.tsx:61-69 | the number shown before rounding is below 1024 in KB and MB and at least 1 in MB and GB |
| `ChunkedReceiver.UnitMonotone` | src/components/file-receiver.tsx:61-69 | a larger size never gets a smaller unit |
| `ChunkedReceiver.Receiver.constructor` | src/components/file-receiver.tsx:13-19 | a mounted receiver is in the initial state and satisfies the invariant |
| `ChunkedReceiver.Receiver.HandleData` | src/components/file-receiver.tsx:22-44 | one handler call moves the fields exactly as `Step` does on the classified frame (intended blob rule) and keeps the invariant |
| `ChunkedReceiver.Receiver.DownloadFile` | src/components/file-receiver.tsx:71-79 | a download happens iff there is a blob and a non-empty name, and it hands over that name and blob |
| `Transfer.FeedChunkPrefix` | src/components/file-receiver.tsx:32-43 | after the start frame and k of the chunk frames, the receiver holds exactly those k payloads and counts k; the blob appears only once k reaches the total |
| `Transfer.StartSupersedes` | src/components/file-receiver.tsx:23-31 | a transfer's frames leave any receiver, including one in mid-transfer, in the state they leave a fresh one |
| `Transfer.FeedEncode` | src/components/file-sender.tsx:44-81 | the exact receiver state after a complete transfer, under either blob rule |
| `Transfer.RoundTrip` | src/components/file-receiver.tsx:32-43 | after all of the encoder's frames, in order, the count equals totalChunks, the chunks concatenate to the file, the name is kept, and the blob is the file for every non-empty file; under the corrected completion rule (see ## Findings); as written the blob lacks the last chunk |
| `Transfer.AsWrittenBlobLacksLastChunk` | src/components/file-receiver.tsx:40-42 | as written, the blob of every non-empty file holds only the bytes before its last chunk, and so is never the file |
| `Transfer.AsWrittenOffersPartialFile` | src/components/file-receiver.tsx:40-119 | as written, every non-empty named file ends with the download button shown and a download possible, for a blob that is not the file: a partial file is offered as complete |
| `Transfer.AsWrittenOneByteFile` | src/components/file-receiver.tsx:40-42 | as written, a one-byte file arrives as an empty blob |
| `Transfer.ViewAfterTransfer` | src/components/file-receiver.tsx:89-119 | under the corrected completion rule, after a complete transfer of a named file the responder shows the download button if the file is non-empty, and a bar stuck at 0% if it is empty |
| `Transfer.InterleavedSendsMixFiles` | src/components/file-sender.tsx:30-36 | a second file picked during a transfer starts a second stream on the same channel; in the order start(a), chunk 1 of a, start(b), chunk 2 of a, the receiver offers under b's name the tail of a by the intended rule, and an empty blob as the handler is written |
| `Transfer.PartialTransferNotReady` | src/components/file-receiver.tsx:40-43 | a transfer cut off before its last chunk never produced a blob |
| `Transfer.SendAndReceive` | src/components/file-sender.tsx:57-81 | the sender's objects handed one by one to a fresh receiver's handler make the download offer exactly (name, bytes) of a non-empty file with a non-empty name, and nothing otherwise; under the corrected completion rule (see ## Findings); as written the blob lacks the last chunk |
| `Session.TransferShown` | src/components/home.tsx:159-164 | the sender and receiver components are rendered exactly when `connected` and a connection is held |
| `Session.DialogShown` | src/components/home.tsx:150-157 | the request dialog is rendered exactly when `showModal` and a connection is held |
| `Session.ConnectFormShown` | src/components/home.tsx:119-148 | the peer-id form is rendered exactly when not connected |
| `Session.SenderActive` | src/components/file-sender.tsx:84 | the sender renders and can send only on the initiator, once the transfer is shown; stated by `ActiveSideMatchesDirection` |
| `Session.ReceiverActive` | src/components/file-receiver.tsx:47-52 | the receiver registers its data handler only on the responder, once the transfer is shown; stated by `ActiveSideMatchesDirection` |
| `Session.OnIncoming` | src/components/home.tsx:34-39 | definition of the peer's `connection` handler; stated by `IncomingCall` and `StepKeepsInv` |
| `Session.ConnectToPeer` | src/components/home.tsx:51-59 | definition of `connectToPeer` behind its `peer && remotePeerId` guard; stated by `DialThenOpen` and `StepKeepsInv` |
| `Session.OnOpen` | src/components/home.tsx:62-66 | definition of the `open` handler with its captured `isSender`; stated by `ResponderWaitsForAccept`, `DialThenOpen` and `IncomingThenAccept` |
| `Session.OnCloseOrError` | src/components/home.tsx:72-81 | definition of the `close` and `error` handlers; stated by `CloseOrErrorTearsDown` |
| `Session.AcceptCall` | src/components/home.tsx:84-89 | definition of `acceptCall`; stated by `AcceptRejectGuards` and `IncomingThenAccept` |
| `Session.RejectCall` | src/components/home.tsx:91-97 | definition of `rejectCall`; stated by `AcceptRejectGuards` and `RejectedCallNeverTransfers` |
| `Session.ClosedByReject` | src/components/home.tsx:92-93 | the connection `rejectCall` closes, the held one; stated by `Home.RejectCall` |
| `Session.Step` | src/components/home.tsx:26-97 | definition of one event dispatched to its handler; stated by `StepKeepsInv` |
| `Session.Run` | src/components/home.tsx:26-97 | definition of a sequence of events handled in order; stated by `RunKeepsInv`, `ActiveSideMatchesDirection` and `ResponderWaitsForAccept` |
| `Session.StepKeepsInv` | src/components/home.tsx:34-97 | every handler keeps the recorded role equal to the role the current connection's handlers were registered with |
| `Session.RunKeepsInv` | src/components/home.tsx:34-97 | the role invariant holds after any sequence of events |
| `Session.ActiveSideMatchesDirection` | src/components/home.tsx:159-164 | once the transfer is shown exactly one side is active: the sender on a connection this side dialled, the receiver on one it was dialled on |
| `Session.ResponderWaitsForAccept` | src/components/home.tsx:61-66 | a side that has dialled nobody is never connected by any events without an accept: `open` on a connection it was dialled on does not connect it |
| `Session.IncomingCall` | src/components/home.tsx:34-39 | an incoming connection replaces any held connection, shows the dialog and makes this side the responder |
| `Session.DialThenOpen` | src/components/home.tsx:51-66 | dialling without a peer or with an empty remote id changes nothing; otherwise dialling and `open` connect as initiator with the dialog hidden and the sender active |
| `Session.IncomingDuringSessionMountsReceiver` | src/components/home.tsx:34-39 | a call arriving during a live session replaces the connection while `connected` stays set, so the receiver is active on the new connection with the dialog still up, before any accept |
| `Session.IncomingThenAccept` | src/components/home.tsx:62-89 | on the responder `open` leaves it unconnected with the dialog up; accepting then connects it as the receiver |
| `Session.AcceptRejectGuards` | src/components/home.tsx:84-97 | accept and reject do nothing without a connection; accept connects and hides the dialog; reject closes the held connection, drops it and hides the dialog |
| `Session.CloseOrErrorTearsDown` | src/components/home.tsx:72-81 | `close` or `error` on a registered connection disconnects and drops the connection from any state; the role and the dialog flag are untouched |
| `Session.RejectedCallNeverTransfers` | src/components/home.tsx:150-164 | an incoming call that is rejected never shows a transfer component, and after the reject the dialog is gone too |
| `Session.StaleDialogOnDialler` | src/components/home.tsx:34-66 | after an incoming call that closed, dialling out shows the incoming-call dialog for the dialled connection |
| `Session.RejectWhileConnectedShowsNothing` | src/components/home.tsx:91-164 | rejecting a second call that arrives while connected, before that call's `open`, leaves `connected` set with no connection: neither the form, the dialog nor a transfer is shown |
| `Session.Pin` | src/components/home.tsx:18-23 | the generated pin is a four-digit decimal string without a leading zero denoting 1000 + draw, a number in [1000, 9999] |
| `Session.Home.constructor` | src/components/home.tsx:8-16 | the mounted component is in the initial state |
| `Session.Home.Mount` | src/components/home.tsx:26-42 | mounting creates the peer under the pin drawn |
| `Session.Home.SetRemotePeerId` | src/components/home.tsx:135-136 | typing the remote id records it |
| `Session.Home.HandleIncoming` | src/components/home.tsx:34-39 | the incoming-connection handler moves the fields as `OnIncoming` and keeps the role invariant |
| `Session.Home.ConnectToPeer` | src/components/home.tsx:51-59 | `connectToPeer` moves the fields as `ConnectToPeer` and keeps the role invariant |
| `Session.Home.HandleOpen` | src/components/home.tsx:62-66 | the `open` handler moves the fields as `OnOpen` |
| `Session.Home.HandleClose` | src/components/home.tsx:72-81 | the `close` and `error` handlers both move the fields as `OnCloseOrError` |
| `Session.Home.AcceptCall` | src/components/home.tsx:84-89 | `acceptCall` moves the fields as `AcceptCall` |
| `Session.Home.RejectCall` | src/components/home.tsx:91-97 | `rejectCall` moves the fields as `RejectCall` and returns the connection it closes |
| `LegacySession.TransferShown` | src/App.tsx:209-214 | the legacy sender and receiver are rendered as soon as the peer exists; stated by `TransferShownWithoutConnection` |
| `LegacySession.ConnectFormShown` | src/App.tsx:186-196 | the remote-id form is rendered exactly when not connected |
| `LegacySession.ModalShown` | src/App.tsx:198-207 | the incoming-call modal is rendered exactly when `showModal`, whether or not a call is pending; stated by `ModalOutlivesCall` |
| `LegacySession.OnIncoming` | src/App.tsx:35-38 | definition of the peer's `connection` handler, registering the incoming handler set; stated by `OpenConnectsBeforeAccept` |
| `LegacySession.ConnectToPeer` | src/App.tsx:72-93 | definition of `connectToPeer`, registering the outgoing handler set; stated by `DialChangesOnlyListeners` |
| `LegacySession.OnOpen` | src/App.tsx:40-79 | definition of both `open` handlers; stated by `ConnectionEvents` and `ConnectedOnlyByOpenOrAccept` |
| `LegacySession.OnCloseOrError` | src/App.tsx:48-92 | definition of both `close` and `error` handler sets; stated by `ConnectionEvents` |
| `LegacySession.AcceptCall` | src/App.tsx:129-136 | definition of `acceptCall`; stated by `AcceptRejectGuards` |
| `LegacySession.RejectCall` | src/App.tsx:138-144 | definition of `rejectCall`; stated by `AcceptRejectGuards` and `ModalOutlivesCall` |
| `LegacySession.Step` | src/App.tsx:23-144 | definition of one event dispatched to its handler; stated by `ConnectionEvents` and `AcceptRejectGuards` |
| `LegacySession.Run` | src/App.tsx:23-144 | definition of a sequence of events handled in order; stated by `ConnectedOnlyByOpenOrAccept` |
| `LegacySession.OpenConnectsBeforeAccept` | src/App.tsx:35-42 | an incoming connection becomes the pending call with the modal up, and its `open` connects without any accept |
| `LegacySession.DialChangesOnlyListeners` | src/App.tsx:72-94 | dialling changes no flag and records no connection; without a peer or remote id it does nothing |
| `LegacySession.ConnectionEvents` | src/App.tsx:40-92 | on a dialled connection `open` connects and clears the pending call, while `close` and `error` clear only `connected`; on an incoming one `close` and `error` clear both |
| `LegacySession.AcceptRejectGuards` | src/App.tsx:129-144 | accept and reject do nothing without a pending call; accept connects and hides the modal; reject drops the call and hides the modal |
| `LegacySession.ConnectedOnlyByOpenOrAccept` | src/App.tsx:40-136 | no sequence of events without an `open` or an accept connects an unconnected component |
| `LegacySession.TransferShownWithoutConnection` | src/App.tsx:209-214 | sender and receiver render as soon as the peer exists, with no connection |
| `LegacySession.ModalOutlivesCall` | src/App.tsx:35-57 | a pending call whose connection closes leaves the modal up with no call behind it, and neither button changes anything |
| `LegacySession.App.constructor` | src/App.tsx:10-17 | the mounted component is in the initial state |
| `LegacySession.App.Mount` | src/App.tsx:23-60 | mounting creates the peer |
| `LegacySession.App.SetRemotePeerId` | src/App.tsx:188-193 | typing the remote id records it |
| `LegacySession.App.HandleIncoming` | src/App.tsx:35-38 | the incoming-connection handler moves the fields as `OnIncoming` |
| `LegacySession.App.ConnectToPeer` | src/App.tsx:72-93 | `connectToPeer` moves the fields as `ConnectToPeer` |
| `LegacySession.App.HandleOpen` | src/App.tsx:40-79 | the `open` handlers move the fields as `OnOpen` |
| `LegacySession.App.HandleClose` | src/App.tsx:48-92 | the `close` and `error` handlers move the fields as `OnCloseOrError` |
| `LegacySession.App.AcceptCall` | src/App.tsx:129-136 | `acceptCall` moves the fields as `AcceptCall` |
| `LegacySession.App.RejectCall` | src/App.tsx:138-144 | `rejectCall` moves the fields as `RejectCall` and returns the pending connection it closes |
| `LegacyTransfer.Target` | src/components/FileSender.tsx:25-26 | the target is the first connection of the first peer entry, and there is none when that entry is missing or empty |
| `LegacyTransfer.FileFrame` | src/components/FileSender.tsx:20-23 | definition of the single object `{file: bytes, name}` the sender builds; stated by `SendReceiveRoundTrip` |
| `LegacyTransfer.TargetIsHeld` | src/components/FileSender.tsx:25-26 | a chosen target is a connection the peer holds |
| `LegacyTransfer.EmptyFirstEntryHidesOthers` | src/components/FileSender.tsx:25-26 | only the first peer entry is looked at: if it holds no connection, connections under later entries are never chosen |
| `LegacyTransfer.HeldConnectionNotUsed` | src/components/FileSender.tsx:25-33 | a file picked while the only connection sits under the second peer entry is not sent, and the "no active connection" branch is taken |
| `LegacyTransfer.HandleFileChange` | src/components/FileSender.tsx:11-37 | nothing happens without a file; with one, either the frame `{file: bytes, name}` goes to the target connection or, without a target, nothing is sent |
| `LegacyTransfer.Truthy` | src/components/FileReceiver.tsx:27 | JavaScript truthiness, the test of `name && setFileName(name)`; stated by `ReceiveKeepsInv` and `BlobWithoutName` |
| `LegacyTransfer.CanDownload` | src/components/FileReceiver.tsx:42 | the guard of `downloadFile`: a blob and a truthy name; stated by `LegacyReceiver.DownloadFile` |
| `LegacyTransfer.HasFrameShape` | src/components/FileReceiver.tsx:15-20 | the receiver's shape check: a non-null object holding both keys `file` and `name`; stated by `SendReceiveRoundTrip` and `RejectedValuesIgnored` |
| `LegacyTransfer.Receive` | src/components/FileReceiver.tsx:13-30 | definition of one `handleData` call; `LegacyReceiver.HandleData` is proved to follow it, and the lemmas below state its properties |
| `LegacyTransfer.ReceiveKeepsInv` | src/components/FileReceiver.tsx:27 | a stored file name is always truthy |
| `LegacyTransfer.SendReceiveRoundTrip` | src/components/FileReceiver.tsx:15-27 | the sender's frame always passes the shape check and yields exactly the file's bytes and, when non-empty, its name |
| `LegacyTransfer.RejectedValuesIgnored` | src/components/FileReceiver.tsx:15-24 | a value that is not an object with both keys, or whose `file` is not a Uint8Array, changes nothing |
| `LegacyTransfer.BlobWithoutName` | src/components/FileReceiver.tsx:27-42 | a frame with an empty name stores the bytes but no name, so the download stays disabled |
| `LegacyTransfer.StaleName` | src/components/FileReceiver.tsx:25-27 | a later frame with an empty name keeps the earlier name beside the new bytes |
| `LegacyTransfer.LegacyReceiver.constructor` | src/components/FileReceiver.tsx:9-10 | the mounted receiver holds no file and no name |
| `LegacyTransfer.LegacyReceiver.HandleData` | src/components/FileReceiver.tsx:13-30 | the handler moves the fields as `Receive` and keeps the name invariant |
| `LegacyTransfer.LegacyReceiver.DownloadFile` | src/components/FileReceiver.tsx:41-50 | a download happens iff both a blob and a name are held, and it hands over that name and blob |
| `LegacyTransfer.SendAndReceive` | src/components/FileSender.tsx:15-33 | with a target connection and a non-empty name, the receiver offers exactly the picked bytes under the picked name, and nothing otherwise |

## Left out

- The peer library's signalling and data channel (`new Peer`, `peer.connect`,
  `conn.send`, `conn.on` and `off`): an external library. A channel is a
  frame sink that delivers each object unchanged, its types included (so a
  `Uint8Array` arrives as one, as FileReceiver.tsx:24 needs), its events are method calls, and a connection is an opaque id.
- Delivery through the channel is taken to be reliable and in order. The
  round trip is stated for frames that arrive in send order.
- FileReader, Blob, `URL.createObjectURL` and the anchor-click download are
  browser I/O. A file is its bytes, and a blob is the concatenation of its
  parts.
- The timing of React's state updates and effect re-registration
  (file-receiver.tsx:53-59). Each handler call is one atomic step that sees
  the state the previous step left. Bursts of messages handled before a
  re-render, which would see older state still, are not modelled.
- Floating point: progress is an exact ratio, and `toFixed` formatting
  is dropped. Only the unit choice of `formatFileSize` is kept. The
  identical copy of that function in file-sender.tsx:20-28 is
  `ChunkedReceiver.UnitFor` too.
- `Math.random`: its scaled, floored value is the parameter `draw`.
- Sizes are unbounded naturals. The 2^53 limit of JavaScript numbers is not
  modelled.
- The sender's `selectedFile`, `isSending` and its `progress` field only
  feed the display. `SendFile` returns the values passed to `setProgress`
  after each chunk (file-sender.tsx:69), but not the fields. The reset
  `setProgress(0)` at the start of `sendFile` (file-sender.tsx:40) is not in
  that sequence.
- `ChunkedSender.SendFile` is one atomic call. `handleFileChange` has no
  `isSending` guard and the file input stays enabled (file-sender.tsx:30-36,
  101-113), so a file picked during a transfer starts a second `sendFile`
  chain. The model does not interleave two chains. It shows the effect of
  one interleaving on the receiver (`Transfer.InterleavedSendsMixFiles`).
- The initiator connects on its own `open` event, but the responder mounts
  its receiver only after accepting (home.tsx:62-66, 84-89, 159-164). Frames
  sent before that reach only the logging data handler and are lost. That
  timing is not modelled: the round trip assumes the receiver is mounted
  before the start frame. A receiver mounted mid-transfer gets chunks
  without a start frame and never completes (`NoCompletionBeforeStart`).
- The `console.log` data handlers that home.tsx and App.tsx register
  (home.tsx:68-70, App.tsx:44-46, 81-83) have no effect on state.
- The legacy receiver registers its handler on every incoming connection
  (FileReceiver.tsx:32-34). `LegacyTransfer.SendAndReceive` delivers the
  frame directly, so which connection carries it is not modelled.
- A JavaScript field that is absent (undefined) in a received chunked-protocol
  `Message` is read as `false`, `None`, `""` or `0`.
- QR scanning and generation, the video element and the `beforeunload`
  warning (App.tsx:96-127, 146-160, 166-179; home.tsx:99-113) are UI and
  browser APIs.
- The peer's own `open` event that records the local id (home.tsx:30-32,
  App.tsx:26-28) and `peer.destroy` on unmount are not modelled.
- src/components/request-dialog.tsx is presentation only. vite.config.ts and
  src/main.tsx (bootstrap and the Buffer polyfill) are not part of this model.

## Findings

| source | as written | input that shows it | evidently intended | confidence | as-written member | corrected member |
|---|---|---|---|---|---|---|
| src/components/file-receiver.tsx:40-42 | the completing chunk builds the blob from `receivedChunks` as the handler's closure last saw it, which does not yet hold this message's chunk | any non-empty file; for the one-byte file [0] the blob is empty | the blob is every received chunk, the completing one included | high, proved in the model; not executed | `Transfer.AsWrittenBlobLacksLastChunk` | `Transfer.RoundTrip` |
