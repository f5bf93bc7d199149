/** The older single-frame protocol (FileSender.tsx and FileReceiver.tsx), no
    longer mounted: the whole file goes out as one `{file, name}` object, and
    the receiver checks the object's shape before keeping its bytes. */
module LegacyTransfer {
  import opened Common

  /** A received value, as far as the receiver's checks can tell values apart.
      A Uint8Array is a `JsBytes`; `typeof` gives "object" for it, for
      `JsNull` and for `JsObject`. */
  datatype Js =
    | JsUndefined
    | JsNull
    | JsBool(b: bool)
    | JsNumber(n: int)
    | JsString(s: string)
    | JsBytes(bytes: Bytes)
    | JsObject(fields: map<string, Js>)

  /** JavaScript truthiness (NaN is not modelled). */
  predicate Truthy(v: Js)
  {
    match v
    case JsUndefined => false
    case JsNull => false
    case JsBool(b) => b
    case JsNumber(n) => n != 0
    case JsString(s) => s != ""
    case JsBytes(_) => true
    case JsObject(_) => true
  }

  /** The object the sender builds (FileSender.tsx:20-23). */
  function FileFrame(f: File): Js
  {
    JsObject(map["file" := JsBytes(f.data), "name" := JsString(f.name)])
  }

  /** `Object.values(peer.connections)[0]?.[0]`: the first data connection
      recorded for the first remote peer, if that peer has any. */
  function Target(connections: seq<seq<ConnId>>): (r: Option<ConnId>)
    ensures r.Some? <==> |connections| > 0 && |connections[0]| > 0
    ensures r.Some? ==> r.value == connections[0][0]
  {
    if |connections| > 0 && |connections[0]| > 0 then Some(connections[0][0]) else None
  }

  /** A chosen target is a connection the peer holds. */
  lemma TargetIsHeld(connections: seq<seq<ConnId>>)
    ensures Target(connections).Some? ==>
      exists i :: 0 <= i < |connections| && Target(connections).value in connections[i]
  {
    if Target(connections).Some? {
      assert Target(connections).value in connections[0];
    }
  }

  /** Only the first peer entry is looked at: when it holds no connection,
      every connection held under a later entry is ignored. */
  lemma EmptyFirstEntryHidesOthers(rest: seq<seq<ConnId>>)
    ensures Target([[]] + rest) == None
  {
  }

  /** What `handleFileChange` does once the file has been read. */
  datatype SendOutcome =
    | NoFileSelected
    | NoActiveConnection
    | Sent(conn: ConnId, frame: Js)

  /** `handleFileChange` (FileSender.tsx:11-37): nothing without a file; with
      one, it is sent as a single frame on the target connection, or an error
      is logged when there is none. */
  function HandleFileChange(file: Option<File>, connections: seq<seq<ConnId>>): (r: SendOutcome)
    ensures file.None? <==> r.NoFileSelected?
    ensures file.Some? && Target(connections).None? <==> r.NoActiveConnection?
    ensures r.Sent? ==> file.Some? && Target(connections) == Some(r.conn) && r.frame == FileFrame(file.value)
  {
    if file.None? then NoFileSelected
    else match Target(connections)
      case None => NoActiveConnection
      case Some(c) => Sent(c, FileFrame(file.value))
  }

  /** A file picked while a connection is held under the second peer entry,
      the first holding none, is not sent. */
  lemma HeldConnectionNotUsed(f: File, c: ConnId)
    ensures HandleFileChange(Some(f), [[], [c]]) == NoActiveConnection
  {
    EmptyFirstEntryHidesOthers([[c]]);
  }

  /** The shape check (FileReceiver.tsx:15-20): a non-null object with keys
      `file` and `name`. */
  predicate HasFrameShape(v: Js)
  {
    v.JsObject? && "file" in v.fields && "name" in v.fields
  }

  /** The state of the receiving component. `fileName` holds whatever `name`
      the frame carried, cast but not checked. */
  datatype LegacyReceiverState = LegacyReceiverState(receivedFile: Option<Bytes>, fileName: Option<Js>)

  const Initial := LegacyReceiverState(None, None)

  /** `handleData` (FileReceiver.tsx:13-30): a frame of the right shape whose
      `file` is a Uint8Array replaces the received blob; its `name` replaces the
      file name only when it is truthy. Anything else changes nothing. */
  function Receive(s: LegacyReceiverState, v: Js): LegacyReceiverState
  {
    if HasFrameShape(v) && v.fields["file"].JsBytes? then
      LegacyReceiverState(Some(v.fields["file"].bytes),
                          if Truthy(v.fields["name"]) then Some(v.fields["name"]) else s.fileName)
    else s
  }

  /** `downloadFile` acts only with both a blob and a name (FileReceiver.tsx:42). */
  predicate CanDownload(s: LegacyReceiverState)
  {
    s.receivedFile.Some? && s.fileName.Some? && Truthy(s.fileName.value)
  }

  /** A stored name is always truthy. */
  ghost predicate Inv(s: LegacyReceiverState)
  {
    s.fileName.Some? ==> Truthy(s.fileName.value)
  }

  lemma ReceiveKeepsInv(s: LegacyReceiverState, v: Js)
    requires Inv(s)
    ensures Inv(Receive(s, v))
  {
  }

  /** The frame the sender builds always passes the receiver's checks and
      hands over exactly the file's bytes and name (the name only when it is
      non-empty). */
  lemma SendReceiveRoundTrip(s: LegacyReceiverState, f: File)
    ensures HasFrameShape(FileFrame(f))
    ensures Receive(s, FileFrame(f)).receivedFile == Some(f.data)
    ensures f.name != "" ==> Receive(s, FileFrame(f)).fileName == Some(JsString(f.name))
    ensures f.name == "" ==> Receive(s, FileFrame(f)).fileName == s.fileName
  {
  }

  /** Values without the shape, and frames whose `file` is not a Uint8Array,
      change nothing. */
  lemma RejectedValuesIgnored(s: LegacyReceiverState, v: Js)
    requires !HasFrameShape(v) || !v.fields["file"].JsBytes?
    ensures Receive(s, v) == s
  {
  }

  /** A frame with an empty name stores the blob but leaves no name behind for
      a fresh receiver, so the download stays disabled. */
  lemma BlobWithoutName(data: Bytes)
    ensures var t := Receive(Initial, FileFrame(File("", "", data)));
      t.receivedFile == Some(data) && t.fileName.None? && !CanDownload(t)
  {
  }

  /** A later frame with an empty name keeps the earlier file's name next to
      the new bytes. */
  lemma StaleName(first: File, second: File)
    requires first.name != "" && second.name == ""
    ensures var t := Receive(Receive(Initial, FileFrame(first)), FileFrame(second));
      t.receivedFile == Some(second.data) && t.fileName == Some(JsString(first.name))
  {
  }

  /** The receiving component. */
  class LegacyReceiver {
    var receivedFile: Option<Bytes>
    var fileName: Option<Js>

    function State(): LegacyReceiverState
      reads this
    {
      LegacyReceiverState(receivedFile, fileName)
    }

    ghost predicate Valid()
      reads this
    {
      Inv(State())
    }

    constructor ()
      ensures State() == Initial && Valid()
    {
      receivedFile, fileName := None, None;
    }

    method HandleData(data: Js)
      requires Valid()
      modifies this
      ensures Valid() && State() == Receive(old(State()), data)
    {
      if data.JsObject? && "file" in data.fields && "name" in data.fields {
        var fileData := data.fields["file"];
        var name := data.fields["name"];
        if fileData.JsBytes? {
          receivedFile := Some(fileData.bytes);
          if Truthy(name) {
            fileName := Some(name);
          }
        }
      }
    }

    /** `downloadFile`: the name and bytes handed to the browser, if any. */
    method DownloadFile() returns (download: Option<(Js, Bytes)>)
      ensures download.Some? <==> CanDownload(State())
      ensures download.Some? ==> download.value == (fileName.value, receivedFile.value)
    {
      if receivedFile.Some? && fileName.Some? && Truthy(fileName.value) {
        download := Some((fileName.value, receivedFile.value));
      } else {
        download := None;
      }
    }
  }

  /** A file picked on one side of a connection and received on the other:
      the receiver offers exactly the picked bytes under the picked name. */
  method SendAndReceive(f: File, connections: seq<seq<ConnId>>) returns (download: Option<(Js, Bytes)>)
    ensures Target(connections).Some? && f.name != "" ==> download == Some((JsString(f.name), f.data))
    ensures Target(connections).None? || f.name == "" ==> download == None
  {
    var receiver := new LegacyReceiver();
    var outcome := HandleFileChange(Some(f), connections);
    if outcome.Sent? {
      receiver.HandleData(outcome.frame);
    }
    download := receiver.DownloadFile();
  }
}
