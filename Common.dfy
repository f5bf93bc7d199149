/** Values shared by every part of the model: optional values, bytes,
    blobs as concatenations of byte strings, and progress as an integer ratio. */
module Common {

  datatype Option<+T> = None | Some(value: T)

  /** One byte of a file: the element type of a JavaScript Uint8Array. */
  type Byte = bv8

  type Bytes = seq<Byte>

  /** A file the user selected: its name, its MIME type and its bytes. */
  datatype File = File(name: string, fileType: string, data: Bytes)
  {
    /** `file.size`: the number of bytes. */
    function Size(): nat { |data| }
  }

  /** A data connection handed out by the peer library, known by identity only. */
  type ConnId = nat

  /** What can happen to a call component: the peer object is created, the
      user edits the remote id, a peer dials in, the user dials out (the
      library hands back `conn`), a connection's `open`, `close` or `error`
      event fires, or the user accepts or rejects the incoming call. */
  datatype CallEvent =
    | PeerCreated
    | RemoteIdTyped(id: string)
    | Incoming(conn: ConnId)
    | Dial(conn: ConnId)
    | Opened(conn: ConnId)
    | Closed(conn: ConnId)
    | Failed(conn: ConnId)
    | AcceptPressed
    | RejectPressed

  /** A Blob built from a list of byte arrays holds their concatenation. */
  function Concat(parts: seq<Bytes>): (r: Bytes)
    ensures |r| == TotalLength(parts)
  {
    if parts == [] then [] else Concat(parts[..|parts| - 1]) + parts[|parts| - 1]
  }

  /** The sum of the lengths of `parts`. */
  function TotalLength(parts: seq<Bytes>): nat
  {
    if parts == [] then 0 else TotalLength(parts[..|parts| - 1]) + |parts[|parts| - 1]|
  }

  /** Appending one part to the list appends its bytes to the blob. */
  lemma ConcatSnoc(parts: seq<Bytes>, last: Bytes)
    ensures Concat(parts + [last]) == Concat(parts) + last
  {
    assert (parts + [last])[..|parts|] == parts;
  }

  /** A progress value written as `num / den * 100` in the source, kept exact.
      `den == 0` stands for the division by zero the source would perform. */
  datatype Fraction = Fraction(num: nat, den: nat)
  {
    /** The source's test `progress < 100` fails: `num / den * 100` is at
        least 100, or it is a division by zero, whose result (Infinity for
        `num > 0`, NaN for `num == 0`) is not below 100 either. */
    predicate AtLeastWhole() { den == 0 || num >= den }
  }

  /** The progress value 0 that both transfer components start from. */
  const ZeroProgress := Fraction(0, 1)
}
