// Shared vocabulary of the xs4go model: Go's fixed-width integers, byte
// strings, the wire frame (cmd.XsCommand as a value), and the error values
// every operation can return.
module Types {

  /** Go's uint8, uint16 and uint32. */
  type byte = x: int | 0 <= x < 0x100
  type uint16 = x: int | 0 <= x < 0x1_0000
  type uint32 = x: int | 0 <= x < 0x1_0000_0000

  /** A Go string: an arbitrary sequence of bytes. */
  type Bytes = seq<byte>

  const MaxUint32: uint32 := 0xFFFF_FFFF

  datatype Option<T> = None | Some(value: T)

  /**
   * One protocol frame: an 8-bit command, two 8-bit arguments, a main
   * payload and a secondary payload (the struct XsCommand of cmd/cmd.go).
   */
  datatype Frame = Frame(cmd: byte, arg1: byte, arg2: byte, buf: Bytes, buf1: Bytes)

  /** The zero value of XsCommand, what `new(cmd.XsCommand)` yields. */
  const EmptyFrame: Frame := Frame(0, 0, 0, [], [])

  /** The kind of run-time panic a Go expression raises. */
  datatype PanicKind = TypeAssertion | IndexOutOfRange | NilDereference

  datatype Error =
    | InvalidResponseData                  // a frame shorter than its 8-byte header
    | InvalidBufferLength                  // declared payload longer than the frame
    | FormatLength(formats: nat, args: nat) // Pack: format and arguments differ in length
    | InvalidPackType(index: nat)          // Pack: argument is not an integer
    | UnexpectedEof                        // binary.Read ran out of input
    | NotConnected                         // no open socket
    | WriteFailed                          // the socket refused the write
    | RemoteError(message: Bytes)          // the server answered XS_CMD_ERR
    | UnexpectedReply(reply: Frame)        // wrong reply command or argument
    | NoMoreData                           // fewer than 8 header bytes arrived
    | ReadDataError                        // a payload arrived short
    | NotResultBegin                       // GetSearchResponse on a frame that is not RESULT_BEGIN
    | UnexpectedSearchReply(reply: Frame)  // an unknown frame inside a result stream
    | MissingProjectName
    | DuplicateField(kind: Bytes, name: Bytes, other: Bytes)
    | MissingIdField
    | MissingPrimaryKey(field: Bytes)
    | UndefinedField(field: Bytes)
    | Panic(what: PanicKind)               // a Go run-time panic

  datatype Result<T> = Ok(value: T) | Err(error: Error)

  /** A Dafny string literal of 8-bit characters as Go bytes. */
  function Ascii(s: string): (r: Bytes)
    requires forall i :: 0 <= i < |s| ==> s[i] as int < 0x100
    ensures |r| == |s| && forall i :: 0 <= i < |s| ==> r[i] == s[i] as int
  {
    seq(|s|, i requires 0 <= i < |s| => s[i] as int)
  }
}
