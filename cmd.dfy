// The wire frame codec of cmd/cmd.go and the frame builders of
// cmd/use_project_cmd.go and cmd/index_set_db_cmd.go.
//
// A frame is an 8-byte header -- command, Arg1, Arg2, the length of Buf1
// (one byte), the length of Buf (four bytes, in the connection's byte
// order) -- followed by Buf and then Buf1.
module Command {
  import opened Types
  import opened Codes
  import opened GoStrings

  // ---------------------------------------------------------------------
  // Fixed-width integers (encoding/binary).

  function LittleEndian32(n: uint32): (r: Bytes)
    ensures |r| == 4
  {
    var m := n as int;
    [m % 0x100, (m / 0x100) % 0x100, (m / 0x100 / 0x100) % 0x100, m / 0x100 / 0x100 / 0x100]
  }

  function ReadLittleEndian32(b: Bytes): uint32
    requires |b| == 4
  {
    var b0, b1, b2, b3 := b[0] as int, b[1] as int, b[2] as int, b[3] as int;
    b0 + 0x100 * (b1 + 0x100 * (b2 + 0x100 * b3))
  }

  function BigEndian32(n: uint32): (r: Bytes)
    ensures |r| == 4
  {
    var le := LittleEndian32(n);
    [le[3], le[2], le[1], le[0]]
  }

  function ReadBigEndian32(b: Bytes): uint32
    requires |b| == 4
  {
    ReadLittleEndian32([b[3], b[2], b[1], b[0]])
  }

  function BigEndian16(n: uint16): (r: Bytes)
    ensures |r| == 2
  {
    var m := n as int;
    [m / 0x100, m % 0x100]
  }

  /** The four length bytes of a header, in the requested byte order. */
  function Uint32Bytes(n: uint32, bigEndian: bool): (r: Bytes)
    ensures |r| == 4
  {
    if bigEndian then BigEndian32(n) else LittleEndian32(n)
  }

  function ReadUint32(b: Bytes, bigEndian: bool): uint32
    requires |b| == 4
  {
    if bigEndian then ReadBigEndian32(b) else ReadLittleEndian32(b)
  }

  /** Reading back four written length bytes gives the length. */
  lemma Uint32RoundTrip(n: uint32, bigEndian: bool)
    ensures ReadUint32(Uint32Bytes(n, bigEndian), bigEndian) == n
  {
    var q1 := n / 0x100;
    var q2 := q1 / 0x100;
    assert n == n % 0x100 + 0x100 * q1;
    assert q1 == q1 % 0x100 + 0x100 * q2;
    assert q2 == q2 % 0x100 + 0x100 * (q2 / 0x100);
  }

  /** Every four bytes are the encoding of the value read from them. */
  lemma ReadUint32RoundTrip(b: Bytes, bigEndian: bool)
    requires |b| == 4
    ensures Uint32Bytes(ReadUint32(b, bigEndian), bigEndian) == b
  {
    var le := if bigEndian then [b[3], b[2], b[1], b[0]] else b;
    var n := ReadLittleEndian32(le);
    var b1, b2, b3 := le[1] as int, le[2] as int, le[3] as int;
    assert n / 0x100 == b1 + 0x100 * (b2 + 0x100 * b3);
    assert n / 0x100 / 0x100 == b2 + 0x100 * b3;
    assert LittleEndian32(n) == le;
  }

  // ---------------------------------------------------------------------
  // The 16-bit argument and the frame builders.

  /** GetArg: Arg1 is the high byte and Arg2 the low byte. */
  function GetArg(f: Frame): uint16
  {
    f.arg1 * 0x100 + f.arg2
  }

  /** The frame with its two arguments set from one 16-bit value (SetArg). */
  function WithArg(f: Frame, arg: uint16): (r: Frame)
    ensures GetArg(r) == arg
    ensures r.cmd == f.cmd && r.buf == f.buf && r.buf1 == f.buf1
  {
    var a := arg as int;
    f.(arg1 := a / 0x100, arg2 := a % 0x100)
  }

  /** Setting the argument a frame already carries changes nothing. */
  lemma WithOwnArg(f: Frame)
    ensures WithArg(f, GetArg(f)) == f
  {
  }

  /** NewCommand(cmd, arg, buf...): the optional strings fill Buf, then Buf1. */
  function NewCommand(cmd: byte, arg: uint16, bufs: seq<Bytes>): (r: Frame)
    ensures r.cmd == cmd && GetArg(r) == arg
    ensures r.buf == (if |bufs| >= 1 then bufs[0] else [])
    ensures r.buf1 == (if |bufs| >= 2 then bufs[1] else [])
  {
    var f := WithArg(Frame(cmd, 0, 0, [], []), arg);
    if |bufs| >= 1 then
      if |bufs| >= 2 then f.(buf := bufs[0], buf1 := bufs[1]) else f.(buf := bufs[0])
    else f
  }

  /** NewCommand2(cmd, arg1, arg2, buf...). */
  function NewCommand2(cmd: byte, arg1: byte, arg2: byte, bufs: seq<Bytes>): (r: Frame)
    ensures r.cmd == cmd && r.arg1 == arg1 && r.arg2 == arg2
    ensures r.buf == (if |bufs| >= 1 then bufs[0] else [])
    ensures r.buf1 == (if |bufs| >= 2 then bufs[1] else [])
  {
    var f := Frame(cmd, arg1, arg2, [], []);
    if |bufs| >= 1 then
      if |bufs| >= 2 then f.(buf := bufs[0], buf1 := bufs[1]) else f.(buf := bufs[0])
    else f
  }

  /** The two builders agree once the 16-bit argument is split into bytes. */
  lemma NewCommandSplitsArg(cmd: byte, arg: uint16, bufs: seq<Bytes>)
    ensures NewCommand(cmd, arg, bufs) == NewCommand2(cmd, arg / 0x100, arg % 0x100, bufs)
  {
  }

  /** UseProjectWithHomeCmd: XS_CMD_USE naming the project, and the home directory if one is given. */
  function UseProjectWithHomeCmd(project: Bytes, home: Bytes): (r: Frame)
    ensures r.cmd == CmdUse && GetArg(r) == 0
    ensures r.buf == project && r.buf1 == home
  {
    var f := Frame(CmdUse, 0, 0, project, []);
    if |home| > 0 then f.(buf1 := home) else f
  }

  /** UseProjectCmd: the USE frame without a home directory. */
  function UseProjectCmd(project: Bytes): (r: Frame)
    ensures r == NewCommand(CmdUse, 0, [project])
  {
    UseProjectWithHomeCmd(project, [])
  }

  /** IndexSetDbCmd: XS_CMD_INDEX_SET_DB naming the database. */
  function IndexSetDbCmd(db: Bytes): (r: Frame)
    ensures r == NewCommand(CmdIndexSetDb, 0, [db])
  {
    Frame(CmdIndexSetDb, 0, 0, db, [])
  }

  /** MaxLimit: 10 by default, otherwise the requested limit clamped to 20. */
  function MaxLimit(limits: seq<byte>): (r: byte)
    ensures |limits| == 0 ==> r == 10
    ensures |limits| > 0 ==> r <= 20 && r <= limits[0]
    ensures |limits| > 0 && limits[0] <= 20 ==> r == limits[0]
    ensures |limits| > 0 && limits[0] > 20 ==> r == 20
  {
    if |limits| > 0 then (if limits[0] > 20 then 20 else limits[0]) else 10
  }

  // ---------------------------------------------------------------------
  // Encoding and decoding.

  /** Buf1 as Encode sends it: its first 255 bytes. */
  function Truncated(buf1: Bytes): (r: Bytes)
    ensures |r| <= 0xFF && |r| <= |buf1| && r == buf1[..|r|]
    ensures |buf1| <= 0xFF ==> r == buf1
  {
    if |buf1| > 0xFF then buf1[..0xFF] else buf1
  }

  /** The frame as Encode leaves its receiver: Buf1 cut to 255 bytes. */
  function Sent(f: Frame): Frame
  {
    f.(buf1 := Truncated(f.buf1))
  }

  function Header(f: Frame, bigEndian: bool): (r: Bytes)
    ensures |r| == 8
  {
    [f.cmd, f.arg1, f.arg2, |Truncated(f.buf1)|] + Uint32Bytes(|f.buf| % 0x1_0000_0000, bigEndian)
  }

  /** The bytes Encode produces for a frame (its length field wraps at 2^32). */
  function EncodeFrame(f: Frame, bigEndian: bool): (r: Bytes)
    ensures |r| == 8 + |f.buf| + |Truncated(f.buf1)|
    ensures r[..4] == [f.cmd, f.arg1, f.arg2, |Truncated(f.buf1)|]
    ensures r[4..8] == Uint32Bytes(|f.buf| % 0x1_0000_0000, bigEndian)
    ensures r[8..8 + |f.buf|] == f.buf && r[8 + |f.buf|..] == Truncated(f.buf1)
  {
    Header(f, bigEndian) + f.buf + Truncated(f.buf1)
  }

  /**
   * Decode into a receiver: the state the receiver is left in, and the
   * error if any. Cmd, Arg1 and Arg2 are overwritten before the length
   * check, Buf only when the declared length is non-zero, and Buf1 (the
   * whole remainder) only when its declared length is non-zero.
   */
  function DecodeInto(f: Frame, data: Bytes, bigEndian: bool): (r: (Frame, Option<Error>))
    ensures |data| < 8 ==> r == (f, Some(InvalidResponseData))
    ensures |data| >= 8 ==> r.0.cmd == data[0] && r.0.arg1 == data[1] && r.0.arg2 == data[2]
    ensures r.1.None? <==> |data| >= 8 && ReadUint32(data[4..8], bigEndian) <= |data| - 8
    ensures |data| >= 8 && r.1.Some? ==>
      r.1 == Some(InvalidBufferLength) && r.0.buf == f.buf && r.0.buf1 == f.buf1
    ensures r.1.None? ==>
      var len := ReadUint32(data[4..8], bigEndian);
      r.0.buf == (if len > 0 then data[8..8 + len] else f.buf)
      && r.0.buf1 == (if data[3] > 0 then data[8 + len..] else f.buf1)
  {
    if |data| < 8 then (f, Some(InvalidResponseData))
    else
      var g := f.(cmd := data[0], arg1 := data[1], arg2 := data[2]);
      var lenOfbuf1 := data[3];
      var lenOfbuf := ReadUint32(data[4..8], bigEndian);
      if lenOfbuf > |data| - 8 then (g, Some(InvalidBufferLength))
      else
        var idx := 8 + lenOfbuf;
        var g1 := if lenOfbuf > 0 then g.(buf := data[8..idx]) else g;
        var g2 := if lenOfbuf1 > 0 then g1.(buf1 := data[idx..]) else g1;
        (g2, None)
  }

  /** Decode into a fresh XsCommand. */
  function DecodeFrame(data: Bytes, bigEndian: bool): (r: Result<Frame>)
    ensures r.Err? <==> DecodeInto(EmptyFrame, data, bigEndian).1.Some?
  {
    var (f, err) := DecodeInto(EmptyFrame, data, bigEndian);
    if err.Some? then Err(err.value) else Ok(f)
  }

  /** Decoding what Encode produced, in the same byte order, gives the frame back. */
  lemma DecodeEncode(f: Frame, bigEndian: bool)
    requires |f.buf| < 0x1_0000_0000
    ensures DecodeFrame(EncodeFrame(f, bigEndian), bigEndian) == Ok(Sent(f))
  {
    var e := EncodeFrame(f, bigEndian);
    var b1 := Truncated(f.buf1);
    assert e[4..8] == Uint32Bytes(|f.buf|, bigEndian);
    Uint32RoundTrip(|f.buf|, bigEndian);
    assert e[3] == |b1|;
    if |f.buf| == 0 {
      assert e[8..] == b1;
    }
  }

  /** DecodeHead: Buf's length (always little-endian) and Buf1's length. */
  function DecodeHead(data: Bytes): (r: Result<(uint32, byte)>)
    ensures r.Err? <==> |data| < 8
    ensures r.Err? ==> r.error == InvalidResponseData
  {
    if |data| < 8 then Err(InvalidResponseData)
    else Ok((ReadLittleEndian32(data[4..8]), data[3]))
  }

  /** The header of a little-endian frame announces exactly its two payload lengths. */
  lemma DecodeHeadEncode(f: Frame)
    requires |f.buf| < 0x1_0000_0000
    ensures DecodeHead(EncodeFrame(f, false)) == Ok((|f.buf|, |Truncated(f.buf1)|))
  {
    var e := EncodeFrame(f, false);
    assert e[4..8] == LittleEndian32(|f.buf|);
    Uint32RoundTrip(|f.buf|, false);
  }

  /** The bytes of dst after Go's copy(dst[at:], src): as many bytes of src as fit. */
  function Spliced(dst: Bytes, at: nat, src: Bytes): (r: Bytes)
    requires at <= |dst|
    ensures |r| == |dst|
    ensures |src| <= |dst| - at ==> r == dst[..at] + src + dst[at + |src|..]
    ensures src == [] ==> r == dst
  {
    var n := if |src| < |dst| - at then |src| else |dst| - at;
    dst[..at] + src[..n] + dst[at + n..]
  }

  /** Go's copy(dst[at:], src). */
  method Copy(dst: array<byte>, at: nat, src: Bytes)
    requires at <= dst.Length
    modifies dst
    ensures dst[..] == Spliced(old(dst[..]), at, src)
  {
    var n := if |src| < dst.Length - at then |src| else dst.Length - at;
    var i := 0;
    while i < n
      invariant 0 <= i <= n
      invariant dst[..] == old(dst[..])[..at] + src[..i] + old(dst[..])[at + i..]
    {
      dst[at + i] := src[i];
      assert src[..i + 1] == src[..i] + [src[i]];
      i := i + 1;
    }
  }

  /** The three copies of Encode lay out header, Buf and Buf1 one after the other. */
  lemma EncodeLayout(f: Frame, bigEndian: bool, a: Bytes, a1: Bytes, a2: Bytes, a3: Bytes)
    requires |a| == 8 + |f.buf| + |Truncated(f.buf1)|
    requires a[0] == f.cmd && a[1] == f.arg1 && a[2] == f.arg2 && a[3] == |Truncated(f.buf1)|
    requires a1 == Spliced(a, 4, Uint32Bytes(|f.buf| % 0x1_0000_0000, bigEndian))
    requires a2 == Spliced(a1, 8, f.buf)
    requires a3 == Spliced(a2, 8 + |f.buf|, Truncated(f.buf1))
    ensures a3 == EncodeFrame(f, bigEndian)
  {
    var h := Header(f, bigEndian);
    assert a1[..8] == h;
    assert a2[..8 + |f.buf|] == h + f.buf;
  }

  /** XsCommand as a mutable record, for the operations that update a receiver. */
  class XsCommand {
    var cmd: byte
    var arg1: byte
    var arg2: byte
    var buf: Bytes
    var buf1: Bytes

    function Value(): Frame
      reads this
    {
      Frame(cmd, arg1, arg2, buf, buf1)
    }

    /** new(XsCommand): every field zero. */
    constructor ()
      ensures Value() == EmptyFrame
    {
      cmd, arg1, arg2, buf, buf1 := 0, 0, 0, [], [];
    }

    /** SetArg: Arg1 and Arg2 from one 16-bit value. */
    method SetArg(arg: uint16)
      modifies this
      ensures Value() == WithArg(old(Value()), arg)
    {
      arg1 := arg / 0x100;
      arg2 := arg % 0x100;
    }

    /**
     * Encode: cuts Buf1 to 255 bytes in place and returns a fresh array
     * holding the header, Buf and Buf1.
     */
    method Encode(bigEndian: bool) returns (out: array<byte>)
      modifies this
      ensures fresh(out)
      ensures out[..] == EncodeFrame(old(Value()), bigEndian)
      ensures Value() == Sent(old(Value()))
    {
      ghost var f := Value();
      var lenOfbuf1 := |buf1|;
      if lenOfbuf1 > 0xFF {
        buf1 := buf1[..0xFF];
        lenOfbuf1 := 0xFF;
      }
      var lenOfbuf := |buf|;
      out := new byte[8 + lenOfbuf + lenOfbuf1];
      out[0] := cmd;
      out[1] := arg1;
      out[2] := arg2;
      out[3] := lenOfbuf1;
      ghost var a := out[..];
      var bint := Uint32Bytes(lenOfbuf % 0x1_0000_0000, bigEndian);
      Copy(out, 4, bint);
      ghost var a1 := out[..];
      var idx := 8;
      if lenOfbuf > 0 {
        Copy(out, idx, buf);
        idx := idx + lenOfbuf;
      }
      assert out[..] == Spliced(a1, 8, buf);
      ghost var a2 := out[..];
      if lenOfbuf1 > 0 {
        Copy(out, idx, buf1);
      }
      assert out[..] == Spliced(a2, 8 + lenOfbuf, buf1);
      EncodeLayout(f, bigEndian, a, a1, a2, out[..]);
    }

    /** Decode: fills the receiver from a frame's bytes (see DecodeInto). */
    method Decode(data: Bytes, bigEndian: bool) returns (err: Option<Error>)
      modifies this
      ensures (Value(), err) == DecodeInto(old(Value()), data, bigEndian)
    {
      var bufLen := |data|;
      if bufLen < 8 {
        return Some(InvalidResponseData);
      }
      cmd := data[0];
      arg1 := data[1];
      arg2 := data[2];
      var lenOfbuf1 := data[3];
      var lenOfbuf := ReadUint32(data[4..8], bigEndian);
      if lenOfbuf > bufLen - 8 {
        return Some(InvalidBufferLength);
      }
      var idx := 8;
      if lenOfbuf > 0 {
        idx := idx + lenOfbuf;
        buf := data[8..idx];
      }
      if lenOfbuf1 > 0 {
        buf1 := data[idx..];
      }
      return None;
    }
  }

  // ---------------------------------------------------------------------
  // Pack: binary strings from a format and typed arguments.

  /** A Pack argument by its Go dynamic type. */
  datatype PackArg =
    | Uint8Arg(u8: byte)
    | Uint16Arg(u16: uint16)
    | Uint32Arg(u32: uint32)
    | OtherIntArg(v: int)     // int, int8..int64, uint, uint64
    | NonIntArg               // any type whose name is not an integer type

  const CodeU32: byte := 0x49   // 'I'
  const CodeU8: byte := 0x43    // 'C'
  const CodeU16: byte := 0x6E   // 'n'
  const CodeI32: byte := 0x69   // 'i'
  const CodeF32: byte := 0x66   // 'f'

  /**
   * The bytes one argument contributes: 'I' a little-endian uint32, 'C'
   * one byte, 'n' a big-endian uint16, any other code nothing; an argument
   * whose dynamic type is not the one the code asserts panics.
   */
  function PackOne(code: byte, arg: PackArg): (r: Result<Bytes>)
    ensures r.Err? <==> (code == CodeU32 && !arg.Uint32Arg?) || (code == CodeU8 && !arg.Uint8Arg?)
                        || (code == CodeU16 && !arg.Uint16Arg?)
    ensures r.Err? ==> r.error == Panic(TypeAssertion)
    ensures r.Ok? && code == CodeU32 ==> |r.value| == 4 && ReadUint32(r.value, false) == arg.u32
    ensures r.Ok? && code == CodeU8 ==> r.value == [arg.u8]
    ensures r.Ok? && code == CodeU16 ==> |r.value| == 2 && r.value[0] as int * 0x100 + r.value[1] as int == arg.u16 as int
    ensures r.Ok? && code != CodeU32 && code != CodeU8 && code != CodeU16 ==> r.value == []
  {
    if code == CodeU32 then
      (if arg.Uint32Arg? then Uint32RoundTrip(arg.u32, false); Ok(LittleEndian32(arg.u32)) else Err(Panic(TypeAssertion)))
    else if code == CodeU8 then
      (if arg.Uint8Arg? then Ok([arg.u8]) else Err(Panic(TypeAssertion)))
    else if code == CodeU16 then
      (if arg.Uint16Arg? then Ok(BigEndian16(arg.u16)) else Err(Panic(TypeAssertion)))
    else Ok([])
  }

  /** Packing from argument i on, after acc has been written. */
  function PackFrom(format: Bytes, args: seq<PackArg>, i: nat, acc: Bytes): Result<Bytes>
    requires |format| == |args| && i <= |format|
    decreases |format| - i
  {
    if i == |format| then Ok(acc)
    else if args[i].NonIntArg? then Err(InvalidPackType(i))
    else
      match PackOne(format[i], args[i])
      case Err(e) => Err(e)
      case Ok(bytes) => PackFrom(format, args, i + 1, acc + bytes)
  }

  function PackSpec(format: Bytes, args: seq<PackArg>): Result<Bytes>
  {
    if |format| != |args| then Err(FormatLength(|format|, |args|))
    else PackFrom(format, args, 0, [])
  }

  /** Pack(format, args...). */
  method Pack(format: Bytes, args: seq<PackArg>) returns (r: Result<Bytes>)
    ensures r == PackSpec(format, args)
  {
    if |format| != |args| {
      return Err(FormatLength(|format|, |args|));
    }
    var buf: Bytes := [];
    var i := 0;
    while i < |format|
      invariant 0 <= i <= |format|
      invariant PackFrom(format, args, i, buf) == PackSpec(format, args)
    {
      if args[i].NonIntArg? {
        return Err(InvalidPackType(i));
      }
      var code := format[i];
      var bytes: Bytes := [];
      if code == CodeU32 {
        if !args[i].Uint32Arg? { return Err(Panic(TypeAssertion)); }
        bytes := LittleEndian32(args[i].u32);
      } else if code == CodeU8 {
        if !args[i].Uint8Arg? { return Err(Panic(TypeAssertion)); }
        bytes := [args[i].u8];
      } else if code == CodeU16 {
        if !args[i].Uint16Arg? { return Err(Panic(TypeAssertion)); }
        bytes := BigEndian16(args[i].u16);
      }
      assert PackOne(code, args[i]) == Ok(bytes);
      buf := buf + bytes;
      i := i + 1;
    }
    return Ok(buf);
  }

  /** The paging block Search sends: offset then limit, little-endian. */
  lemma PackTwoWords(offset: uint32, limit: uint32)
    ensures PackSpec([CodeU32, CodeU32], [Uint32Arg(offset), Uint32Arg(limit)])
         == Ok(LittleEndian32(offset) + LittleEndian32(limit))
  {
    var format, args := [CodeU32, CodeU32], [Uint32Arg(offset), Uint32Arg(limit)];
    var a, b := LittleEndian32(offset), LittleEndian32(limit);
    assert PackOne(format[0], args[0]) == Ok(a);
    assert PackOne(format[1], args[1]) == Ok(b);
    assert [] + a == a;
    assert PackFrom(format, args, 2, a + b) == Ok(a + b);
    assert PackFrom(format, args, 1, a) == Ok(a + b);
    assert PackFrom(format, args, 0, []) == PackFrom(format, args, 1, [] + a);
  }

  // ---------------------------------------------------------------------
  // UnPack: typed values from a "/"-separated format.

  /** A value UnPack stores, by its Go type. */
  datatype Unpacked =
    | U32Value(u32: uint32)
    | U8Value(u8: byte)
    | I32Value(i32: int)
    | F32Value(bits: Bytes)   // a float32, kept as its four little-endian bytes
    | NilValue

  /** The number of input bytes a format code reads. */
  function Width(code: byte): nat
  {
    if code == CodeU32 || code == CodeI32 || code == CodeF32 then 4
    else if code == CodeU8 then 1
    else 0
  }

  /** The value a format code reads from exactly Width(code) bytes. */
  function Decoded(code: byte, b: Bytes): Unpacked
    requires |b| == Width(code)
  {
    if code == CodeU32 then U32Value(ReadLittleEndian32(b))
    else if code == CodeU8 then U8Value(b[0])
    else if code == CodeI32 then
      var u := ReadLittleEndian32(b);
      I32Value(if u >= 0x8000_0000 then u - 0x1_0000_0000 else u)
    else if code == CodeF32 then F32Value(b)
    else NilValue
  }

  /** Segment names: the text after the code letter, or the segment's index. */
  function SegmentName(seg: Bytes, i: nat): Bytes
  {
    if |seg| > 1 then seg[1..] else Itoa(i)
  }

  predicate NonEmptySegments(segs: seq<Bytes>)
  {
    forall k :: 0 <= k < |segs| ==> |segs[k]| > 0
  }

  /** Every segment has a code letter (an empty one makes ch[0] panic). */
  predicate ValidFormat(format: Bytes)
  {
    NonEmptySegments(Split(format, Slash))
  }

  /** Unpacking segments i.. from the unread input rest into acc. */
  function UnPackFrom(segs: seq<Bytes>, i: nat, rest: Bytes, acc: map<Bytes, Unpacked>)
    : (map<Bytes, Unpacked>, Option<Error>)
    requires NonEmptySegments(segs) && i <= |segs|
    decreases |segs| - i
  {
    if i == |segs| then (acc, None)
    else
      var code := segs[i][0];
      var name := SegmentName(segs[i], i);
      if Width(code) == 0 then UnPackFrom(segs, i + 1, rest, acc[name := NilValue])
      else if |rest| < Width(code) then (acc, Some(UnexpectedEof))
      else UnPackFrom(segs, i + 1, rest[Width(code)..], acc[name := Decoded(code, rest[..Width(code)])])
  }

  function UnPackSpec(format: Bytes, data: Bytes): (map<Bytes, Unpacked>, Option<Error>)
    requires ValidFormat(format)
  {
    UnPackFrom(Split(format, Slash), 0, data, map[])
  }

  /** UnPack(format, data): the values read so far, and the read error if any. */
  method UnPack(format: Bytes, data: Bytes) returns (unpacked: map<Bytes, Unpacked>, err: Option<Error>)
    requires ValidFormat(format)
    ensures (unpacked, err) == UnPackSpec(format, data)
  {
    var chks := Split(format, Slash);
    unpacked := map[];
    var rest := data;
    var i := 0;
    while i < |chks|
      invariant 0 <= i <= |chks|
      invariant UnPackFrom(chks, i, rest, unpacked) == UnPackSpec(format, data)
    {
      var ch := chks[i];
      var na := Itoa(i);
      if |ch| > 1 {
        na := ch[1..];
      }
      var code := ch[0];
      if code == CodeU32 || code == CodeU8 || code == CodeI32 || code == CodeF32 {
        var w := Width(code);
        if |rest| < w {
          return unpacked, Some(UnexpectedEof);
        }
        unpacked := unpacked[na := Decoded(code, rest[..w])];
        rest := rest[w..];
      } else {
        unpacked := unpacked[na := NilValue];
      }
      i := i + 1;
    }
    return unpacked, None;
  }

  /** Total bytes read by segments i.. */
  function Widths(segs: seq<Bytes>, i: nat): nat
    requires NonEmptySegments(segs) && i <= |segs|
    decreases |segs| - i
  {
    if i == |segs| then 0 else Width(segs[i][0]) + Widths(segs, i + 1)
  }

  /**
   * UnPack reports an error exactly when the input is shorter than the
   * format needs, and it never loses a value already read.
   */
  lemma {:induction false} UnPackErrorExactlyShort(segs: seq<Bytes>, i: nat, rest: Bytes, acc: map<Bytes, Unpacked>)
    requires NonEmptySegments(segs) && i <= |segs|
    ensures UnPackFrom(segs, i, rest, acc).1.None? <==> |rest| >= Widths(segs, i)
    ensures acc.Keys <= UnPackFrom(segs, i, rest, acc).0.Keys
    decreases |segs| - i
  {
    if i < |segs| {
      var code := segs[i][0];
      var name := SegmentName(segs[i], i);
      if Width(code) == 0 {
        UnPackErrorExactlyShort(segs, i + 1, rest, acc[name := NilValue]);
      } else if |rest| >= Width(code) {
        UnPackErrorExactlyShort(segs, i + 1, rest[Width(code)..], acc[name := Decoded(code, rest[..Width(code)])]);
      }
    }
  }

  // ---------------------------------------------------------------------
  // ReplaceAllStringSubmatchFunc over the spans a regular expression found.

  /** One submatch: the bytes [lo, hi) of the subject. */
  datatype Span = Span(lo: nat, hi: nat)

  /**
   * What FindAllSubmatchIndex guarantees: every match has its whole-match
   * span first, every span lies inside the subject, and matches come in
   * order without overlapping.
   */
  predicate WellFormedMatches(str: Bytes, ms: seq<seq<Span>>)
  {
    (forall k :: 0 <= k < |ms| ==> |ms[k]| >= 1)
    && (forall k, j :: 0 <= k < |ms| && 0 <= j < |ms[k]| ==> ms[k][j].lo <= ms[k][j].hi <= |str|)
    && (forall k, l :: 0 <= k < l < |ms| ==> ms[k][0].hi <= ms[l][0].lo)
  }

  /** The texts of a match's groups. */
  function Groups(str: Bytes, m: seq<Span>): (g: seq<Bytes>)
    requires forall j :: 0 <= j < |m| ==> m[j].lo <= m[j].hi <= |str|
    ensures |g| == |m|
    ensures forall j :: 0 <= j < |m| ==> g[j] == str[m[j].lo..m[j].hi]
  {
    seq(|m|, j requires 0 <= j < |m| => str[m[j].lo..m[j].hi])
  }

  /**
   * The result of the replacement loop once it reaches match k with the
   * text acc built so far and the subject consumed up to last: the text
   * between matches is copied and each match is replaced by repl of its groups.
   */
  function ReplaceFrom(str: Bytes, ms: seq<seq<Span>>, repl: seq<Bytes> -> Bytes, k: nat, last: nat, acc: Bytes): Bytes
    requires WellFormedMatches(str, ms) && k <= |ms| && last <= |str|
    requires k < |ms| ==> last <= ms[k][0].lo
    decreases |ms| - k
  {
    if k == |ms| then acc + str[last..]
    else
      var m := ms[k];
      assert k + 1 < |ms| ==> m[0].hi <= ms[k + 1][0].lo;
      ReplaceFrom(str, ms, repl, k + 1, m[0].hi, acc + str[last..m[0].lo] + repl(Groups(str, m)))
  }

  /** ReplaceAllStringSubmatchFunc(re, str, repl), given the matches re finds in str. */
  method ReplaceAllStringSubmatchFunc(matches: seq<seq<Span>>, str: Bytes, repl: seq<Bytes> -> Bytes)
    returns (r: Bytes)
    requires WellFormedMatches(str, matches)
    ensures r == ReplaceFrom(str, matches, repl, 0, 0, [])
  {
    var result: Bytes := [];
    var lastIndex: nat := 0;
    var k := 0;
    while k < |matches|
      invariant 0 <= k <= |matches| && lastIndex <= |str|
      invariant k < |matches| ==> lastIndex <= matches[k][0].lo
      invariant ReplaceFrom(str, matches, repl, k, lastIndex, result) == ReplaceFrom(str, matches, repl, 0, 0, [])
    {
      var v := matches[k];
      assert forall j :: 0 <= j < |v| ==> v[j].lo <= v[j].hi <= |str|;
      assert k + 1 < |matches| ==> v[0].hi <= matches[k + 1][0].lo;
      var groups: seq<Bytes> := [];
      var i := 0;
      while i < |v|
        invariant 0 <= i <= |v|
        invariant groups == Groups(str, v[..i])
      {
        groups := groups + [str[v[i].lo..v[i].hi]];
        i := i + 1;
      }
      assert v[..i] == v;
      result := result + str[lastIndex..v[0].lo] + repl(groups);
      lastIndex := v[0].hi;
      k := k + 1;
    }
    return result + str[lastIndex..];
  }

  /** Copying the slices [last, lo), [lo, hi) and [hi, end) copies [last, end). */
  lemma AdjacentSlices(acc: Bytes, s: Bytes, last: nat, lo: nat, hi: nat)
    requires last <= lo <= hi <= |s|
    ensures acc + s[last..lo] + s[lo..hi] + s[hi..] == acc + s[last..]
  {
    assert s[last..lo] + s[lo..hi] == s[last..hi];
    assert s[last..hi] + s[hi..] == s[last..];
  }

  /** A callback that gives back the whole text of each remaining match leaves the subject unchanged. */
  lemma {:induction false} ReplaceWithWholeMatch(str: Bytes, ms: seq<seq<Span>>, repl: seq<Bytes> -> Bytes, k: nat, last: nat, acc: Bytes)
    requires WellFormedMatches(str, ms) && k <= |ms| && last <= |str|
    requires k < |ms| ==> last <= ms[k][0].lo
    requires forall l :: k <= l < |ms| ==> repl(Groups(str, ms[l])) == str[ms[l][0].lo..ms[l][0].hi]
    ensures ReplaceFrom(str, ms, repl, k, last, acc) == acc + str[last..]
    decreases |ms| - k
  {
    if k < |ms| {
      var m := ms[k];
      var lo, hi := m[0].lo, m[0].hi;
      assert k + 1 < |ms| ==> hi <= ms[k + 1][0].lo;
      var acc' := acc + str[last..lo] + repl(Groups(str, m));
      ReplaceWithWholeMatch(str, ms, repl, k + 1, hi, acc');
      assert repl(Groups(str, m)) == str[lo..hi];
      AdjacentSlices(acc, str, last, lo, hi);
    }
  }
}
