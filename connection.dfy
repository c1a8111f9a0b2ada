// server/connection.go: one client connection to an xunsearch server.
//
// The socket is replaced by an abstract transport: `output` is the log of
// every conn.Write call, `input` is the byte stream the reader delivers, and
// `broken` says whether the peer refuses writes. A read of n bytes yields
// the next min(n, available) bytes of the stream.
module Connections {
  import opened Types
  import opened Codes
  import opened GoStrings
  import opened Command

  /** Commands with the high bit set get no answer: Exec only buffers them. */
  predicate Deferred(cmd: byte)
  {
    cmd / 0x80 % 2 != 0   // cmd & 0x80 > 0
  }

  /** The state of a Connection: the model of its fields. */
  datatype ConnState = ConnState(
    open: bool,          // conn (and reader) are not nil
    bigEndian: bool,     // IsBigEndian
    broken: bool,        // the peer refuses writes
    buffer: Bytes,       // encoded frames not yet written
    output: seq<Bytes>,  // every conn.Write, in order
    input: Bytes)        // what the reader has not yet delivered

  /** A connection as NewConnection leaves it, over the given transport. */
  function Connected(input: Bytes): (s: ConnState)
    ensures s.open && !s.bigEndian && s.buffer == [] && s.output == []
  {
    ConnState(true, false, false, [], [], input)
  }

  /** reader.Read into an n-byte slice. */
  function ReadSpec(s: ConnState, n: nat): (r: (ConnState, Bytes))
    ensures |r.1| == if n <= |s.input| then n else |s.input|
    ensures r.1 + r.0.input == s.input
    ensures r.0 == s.(input := r.0.input)
  {
    (s.(input := Drop(s.input, n)), Take(s.input, n))
  }

  /** A payload read: nothing for a zero length, otherwise reader.Read of that many bytes. */
  function ReadPayload(s: ConnState, n: nat): (r: (ConnState, Bytes))
    ensures r == (if n > 0 then ReadSpec(s, n) else (s, []))
  {
    if n > 0 then ReadSpec(s, n) else (s, [])
  }

  /** Reading exactly the bytes at the front of the stream. */
  lemma ReadPrefix(s: ConnState, a: Bytes, rest: Bytes)
    requires s.input == a + rest
    ensures ReadPayload(s, |a|) == (s.(input := rest), a)
  {
    if |a| > 0 {
      assert Take(s.input, |a|) == a;
      assert Drop(s.input, |a|) == rest;
    } else {
      assert s.input == rest;
    }
  }

  /**
   * getResponse: an 8-byte header, then exactly the announced payload
   * lengths (read as little-endian whatever the connection's order), then
   * the whole frame decoded in the connection's order.
   */
  function ResponseSpec(s: ConnState): (r: (ConnState, Result<Frame>))
    ensures r.0 == s.(input := r.0.input)
    ensures r.1.Ok? ==> |s.input| - |r.0.input| >= 8
  {
    if !s.open then (s, Err(Panic(NilDereference)))
    else
      var (s1, head) := ReadSpec(s, 8);
      if |head| != 8 then (s1, Err(NoMoreData))
      else
        var h := DecodeHead(head);
        assert h.Ok?;
        var (len1, len2) := h.value;
        var (s2, b1) := ReadPayload(s1, len1);
        if len1 > 0 && |b1| != len1 then (s2, Err(ReadDataError))
        else
          var (s3, b2) := ReadPayload(s2, len2);
          if len2 > 0 && |b2| != len2 then (s3, Err(ReadDataError))
          else (s3, DecodeFrame(head + b1 + b2, s.bigEndian))
  }

  /**
   * Reply validation of Exec: an ERR reply (when ERR was not asked for)
   * carries the server's message; otherwise the reply must have the
   * expected command and, unless resArg is XS_CMD_NONE, the expected argument.
   */
  function CheckReply(resp: Result<Frame>, resArg: uint16, resCmd: byte): (r: Result<Frame>)
    ensures resp.Err? ==> r == resp
    ensures resp.Ok? && resp.value.cmd == CmdErr && resCmd != CmdErr ==> r == Err(RemoteError(resp.value.buf))
    ensures r.Ok? <==> resp.Ok? && resp.value.cmd == resCmd && (resArg == CmdNone || GetArg(resp.value) == resArg)
    ensures r.Ok? ==> r == resp
  {
    match resp
    case Err(e) => Err(e)
    case Ok(reply) =>
      if reply.cmd == CmdErr && resCmd != CmdErr then Err(RemoteError(reply.buf))
      else if reply.cmd != resCmd || (resArg != CmdNone && resArg != GetArg(reply)) then Err(UnexpectedReply(reply))
      else Ok(reply)
  }

  /** Exec(command, resArg, resCmd). */
  function ExecSpec(s: ConnState, f: Frame, resArg: uint16, resCmd: byte): (r: (ConnState, Result<Frame>))
    ensures r.0.open == s.open && r.0.bigEndian == s.bigEndian && r.0.broken == s.broken
  {
    if !s.open then (s, Err(NotConnected))
    else
      var data := s.buffer + EncodeFrame(f, s.bigEndian);
      if Deferred(f.cmd) then (s.(buffer := data), Ok(EmptyFrame))
      else if s.broken then (s.(buffer := []), Err(WriteFailed))
      else
        var (s1, resp) := ResponseSpec(s.(buffer := [], output := s.output + [data]));
        (s1, CheckReply(resp, resArg, resCmd))
  }

  /** ExecOK: Exec expecting an XS_CMD_OK reply. */
  function ExecOKSpec(s: ConnState, f: Frame, resArg: uint16): (ConnState, Result<Frame>)
  {
    ExecSpec(s, f, resArg, CmdOk)
  }

  /** GetSearchResponse: one more frame of a result stream, without writing. */
  function SearchResponseSpec(s: ConnState, prev: Frame): (r: (ConnState, Result<Frame>))
    ensures GetArg(prev) != OkResultBegin ==> r == (s, Err(NotResultBegin))
    ensures r.0 == s.(input := r.0.input)
    ensures r.1.Ok? ==> |r.0.input| + 8 <= |s.input|
  {
    if GetArg(prev) != OkResultBegin then (s, Err(NotResultBegin))
    else ResponseSpec(s)
  }

  /** The XS_CMD_TIMEOUT frame carrying a timeout in seconds. */
  function TimeoutFrame(timeout: uint16): (f: Frame)
    ensures f.cmd == CmdTimeout && GetArg(f) == timeout && f.buf == [] && f.buf1 == []
  {
    WithArg(Frame(CmdTimeout, 0, 0, [], []), timeout)
  }

  /** SetTimeout(timeout). */
  function TimeoutSpec(s: ConnState, timeout: uint16): (r: (ConnState, Option<Error>))
    ensures !s.open ==> r == (s, Some(NotConnected))
  {
    if s.open then
      var (s1, resp) := ExecOKSpec(s, TimeoutFrame(timeout), OkTimeoutSet);
      (s1, if resp.Err? then Some(resp.error) else None)
    else (s, Some(NotConnected))
  }

  /** Close: drop the socket and the reader. */
  function CloseSpec(s: ConnState): (r: ConnState)
    ensures !r.open && r == s.(open := false)
  {
    if s.open then s.(open := false) else s
  }

  // ---------------------------------------------------------------------
  // Sequences of exchanges.

  /** One ExecOK call: the frame and the reply argument it expects. */
  datatype Call = Call(frame: Frame, resArg: uint16)

  /** Execute calls in order with ExecOK, stopping at the first failure. */
  function RunCalls(s: ConnState, calls: seq<Call>): (r: (ConnState, Option<Error>))
    decreases |calls|
  {
    if |calls| == 0 then (s, None)
    else
      var (s1, resp) := ExecOKSpec(s, calls[0].frame, calls[0].resArg);
      if resp.Err? then (s1, Some(resp.error)) else RunCalls(s1, calls[1..])
  }

  /** The concatenation of the encodings of frames. */
  function Encodings(fs: seq<Frame>, bigEndian: bool): Bytes
    decreases |fs|
  {
    if |fs| == 0 then [] else EncodeFrame(fs[0], bigEndian) + Encodings(fs[1..], bigEndian)
  }

  /** The frames of a list of calls. */
  function Frames(calls: seq<Call>): (fs: seq<Frame>)
    ensures |fs| == |calls| && forall i :: 0 <= i < |calls| ==> fs[i] == calls[i].frame
  {
    seq(|calls|, i requires 0 <= i < |calls| => calls[i].frame)
  }

  // ---------------------------------------------------------------------
  // What the model promises.

  /** The high-bit test on the command byte is the test cmd >= 0x80. */
  lemma DeferredIsHighBit(cmd: byte)
    ensures Deferred(cmd) <==> cmd >= 0x80
  {
  }

  /** Reply frames and the commands Exec waits on. */
  lemma DeferredCommands()
    ensures Deferred(CmdDocTerm) && Deferred(CmdDocValue) && Deferred(CmdDocIndex) && Deferred(CmdIndexRequest)
    ensures Deferred(CmdSearchSetCut) && Deferred(CmdSearchSetNumeric) && Deferred(CmdSearchSetMisc)
    ensures Deferred(CmdQueryInit) && Deferred(CmdQueryParse) && Deferred(CmdQueryTerm) && Deferred(CmdQueryPrefix)
    ensures !Deferred(CmdUse) && !Deferred(CmdIndexSubmit) && !Deferred(CmdIndexExdata) && !Deferred(CmdSearchGetResult)
    ensures !Deferred(CmdTimeout) && !Deferred(CmdIndexSetDb) && !Deferred(CmdSearchAddLog)
  {
    DeferredIsHighBit(CmdDocTerm);
    DeferredIsHighBit(CmdDocValue);
    DeferredIsHighBit(CmdDocIndex);
    DeferredIsHighBit(CmdIndexRequest);
    DeferredIsHighBit(CmdSearchSetCut);
    DeferredIsHighBit(CmdSearchSetNumeric);
    DeferredIsHighBit(CmdSearchSetMisc);
    DeferredIsHighBit(CmdQueryInit);
    DeferredIsHighBit(CmdQueryParse);
    DeferredIsHighBit(CmdQueryTerm);
    DeferredIsHighBit(CmdQueryPrefix);
    DeferredIsHighBit(CmdUse);
    DeferredIsHighBit(CmdIndexSubmit);
    DeferredIsHighBit(CmdIndexExdata);
    DeferredIsHighBit(CmdSearchGetResult);
    DeferredIsHighBit(CmdTimeout);
    DeferredIsHighBit(CmdIndexSetDb);
    DeferredIsHighBit(CmdSearchAddLog);
  }

  /** Without a socket Exec fails and changes nothing; Close is idempotent. */
  lemma ClosedConnection(s: ConnState, f: Frame, resArg: uint16, resCmd: byte)
    ensures ExecSpec(CloseSpec(s), f, resArg, resCmd) == (CloseSpec(s), Err(NotConnected))
    ensures CloseSpec(CloseSpec(s)) == CloseSpec(s)
    ensures TimeoutSpec(CloseSpec(s), 0) == (CloseSpec(s), Some(NotConnected))
  {
  }

  /** A deferred command is only appended to the buffer: nothing is written or read. */
  lemma ExecDeferred(s: ConnState, f: Frame, resArg: uint16, resCmd: byte)
    requires s.open && Deferred(f.cmd)
    ensures ExecSpec(s, f, resArg, resCmd) == (s.(buffer := s.buffer + EncodeFrame(f, s.bigEndian)), Ok(EmptyFrame))
  {
  }

  /**
   * Any other command writes the whole buffer and the new frame in one call
   * and empties the buffer, even when the write fails.
   */
  lemma ExecFlushes(s: ConnState, f: Frame, resArg: uint16, resCmd: byte)
    requires s.open && !Deferred(f.cmd)
    ensures ExecSpec(s, f, resArg, resCmd).0.buffer == []
    ensures ExecSpec(s, f, resArg, resCmd).0.output
         == (if s.broken then s.output else s.output + [s.buffer + EncodeFrame(f, s.bigEndian)])
    ensures s.broken ==> ExecSpec(s, f, resArg, resCmd).1 == Err(WriteFailed)
  {
  }

  /** A reply sent as one little-endian encoded frame is read back whole, and no further. */
  lemma {:induction false} ReadEncodedReply(s: ConnState, reply: Frame, rest: Bytes)
    requires s.open && !s.bigEndian && |reply.buf| < 0x1_0000_0000
    requires s.input == EncodeFrame(reply, false) + rest
    ensures ResponseSpec(s) == (s.(input := rest), Ok(Sent(reply)))
  {
    var e := EncodeFrame(reply, false);
    var head, b1, b2 := e[..8], reply.buf, Truncated(reply.buf1);
    assert e == head + b1 + b2;
    DecodeHeadEncode(reply);
    DecodeEncode(reply, false);
    assert DecodeHead(head) == Ok((|b1|, |b2|)) by {
      assert head[3] == e[3] && head[4..8] == e[4..8];
    }
    var s1 := s.(input := b1 + b2 + rest);
    ReadPrefix(s, head, b1 + b2 + rest);
    assert ReadSpec(s, 8) == (s1, head);
    ReadPrefix(s1, b1, b2 + rest);
    var s2 := s.(input := b2 + rest);
    ReadPrefix(s2, b2, rest);
  }

  /**
   * A full exchange: the buffered frames and the new one are written, and a
   * reply with the expected command and argument is handed back as decoded.
   */
  lemma ExecRoundTrip(s: ConnState, f: Frame, resArg: uint16, resCmd: byte, reply: Frame, rest: Bytes)
    requires s.open && !s.bigEndian && !s.broken && !Deferred(f.cmd)
    requires |reply.buf| < 0x1_0000_0000 && s.input == EncodeFrame(reply, false) + rest
    requires reply.cmd == resCmd && (resArg == CmdNone || GetArg(reply) == resArg)
    ensures ExecSpec(s, f, resArg, resCmd)
         == (s.(buffer := [], output := s.output + [s.buffer + EncodeFrame(f, false)], input := rest), Ok(Sent(reply)))
  {
    ReadEncodedReply(s.(buffer := [], output := s.output + [s.buffer + EncodeFrame(f, false)]), reply, rest);
  }

  /** Running two lists of calls one after the other is running their concatenation. */
  lemma {:induction false} RunCallsAppend(s: ConnState, a: seq<Call>, b: seq<Call>)
    ensures RunCalls(s, a + b)
         == (var (s1, err) := RunCalls(s, a); if err.Some? then (s1, err) else RunCalls(s1, b))
    decreases |a|
  {
    if |a| == 0 {
      assert a + b == b;
    } else {
      var (s1, resp) := ExecOKSpec(s, a[0].frame, a[0].resArg);
      assert (a + b)[0] == a[0] && (a + b)[1..] == a[1..] + b;
      if resp.Ok? {
        RunCallsAppend(s1, a[1..], b);
      }
    }
  }

  lemma EncodingsOfCalls(buffer: Bytes, calls: seq<Call>, be: bool)
    requires |calls| > 0
    ensures buffer + EncodeFrame(calls[0].frame, be) + Encodings(Frames(calls[1..]), be)
         == buffer + Encodings(Frames(calls), be)
  {
    var fs := Frames(calls);
    assert fs[0] == calls[0].frame && fs[1..] == Frames(calls[1..]);
  }

  /** A first deferred call only grows the buffer before the rest run. */
  lemma RunDeferredStep(s: ConnState, calls: seq<Call>)
    requires s.open && |calls| > 0 && Deferred(calls[0].frame.cmd)
    ensures RunCalls(s, calls) == RunCalls(s.(buffer := s.buffer + EncodeFrame(calls[0].frame, s.bigEndian)), calls[1..])
  {
    ExecDeferred(s, calls[0].frame, calls[0].resArg, CmdOk);
  }

  /**
   * Calls whose commands are all deferred leave the connection waiting with
   * their encodings appended to the buffer, in order.
   */
  lemma {:induction false} RunDeferred(s: ConnState, calls: seq<Call>)
    requires s.open
    requires forall i :: 0 <= i < |calls| ==> Deferred(calls[i].frame.cmd)
    ensures RunCalls(s, calls) == (s.(buffer := s.buffer + Encodings(Frames(calls), s.bigEndian)), None)
    decreases |calls|
  {
    if |calls| > 0 {
      var c := calls[0];
      var be := s.bigEndian;
      RunDeferredStep(s, calls);
      var s1 := s.(buffer := s.buffer + EncodeFrame(c.frame, be));
      RunDeferred(s1, calls[1..]);
      EncodingsOfCalls(s.buffer, calls, be);
    } else {
      assert s.buffer + Encodings(Frames(calls), s.bigEndian) == s.buffer;
    }
  }

  // ---------------------------------------------------------------------
  // The connection object.

  class Connection {
    var open: bool
    var bigEndian: bool
    var broken: bool
    var buffer: Bytes
    var output: seq<Bytes>
    var input: Bytes

    function State(): ConnState
      reads this
    {
      ConnState(open, bigEndian, broken, buffer, output, input)
    }

    /** NewConnection over a transport that will deliver input. */
    constructor (input: Bytes)
      ensures State() == Connected(input)
    {
      open := true;
      bigEndian := false;
      broken := false;
      buffer := [];
      output := [];
      this.input := input;
    }

    /** reader.Read of at most n bytes. */
    method Read(n: nat) returns (data: Bytes)
      modifies this
      ensures (State(), data) == ReadSpec(old(State()), n)
    {
      data := Take(input, n);
      input := Drop(input, n);
    }

    /** getResponse. */
    method GetResponse() returns (r: Result<Frame>)
      modifies this
      ensures (State(), r) == ResponseSpec(old(State()))
    {
      if !open {
        return Err(Panic(NilDereference));
      }
      var head := Read(8);
      if |head| != 8 {
        return Err(NoMoreData);
      }
      var h := DecodeHead(head);
      assert h.Ok?;   // the header has 8 bytes, so DecodeHead cannot fail
      var (len1, len2) := h.value;
      var b1: Bytes := [];
      if len1 > 0 {
        b1 := Read(len1);
        if |b1| != len1 {
          return Err(ReadDataError);
        }
      }
      var b2: Bytes := [];
      if len2 > 0 {
        b2 := Read(len2);
        if |b2| != len2 {
          return Err(ReadDataError);
        }
      }
      r := DecodeFrame(head + b1 + b2, bigEndian);
    }

    /** Exec(command, resArg, resCmd). */
    method Exec(f: Frame, resArg: uint16, resCmd: byte) returns (r: Result<Frame>)
      modifies this
      ensures (State(), r) == ExecSpec(old(State()), f, resArg, resCmd)
    {
      if !open {
        return Err(NotConnected);
      }
      buffer := buffer + EncodeFrame(f, bigEndian);
      if Deferred(f.cmd) {
        return Ok(EmptyFrame);
      }
      var data := buffer;
      buffer := [];
      if broken {
        return Err(WriteFailed);
      }
      output := output + [data];
      var response := GetResponse();
      if response.Err? {
        return response;
      }
      var reply := response.value;
      if reply.cmd == CmdErr && resCmd != CmdErr {
        return Err(RemoteError(reply.buf));
      }
      if reply.cmd != resCmd || (resArg != CmdNone && resArg != GetArg(reply)) {
        return Err(UnexpectedReply(reply));
      }
      return Ok(reply);
    }

    /** ExecOK(command, resArg). */
    method ExecOK(f: Frame, resArg: uint16) returns (r: Result<Frame>)
      modifies this
      ensures (State(), r) == ExecOKSpec(old(State()), f, resArg)
    {
      r := Exec(f, resArg, CmdOk);
    }

    /** GetSearchResponse(prev). */
    method GetSearchResponse(prev: Frame) returns (r: Result<Frame>)
      modifies this
      ensures (State(), r) == SearchResponseSpec(old(State()), prev)
    {
      if GetArg(prev) != OkResultBegin {
        return Err(NotResultBegin);
      }
      r := GetResponse();
    }

    /** SetTimeout(timeout). */
    method SetTimeout(timeout: uint16) returns (err: Option<Error>)
      modifies this
      ensures (State(), err) == TimeoutSpec(old(State()), timeout)
    {
      if !open {
        return Some(NotConnected);
      }
      var resp := ExecOK(TimeoutFrame(timeout), OkTimeoutSet);
      err := if resp.Err? then Some(resp.error) else None;
    }

    /** Close. */
    method Close()
      modifies this
      ensures State() == CloseSpec(old(State()))
    {
      if open {
        open := false;
      }
    }

    /** ExecOK of each call in turn, stopping at the first failure. */
    method Run(calls: seq<Call>) returns (err: Option<Error>)
      modifies this
      ensures (State(), err) == RunCalls(old(State()), calls)
    {
      var i := 0;
      err := None;
      while i < |calls|
        invariant 0 <= i <= |calls|
        invariant RunCalls(old(State()), calls) == RunCalls(State(), calls[i..])
      {
        assert calls[i..][0] == calls[i] && calls[i..][1..] == calls[i + 1..];
        var resp := ExecOK(calls[i].frame, calls[i].resArg);
        if resp.Err? {
          return Some(resp.error);
        }
        i := i + 1;
      }
      assert calls[i..] == [];
    }
  }
}
