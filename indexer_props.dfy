// Properties of the index-server client: what the frames of a document
// are, what reaches the server in one write, and how a batch of encoded
// frames (the EXDATA payload of deletions and of the client-side buffer)
// reads back as the frames that went into it.
module IndexerProps {
  import opened Types
  import opened Codes
  import opened GoStrings
  import opened Command
  import opened Connections
  import opened Fields
  import opened Schemas
  import opened Indexers

  // ---------------------------------------------------------------------
  // Batches of encoded frames.

  /**
   * How the server reads an EXDATA payload: header after header, each
   * followed by the Buf and Buf1 its little-endian header announces;
   * reading stops at a header that does not fit.
   */
  function Unbatch(data: Bytes): seq<Frame>
    decreases |data|
  {
    if |data| < 8 then []
    else
      var n1 := ReadLittleEndian32(data[4..8]) as int;
      var n2 := data[3] as int;
      if 8 + n1 + n2 > |data| then []
      else [Frame(data[0], data[1], data[2], data[8..8 + n1], data[8 + n1..8 + n1 + n2])] + Unbatch(data[8 + n1 + n2..])
  }

  /** The frames as Encode leaves them, Buf1 cut to 255 bytes. */
  function SentAll(fs: seq<Frame>): (r: seq<Frame>)
    ensures |r| == |fs| && forall k :: 0 <= k < |fs| ==> r[k] == Sent(fs[k])
    decreases |fs|
  {
    if fs == [] then [] else [Sent(fs[0])] + SentAll(fs[1..])
  }

  /** Every Buf of fs fits the 32-bit length field. */
  predicate Encodable(fs: seq<Frame>)
  {
    forall k :: 0 <= k < |fs| ==> |fs[k].buf| < 0x1_0000_0000
  }

  /** An encoded frame at the front of a batch is read back as sent, and the rest after it. */
  lemma UnbatchOne(f: Frame, rest: Bytes)
    requires |f.buf| < 0x1_0000_0000
    ensures Unbatch(EncodeFrame(f, false) + rest) == [Sent(f)] + Unbatch(rest)
  {
    var e := EncodeFrame(f, false);
    var data := e + rest;
    var b1 := Truncated(f.buf1);
    assert e == Header(f, false) + f.buf + b1;
    assert data[4..8] == e[4..8] == LittleEndian32(|f.buf|);
    Uint32RoundTrip(|f.buf|, false);
    var n1, n2 := |f.buf|, |b1|;
    assert data[3] == e[3] == n2;
    assert data[8..8 + n1] == f.buf;
    assert data[8 + n1..8 + n1 + n2] == b1;
    assert data[8 + n1 + n2..] == rest;
    assert data[0] == f.cmd && data[1] == f.arg1 && data[2] == f.arg2;
  }

  /** A batch of little-endian encodings reads back as the frames, in order. */
  lemma {:induction false} UnbatchEncodings(fs: seq<Frame>)
    requires Encodable(fs)
    ensures Unbatch(Encodings(fs, false)) == SentAll(fs)
    decreases |fs|
  {
    if fs != [] {
      var tail := fs[1..];
      assert Encodable(tail) by {
        assert forall k :: 0 <= k < |tail| ==> tail[k] == fs[k + 1];
      }
      var e := Encodings(tail, false);
      assert Encodings(fs, false) == EncodeFrame(fs[0], false) + e;
      UnbatchOne(fs[0], e);
      UnbatchEncodings(tail);
    }
  }

  /** Frames without Buf1 are sent unchanged. */
  lemma SentWithoutBuf1(fs: seq<Frame>)
    requires forall k :: 0 <= k < |fs| ==> fs[k].buf1 == []
    ensures SentAll(fs) == fs
  {
    assert forall k :: 0 <= k < |fs| ==> Sent(fs[k]) == fs[k];
  }

  // ---------------------------------------------------------------------
  // Deletion.

  /** Deleting one term sends one INDEX_REMOVE of the lowercased term for the field's number. */
  lemma DelOneTerm(d: SchemaData, field: Bytes, term: Bytes)
    requires DelField(d, field) in d.fieldMetas
    ensures var f := DelFrame(d, field, [term]).value;
      f.cmd == CmdIndexRemove && f.arg1 == 0 && f.arg2 == d.fieldMetas[DelField(d, field)].vno
      && f.buf == ToLower(term) && f.buf1 == []
  {
  }

  /**
   * Deleting any other number of terms sends one EXDATA whose payload the
   * server reads back as one INDEX_REMOVE per lowercased term, in order.
   */
  lemma DelBatchUnbatches(d: SchemaData, field: Bytes, terms: seq<Bytes>)
    requires DelField(d, field) in d.fieldMetas && |terms| != 1
    requires forall k :: 0 <= k < |terms| ==> |terms[k]| < 0x1_0000_0000
    ensures var f := DelFrame(d, field, terms).value;
      f.cmd == CmdIndexExdata && f.buf1 == []
      && Unbatch(f.buf) == RemoveFrames(d.fieldMetas[DelField(d, field)].vno, terms)
  {
    var vno := d.fieldMetas[DelField(d, field)].vno;
    var fs := RemoveFrames(vno, terms);
    UnbatchEncodings(fs);
    SentWithoutBuf1(fs);
  }

  // ---------------------------------------------------------------------
  // The frames of a document.

  /** The tokens buildCmd turns into DOC_TERM frames: those of at most MaxTermLength bytes. */
  function ShortTerms(terms: seq<Bytes>): (r: seq<Bytes>)
    ensures |r| <= |terms|
    decreases |terms|
  {
    if terms == [] then []
    else
      var last := terms[|terms| - 1];
      ShortTerms(terms[..|terms| - 1]) + (if |last| > MaxTermLength then [] else [last])
  }

  /** TermFrames is one TermFrame per short token, in the tokens' order. */
  lemma {:induction false} TermFramesOfShort(terms: seq<Bytes>, wdf: byte, vno: byte)
    ensures var short := ShortTerms(terms); var fs := TermFrames(terms, wdf, vno);
      |fs| == |short| && forall k :: 0 <= k < |fs| ==> fs[k] == TermFrame(wdf, vno, short[k])
    decreases |terms|
  {
    if terms != [] {
      TermFramesOfShort(terms[..|terms| - 1], wdf, vno);
    }
  }

  /** Exactly the tokens of at most MaxTermLength bytes are kept. */
  lemma {:induction false} ShortTermsMembers(terms: seq<Bytes>)
    ensures forall t :: t in ShortTerms(terms) <==> t in terms && |t| <= MaxTermLength
    decreases |terms|
  {
    if terms != [] {
      var init := terms[..|terms| - 1];
      ShortTermsMembers(init);
      assert terms == init + [terms[|terms| - 1]];
    }
  }

  /**
   * A token gets its DOC_TERM frame exactly when it is at most MaxTermLength
   * bytes, and every DOC_TERM frame comes from such a token.
   */
  lemma TermFramesExactly(terms: seq<Bytes>, wdf: byte, vno: byte)
    ensures forall t :: t in terms && |t| <= MaxTermLength ==> TermFrame(wdf, vno, t) in TermFrames(terms, wdf, vno)
    ensures forall fr :: fr in TermFrames(terms, wdf, vno) ==>
      exists t :: t in terms && |t| <= MaxTermLength && fr == TermFrame(wdf, vno, t)
  {
    TermFramesOfShort(terms, wdf, vno);
    ShortTermsMembers(terms);
    var short := ShortTerms(terms);
    var fs := TermFrames(terms, wdf, vno);
    forall t | t in terms && |t| <= MaxTermLength
      ensures TermFrame(wdf, vno, t) in fs
    {
      var k :| 0 <= k < |short| && short[k] == t;
      assert fs[k] == TermFrame(wdf, vno, t);
    }
    forall fr | fr in fs
      ensures exists t :: t in terms && |t| <= MaxTermLength && fr == TermFrame(wdf, vno, t)
    {
      var k :| 0 <= k < |fs| && fs[k] == fr;
      assert short[k] in short;
    }
  }

  /** Every frame of TermFrames is a DOC_TERM. */
  lemma TermFramesDoc(terms: seq<Bytes>, wdf: byte, vno: byte)
    ensures forall k :: 0 <= k < |TermFrames(terms, wdf, vno)| ==> DocFrame(TermFrames(terms, wdf, vno)[k])
  {
  }

  /**
   * buildCmd adds nothing for a missing or empty value; otherwise its
   * frames are document frames ending with the DOC_VALUE of the value.
   */
  lemma BuildFramesShape(f: Bytes, v: FieldMeta, doc: map<Bytes, Bytes>, tokens: Bytes -> seq<Bytes>)
    ensures var fs := BuildFrames(f, v, doc, tokens);
      (fs == [] <==> f !in doc || doc[f] == [])
      && (fs != [] ==> fs[|fs| - 1] == ValueFrame(v, doc[f]))
      && forall k :: 0 <= k < |fs| ==> DocFrame(fs[k])
  {
    if f in doc && doc[f] != [] {
      var terms := IndexTokens(v, doc[f], tokens);
      var s, m := SelfFrames(v, terms), MixedFrames(v, terms);
      TermFramesDoc(terms, Wdf(v), v.vno);
      assert forall k :: 0 <= k < |s| ==> DocFrame(s[k]);
      assert forall k :: 0 <= k < |m| ==> DocFrame(m[k]);
    }
  }

  /** The frames of parts that are all document frames are document frames. */
  lemma {:induction false} ConcatDoc(parts: seq<seq<Frame>>)
    requires forall j, k :: 0 <= j < |parts| && 0 <= k < |parts[j]| ==> DocFrame(parts[j][k])
    ensures forall k :: 0 <= k < |Concat(parts)| ==> DocFrame(Concat(parts)[k])
    decreases |parts|
  {
    if parts != [] {
      var init := parts[..|parts| - 1];
      assert forall j, k :: 0 <= j < |init| && 0 <= k < |init[j]| ==> DocFrame(init[j][k]) by {
        assert forall j :: 0 <= j < |init| ==> init[j] == parts[j];
      }
      ConcatDoc(init);
      var last := parts[|parts| - 1];
      assert forall k :: 0 <= k < |last| ==> DocFrame(last[k]);
    }
  }

  /** Apart from the request, every frame update sends before SUBMIT is a document frame. */
  lemma DocumentFramesDoc(d: SchemaData, doc: map<Bytes, Bytes>, add: bool, order: seq<Bytes>, tokens: Bytes -> seq<Bytes>)
    requires d.id.Some? && d.id.value.name in doc
    requires forall k :: 0 <= k < |order| ==> order[k] in d.fieldMetas
    ensures var fs := DocumentFrames(d, doc, add, order, tokens);
      fs[0].cmd == CmdIndexRequest && forall k :: 1 <= k < |fs| ==> DocFrame(fs[k])
  {
    var idField := d.id.value;
    var parts := FieldParts(d.fieldMetas, order, doc, tokens);
    forall j | 0 <= j < |parts|
      ensures forall k :: 0 <= k < |parts[j]| ==> DocFrame(parts[j][k])
    {
      BuildFramesShape(order[j], d.fieldMetas[order[j]], doc, tokens);
    }
    ConcatDoc(parts);
    BuildFramesShape(idField.name, idField, doc, tokens);
    RequestThenDoc(RequestFrame(add, idField.vno, doc[idField.name]), BuildFrames(idField.name, idField, doc, tokens), Concat(parts));
  }

  lemma RequestThenDoc(a: Frame, b: seq<Frame>, c: seq<Frame>)
    requires forall k :: 0 <= k < |b| ==> DocFrame(b[k])
    requires forall k :: 0 <= k < |c| ==> DocFrame(c[k])
    ensures var fs := [a] + b + c; fs[0] == a && forall k :: 1 <= k < |fs| ==> DocFrame(fs[k])
  {
    var fs := [a] + b + c;
    assert forall k :: 1 <= k < |fs| ==> fs[k] == if k < 1 + |b| then b[k - 1] else c[k - 1 - |b|];
  }

  /** The server answers none of the frames update sends before SUBMIT. */
  lemma DocumentFramesDeferred(d: SchemaData, doc: map<Bytes, Bytes>, add: bool, order: seq<Bytes>, tokens: Bytes -> seq<Bytes>)
    requires d.id.Some? && d.id.value.name in doc
    requires forall k :: 0 <= k < |order| ==> order[k] in d.fieldMetas
    ensures var calls := CallsOf(DocumentFrames(d, doc, add, order, tokens), CmdNone);
      forall k :: 0 <= k < |calls| ==> Deferred(calls[k].frame.cmd)
  {
    DocumentFramesDoc(d, doc, add, order, tokens);
    DeferredCommands();
  }

  /**
   * On an open, little-endian, writable connection whose next reply is
   * OK / RQST_FINISHED, update buffers every frame of the document and
   * writes them, with SUBMIT, in one write, consuming that one reply.
   */
  lemma UpdateWritesOnce(st: IndexerState, d: SchemaData, doc: map<Bytes, Bytes>, add: bool, order: seq<Bytes>,
                         tokens: Bytes -> seq<Bytes>, reply: Frame, rest: Bytes)
    requires forall k :: 0 <= k < |order| ==> order[k] in d.fieldMetas
    requires d.id.Some? && d.id.value.name in doc && doc[d.id.value.name] != []
    requires st.conn.open && !st.conn.bigEndian && !st.conn.broken
    requires reply.cmd == CmdOk && GetArg(reply) == OkRqstFinished && |reply.buf| < 0x1_0000_0000
    requires st.conn.input == EncodeFrame(reply, false) + rest
    ensures var fs := DocumentFrames(d, doc, add, order, tokens);
      UpdateSpec(st, d, doc, add, order, tokens)
      == (st.(conn := st.conn.(buffer := [], input := rest,
                               output := st.conn.output + [st.conn.buffer + Encodings(fs, false) + EncodeFrame(SubmitFrame, false)])), None)
  {
    var fs := DocumentFrames(d, doc, add, order, tokens);
    UpdateSplits(st, d, doc, add, order, tokens);
    DocumentFramesDeferred(d, doc, add, order, tokens);
    SubmitWritesAll(st.conn, CallsOf(fs, CmdNone), reply, rest);
    FramesOfCalls(fs, CmdNone);
  }

  /** Deferred calls, then SUBMIT answered by the next reply: one write of everything. */
  lemma SubmitWritesAll(c: ConnState, calls: seq<Call>, reply: Frame, rest: Bytes)
    requires c.open && !c.bigEndian && !c.broken
    requires forall k :: 0 <= k < |calls| ==> Deferred(calls[k].frame.cmd)
    requires reply.cmd == CmdOk && GetArg(reply) == OkRqstFinished && |reply.buf| < 0x1_0000_0000
    requires c.input == EncodeFrame(reply, false) + rest
    ensures var fs := Frames(calls);
      RunCalls(c, calls) == (c.(buffer := c.buffer + Encodings(fs, false)), None)
      && ExecOKSpec(c.(buffer := c.buffer + Encodings(fs, false)), SubmitFrame, OkRqstFinished)
         == (c.(buffer := [], output := c.output + [c.buffer + Encodings(fs, false) + EncodeFrame(SubmitFrame, false)], input := rest),
             Ok(Sent(reply)))
  {
    var fs := Frames(calls);
    RunDeferred(c, calls);
    var c1 := c.(buffer := c.buffer + Encodings(fs, false));
    SubmitAnswered(c1, reply, rest);
  }

  /** SUBMIT is never buffered: it writes the buffer with it and reads its reply. */
  lemma SubmitAnswered(c: ConnState, reply: Frame, rest: Bytes)
    requires c.open && !c.bigEndian && !c.broken
    requires reply.cmd == CmdOk && GetArg(reply) == OkRqstFinished && |reply.buf| < 0x1_0000_0000
    requires c.input == EncodeFrame(reply, false) + rest
    ensures ExecOKSpec(c, SubmitFrame, OkRqstFinished)
         == (c.(buffer := [], output := c.output + [c.buffer + EncodeFrame(SubmitFrame, false)], input := rest), Ok(Sent(reply)))
  {
    DeferredCommands();
    ExecRoundTrip(c, SubmitFrame, OkRqstFinished, CmdOk, reply, rest);
  }

  // ---------------------------------------------------------------------
  // The client-side buffer.

  /** A frame stays at most 2 GiB, so the uint32 sum of the buffer and the frame does not wrap. */
  predicate Small(f: Frame)
  {
    |f.buf| < 0x8000_0000
  }

  /**
   * With a well-formed buffer, OpenBuffer flushes it and then closes it if
   * the flush fails; otherwise it reopens (size > 0) or closes it. The
   * branch that keeps a buffer of size << 20 bytes is never taken, since
   * the buffer's size is BufferCapacity. Either way the result is well formed.
   */
  lemma OpenBufferReopens(st: IndexerState, size: uint32)
    requires WellBuffered(st)
    ensures var (r, e) := OpenBufferSpec(st, size);
      var sz := if size > MaxBufferSize then MaxBufferSize else size;
      var (fl, fe) := FlushSpec(st);
      WellBuffered(r)
      && (st.buffer.Some? && fe.Some? ==> r == fl.(buffer := None, bufferSize := 0) && e == fe)
      && (st.buffer.Some? && fe.None? ==> r == Reopened(fl, sz) && e.None?)
      && (st.buffer.None? ==> r == Reopened(st, sz) && e.None?)
  {
    var sz: uint32 := if size > MaxBufferSize then MaxBufferSize else size;
    assert sz as int * 0x10_0000 != BufferCapacity as int;
  }

  /** Submit ships what is buffered and always leaves the indexer unbuffered. */
  lemma SubmitUnbuffers(st: IndexerState)
    requires WellBuffered(st)
    ensures var (fl, fe) := FlushSpec(st);
      OpenBufferSpec(st, 0) == (st.(conn := fl.conn, buffer := None, bufferSize := 0), fe)
  {
    OpenBufferReopens(st, 0);
  }

  /**
   * bufferExec with a buffer holding the encodings of fs: either the frame's
   * encoding is appended, or the buffer is shipped as one EXDATA frame and
   * then holds the frame alone. A failed flush drops the batch and the frame.
   */
  lemma BufferExecBatches(st: IndexerState, f: Frame, resArg: uint16, fs: seq<Frame>)
    requires st.buffer == Some(Encodings(fs, false))
    ensures var (r, e) := BufferExecSpec(st, f, resArg);
      (e.None? ==>
        r.buffer == Some(Encodings(fs + [f], false))
        || (fs != [] && r.buffer == Some(Encodings([f], false))
            && r.conn == ExecOKSpec(st.conn, ExdataFrame(Encodings(fs, false)), OkRqstFinished).0))
      && (e.Some? ==> fs != [] && r.buffer == Some([]))
  {
    var enc := EncodeFrame(f, false);
    EncodingsAppend(fs, f, false);
    EncodingsAppend([], f, false);
    assert [] + [f] == [f] && [] + enc == enc;
    if fs != [] {
      assert |Encodings(fs, false)| >= 8;
    }
  }

  /**
   * The buffer never grows past BufferCapacity bytes, except to hold a
   * single frame that is larger on its own.
   */
  lemma BufferExecBound(st: IndexerState, f: Frame, resArg: uint16)
    requires WellBuffered(st) && st.buffer.Some? && |st.buffer.value| <= BufferCapacity as int && Small(f)
    ensures var (r, e) := BufferExecSpec(st, f, resArg);
      e.None? ==> |r.buffer.value| <= BufferCapacity as int || r.buffer.value == EncodeFrame(f, false)
  {
    var enc := EncodeFrame(f, false);
    assert BufferExecSpec(st, f, resArg) == AppendSpec(st, enc);
    if (|st.buffer.value| + |enc|) % 0x1_0000_0000 > st.bufferSize {
      var (st1, err) := FlushSpec(st);
      assert st1.buffer == Some([]);
    }
  }

  /**
   * flushBuffer on an open, little-endian, writable connection whose next
   * reply is OK / RQST_FINISHED writes the pending frames and one EXDATA
   * carrying the buffer, and empties the buffer.
   */
  lemma FlushShips(st: IndexerState, reply: Frame, rest: Bytes)
    requires st.buffer.Some? && st.buffer.value != []
    requires st.conn.open && !st.conn.bigEndian && !st.conn.broken
    requires reply.cmd == CmdOk && GetArg(reply) == OkRqstFinished && |reply.buf| < 0x1_0000_0000
    requires st.conn.input == EncodeFrame(reply, false) + rest
    ensures FlushSpec(st)
         == (st.(conn := st.conn.(buffer := [], input := rest,
                                  output := st.conn.output + [st.conn.buffer + EncodeFrame(ExdataFrame(st.buffer.value), false)]),
                 buffer := Some([])), None)
  {
    DeferredCommands();
    ExecRoundTrip(st.conn, ExdataFrame(st.buffer.value), OkRqstFinished, CmdOk, reply, rest);
  }

  // ---------------------------------------------------------------------
  // Synonyms.

  /**
   * Without a buffer, AddSynonym and DelSynonym make one ExecOK per
   * non-empty synonym, in order, and stop at the first error.
   */
  lemma {:induction false} SynonymsUnbuffered(st: IndexerState, op: byte, word: Bytes, synonyms: seq<Bytes>)
    requires st.buffer.None?
    ensures var (c, e) := RunCalls(st.conn, SynonymCalls(op, word, NonEmpty(synonyms)));
      SynonymsFrom(st, op, word, synonyms) == (st.(conn := c), e)
    decreases |synonyms|
  {
    if synonyms != [] {
      var tail := synonyms[1..];
      if synonyms[0] == [] {
        SynonymsUnbuffered(st, op, word, tail);
      } else {
        var (s1, resp) := ExecOKSpec(st.conn, SynonymFrame(op, word, synonyms[0]), OkRqstFinished);
        if resp.Ok? {
          SynonymsUnbuffered(st.(conn := s1), op, word, tail);
        }
        SynonymCallsCons(op, word, synonyms[0], NonEmpty(tail));
      }
    }
  }

  lemma SynonymCallsCons(op: byte, word: Bytes, synonym: Bytes, rest: seq<Bytes>)
    ensures var calls := SynonymCalls(op, word, [synonym] + rest);
      calls[0] == Call(SynonymFrame(op, word, synonym), OkRqstFinished) && calls[1..] == SynonymCalls(op, word, rest)
  {
  }
}
