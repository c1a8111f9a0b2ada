// indexer.go: the index-server client. It turns documents, deletions and
// synonyms into frames, sends them over its connection, and can collect
// frames in a small client-side buffer that it ships as one EXDATA frame.
//
// Replies come from the connection's abstract input stream. The tokenizer
// is a function value; the default one splits on single spaces.
module Indexers {
  import opened Types
  import opened Codes
  import opened GoStrings
  import opened Command
  import opened Connections
  import opened Fields
  import opened Schemas
  import Tokenizer

  /** Tokens longer than this many bytes are not indexed as terms. */
  const MaxTermLength: nat := 200

  /** The capacity OpenBuffer gives the buffer, in bytes (not size << 20). */
  const BufferCapacity: uint32 := 30

  /** The largest size OpenBuffer accepts, in MiB. */
  const MaxBufferSize: uint32 := 32

  /** The state of an Indexer: its connection and its batching fields. */
  datatype IndexerState = IndexerState(
    conn: ConnState,
    buffer: Option<Bytes>,   // nil, or the encoded frames not yet shipped
    bufferSize: uint32,
    rebuilding: bool)

  /** The error of an ExecOK, if any. */
  function ErrorOf(resp: Result<Frame>): (e: Option<Error>)
    ensures e.None? <==> resp.Ok?
    ensures resp.Err? ==> e == Some(resp.error)
  {
    if resp.Err? then Some(resp.error) else None
  }

  /** Every frame sent with the same expected reply argument. */
  function CallsOf(fs: seq<Frame>, resArg: uint16): (calls: seq<Call>)
    ensures |calls| == |fs|
    ensures forall k :: 0 <= k < |fs| ==> calls[k] == Call(fs[k], resArg)
  {
    seq(|fs|, k requires 0 <= k < |fs| => Call(fs[k], resArg))
  }

  lemma FramesOfCalls(fs: seq<Frame>, resArg: uint16)
    ensures Frames(CallsOf(fs, resArg)) == fs
  {
  }

  // ---------------------------------------------------------------------
  // The frames of one document (update and buildCmd).

  /**
   * The wdf of a term: 1 for a boolean index, else uint8(Weight | CHECKSTEM),
   * that is, the low byte of the weight with the CHECKSTEM bit (4) set.
   */
  function Wdf(v: FieldMeta): byte
  {
    if IsBoolIndex(v) then 1
    else
      var low := v.weight as int % 0x100;
      if (low / IndexFlagCheckstem as int) % 2 == 1 then low else low + IndexFlagCheckstem as int
  }

  function TermFrame(wdf: byte, vno: byte, term: Bytes): Frame
  {
    NewCommand2(CmdDocTerm, wdf, vno, [ToLower(term)])
  }

  /** One DOC_TERM frame per token of at most MaxTermLength bytes, in order. */
  function TermFrames(terms: seq<Bytes>, wdf: byte, vno: byte): (fs: seq<Frame>)
    ensures |fs| <= |terms|
    ensures forall k :: 0 <= k < |fs| ==>
      fs[k].cmd == CmdDocTerm && fs[k].arg1 == wdf && fs[k].arg2 == vno
      && |fs[k].buf| <= MaxTermLength && fs[k].buf1 == []
    decreases |terms|
  {
    if terms == [] then []
    else
      var last := terms[|terms| - 1];
      TermFrames(terms[..|terms| - 1], wdf, vno)
        + (if |last| > MaxTermLength then [] else [TermFrame(wdf, vno, last)])
  }

  /** The tokens buildCmd indexes: the tokenizer's, for a field with an index. */
  function IndexTokens(v: FieldMeta, value: Bytes, tokens: Bytes -> seq<Bytes>): seq<Bytes>
  {
    if HasIndex(v) then tokens(value) else []
  }

  /** The DOC_TERM frames of a self-indexed field. */
  function SelfFrames(v: FieldMeta, terms: seq<Bytes>): seq<Frame>
  {
    if |terms| > 0 && HasIndexSelf(v) then TermFrames(terms, Wdf(v), v.vno) else []
  }

  /** The DOC_INDEX frame of a mixed-indexed field: the tokens joined by spaces, in their own case. */
  function MixedFrames(v: FieldMeta, terms: seq<Bytes>): seq<Frame>
  {
    if |terms| > 0 && HasIndexMixed(v) then [NewCommand2(CmdDocIndex, v.weight % 0x100, MixedVno, [Join(terms, [Space])])] else []
  }

  /** The DOC_VALUE frame carrying the raw value, flagged when the field is numeric. */
  function ValueFrame(v: FieldMeta, value: Bytes): Frame
  {
    NewCommand2(CmdDocValue, if IsNumeric(v) then ValueFlagNumeric else 0, v.vno, [value])
  }

  /** The frames buildCmd appends for field f with metadata v. */
  function BuildFrames(f: Bytes, v: FieldMeta, doc: map<Bytes, Bytes>, tokens: Bytes -> seq<Bytes>): seq<Frame>
  {
    if f in doc && doc[f] != [] then
      var terms := IndexTokens(v, doc[f], tokens);
      SelfFrames(v, terms) + MixedFrames(v, terms) + [ValueFrame(v, doc[f])]
    else []
  }

  /** A frame of a document that the server does not answer. */
  predicate DocFrame(f: Frame)
  {
    f.cmd == CmdDocTerm || f.cmd == CmdDocIndex || f.cmd == CmdDocValue
  }

  /** The frames of the parts, one part after the other. */
  function Concat(parts: seq<seq<Frame>>): seq<Frame>
  {
    if parts == [] then [] else Concat(parts[..|parts| - 1]) + parts[|parts| - 1]
  }

  /** The frames of each field in order: none for a field of type "id", else buildCmd's. */
  function FieldParts(fm: map<Bytes, FieldMeta>, order: seq<Bytes>, doc: map<Bytes, Bytes>, tokens: Bytes -> seq<Bytes>): (ps: seq<seq<Frame>>)
    requires forall k :: 0 <= k < |order| ==> order[k] in fm
    ensures |ps| == |order|
    ensures forall k :: 0 <= k < |order| ==> ps[k] == FieldPart(fm, order[k], doc, tokens)
  {
    seq(|order|, k requires 0 <= k < |order| => FieldPart(fm, order[k], doc, tokens))
  }

  /** The frames of one field in the range over FieldMetas: none for an "id" field. */
  function FieldPart(fm: map<Bytes, FieldMeta>, f: Bytes, doc: map<Bytes, Bytes>, tokens: Bytes -> seq<Bytes>): seq<Frame>
    requires f in fm
  {
    if fm[f].fieldType == TypeId then [] else BuildFrames(f, fm[f], doc, tokens)
  }

  /** The INDEX_REQUEST frame: ADD, or UPDATE naming the id field's number and the key. */
  function RequestFrame(add: bool, idVno: byte, key: Bytes): Frame
  {
    if add then Frame(CmdIndexRequest, IndexRequestAdd, 0, [], [])
    else Frame(CmdIndexRequest, IndexRequestUpdate, idVno, key, [])
  }

  const SubmitFrame: Frame := Frame(CmdIndexSubmit, 0, 0, [], [])

  /**
   * The range over FieldMetas, in the order Go happens to choose: every
   * field name exactly once.
   */
  predicate Enumerates(order: seq<Bytes>, fm: map<Bytes, FieldMeta>)
  {
    (forall k :: 0 <= k < |order| ==> order[k] in fm)
    && (forall n :: n in fm ==> n in order)
    && (forall j, k :: 0 <= j < k < |order| ==> order[j] != order[k])
  }

  /** Every frame update sends before SUBMIT: the request, the id field, then the other fields. */
  function DocumentFrames(d: SchemaData, doc: map<Bytes, Bytes>, add: bool, order: seq<Bytes>, tokens: Bytes -> seq<Bytes>): seq<Frame>
    requires d.id.Some? && d.id.value.name in doc
    requires forall k :: 0 <= k < |order| ==> order[k] in d.fieldMetas
  {
    var idField := d.id.value;
    [RequestFrame(add, idField.vno, doc[idField.name])]
      + BuildFrames(idField.name, idField, doc, tokens)
      + Concat(FieldParts(d.fieldMetas, order, doc, tokens))
  }

  /** update(doc, add): the calls it makes, each waiting for any OK, then SUBMIT. */
  function UpdateCalls(d: SchemaData, doc: map<Bytes, Bytes>, add: bool, order: seq<Bytes>, tokens: Bytes -> seq<Bytes>): seq<Call>
    requires d.id.Some? && d.id.value.name in doc
    requires forall k :: 0 <= k < |order| ==> order[k] in d.fieldMetas
  {
    CallsOf(DocumentFrames(d, doc, add, order, tokens), CmdNone) + [Call(SubmitFrame, OkRqstFinished)]
  }

  /**
   * update(doc, add): a schema without an id field is a nil dereference;
   * a missing or empty primary key fails before anything is sent.
   */
  function UpdateSpec(st: IndexerState, d: SchemaData, doc: map<Bytes, Bytes>, add: bool, order: seq<Bytes>, tokens: Bytes -> seq<Bytes>)
    : (r: (IndexerState, Option<Error>))
    requires forall k :: 0 <= k < |order| ==> order[k] in d.fieldMetas
    ensures r.0 == st.(conn := r.0.conn)
    ensures d.id.None? ==> r == (st, Some(Panic(NilDereference)))
    ensures d.id.Some? && (d.id.value.name !in doc || doc[d.id.value.name] == []) ==>
      r == (st, Some(MissingPrimaryKey(d.id.value.name)))
  {
    if d.id.None? then (st, Some(Panic(NilDereference)))
    else
      var idField := d.id.value;
      if idField.name !in doc || doc[idField.name] == [] then (st, Some(MissingPrimaryKey(idField.name)))
      else
        var (c, err) := RunCalls(st.conn, UpdateCalls(d, doc, add, order, tokens));
        (st.(conn := c), err)
  }

  // ---------------------------------------------------------------------
  // Deletion.

  function RemoveFrame(vno: byte, term: Bytes): Frame
  {
    NewCommand2(CmdIndexRemove, 0, vno, [ToLower(term)])
  }

  function RemoveFrames(vno: byte, terms: seq<Bytes>): (fs: seq<Frame>)
    ensures |fs| == |terms|
    ensures forall k :: 0 <= k < |terms| ==> fs[k] == RemoveFrame(vno, terms[k])
  {
    seq(|terms|, k requires 0 <= k < |terms| => RemoveFrame(vno, terms[k]))
  }

  /** The EXDATA frame carrying an already encoded batch of frames. */
  function ExdataFrame(batch: Bytes): Frame
  {
    NewCommand(CmdIndexExdata, 0, [batch])
  }

  /** The name DelByField deletes by: the id field's name when none is given. */
  function DelField(d: SchemaData, field: Bytes): Bytes
  {
    if field == [] then d.strId else field
  }

  /**
   * The frame DelByField sends: one INDEX_REMOVE for one term; for any
   * other number of terms, their little-endian encodings in one EXDATA.
   */
  function DelFrame(d: SchemaData, field: Bytes, terms: seq<Bytes>): (r: Result<Frame>)
    ensures r.Err? <==> DelField(d, field) !in d.fieldMetas
    ensures r.Err? ==> r.error == UndefinedField(DelField(d, field))
  {
    var name := DelField(d, field);
    if name !in d.fieldMetas then Err(UndefinedField(name))
    else
      var vno := d.fieldMetas[name].vno;
      if |terms| == 1 then Ok(RemoveFrame(vno, terms[0]))
      else Ok(ExdataFrame(Encodings(RemoveFrames(vno, terms), false)))
  }

  function DelSpec(st: IndexerState, d: SchemaData, field: Bytes, terms: seq<Bytes>): (r: (IndexerState, Option<Error>))
    ensures r.0 == st.(conn := r.0.conn)
    ensures DelFrame(d, field, terms).Err? ==> r == (st, Some(DelFrame(d, field, terms).error))
  {
    match DelFrame(d, field, terms)
    case Err(e) => (st, Some(e))
    case Ok(f) =>
      var (c, resp) := ExecOKSpec(st.conn, f, OkRqstFinished);
      (st.(conn := c), ErrorOf(resp))
  }

  // ---------------------------------------------------------------------
  // The client-side buffer.

  /** Either no buffer and size 0, or an open buffer of BufferCapacity bytes. */
  predicate WellBuffered(st: IndexerState)
  {
    (st.buffer.None? && st.bufferSize == 0) || (st.buffer.Some? && st.bufferSize == BufferCapacity)
  }

  /** flushBuffer: ship a non-empty buffer as one EXDATA frame and empty it, even on failure. */
  function FlushSpec(st: IndexerState): (r: (IndexerState, Option<Error>))
    ensures r.0 == st.(conn := r.0.conn, buffer := r.0.buffer)
    ensures st.buffer.None? || st.buffer.value == [] ==> r == (st, None)
    ensures st.buffer.Some? ==> r.0.buffer == Some([])
  {
    if st.buffer.Some? && st.buffer.value != [] then
      var (c, resp) := ExecOKSpec(st.conn, ExdataFrame(st.buffer.value), OkRqstFinished);
      (st.(conn := c, buffer := Some([])), ErrorOf(resp))
    else (st, None)
  }

  /**
   * bufferExec: with the buffer open, flush first when the buffered bytes
   * and the new frame's bytes (summed as a uint32) exceed bufferSize, then
   * append the frame's little-endian encoding whatever its size; with no
   * buffer, ExecOK the frame.
   */
  function BufferExecSpec(st: IndexerState, f: Frame, resArg: uint16): (r: (IndexerState, Option<Error>))
    ensures r.0 == st.(conn := r.0.conn, buffer := r.0.buffer)
    ensures st.buffer.Some? ==> r.0.buffer.Some?
    ensures st.buffer.None? ==> r.0.buffer.None?
  {
    if st.buffer.Some? then AppendSpec(st, EncodeFrame(f, false))
    else
      var (c, resp) := ExecOKSpec(st.conn, f, resArg);
      (st.(conn := c), ErrorOf(resp))
  }

  /** The buffered branch of bufferExec, for the frame's encoding enc. */
  function AppendSpec(st: IndexerState, enc: Bytes): (r: (IndexerState, Option<Error>))
    requires st.buffer.Some?
    ensures r.0 == st.(conn := r.0.conn, buffer := r.0.buffer) && r.0.buffer.Some?
  {
    if (|st.buffer.value| + |enc|) % 0x1_0000_0000 > st.bufferSize then
      var (st1, err) := FlushSpec(st);
      if err.Some? then (st1, err) else (st1.(buffer := Some(st1.buffer.value + enc)), None)
    else (st.(buffer := Some(st.buffer.value + enc)), None)
  }

  /** The end of OpenBuffer: a positive size opens an empty buffer, 0 closes it. */
  function Reopened(st: IndexerState, size: uint32): (r: IndexerState)
    ensures WellBuffered(r)
    ensures size > 0 <==> r.buffer.Some?
  {
    if size > 0 then st.(bufferSize := BufferCapacity, buffer := Some([]))
    else st.(bufferSize := 0, buffer := None)
  }

  /**
   * OpenBuffer(size): clamp to 32; flush an open buffer first, and close it
   * if that fails; keep it if bufferSize already is size << 20; else reopen.
   */
  function OpenBufferSpec(st: IndexerState, size: uint32): (r: (IndexerState, Option<Error>))
    ensures r.0 == st.(conn := r.0.conn, buffer := r.0.buffer, bufferSize := r.0.bufferSize)
    ensures st.buffer.None? ==> r == (Reopened(st, if size > MaxBufferSize then MaxBufferSize else size), None)
  {
    var sz: uint32 := if size > MaxBufferSize then MaxBufferSize else size;
    if st.buffer.Some? then
      var (st1, err) := FlushSpec(st);
      if err.Some? then (st1.(buffer := None, bufferSize := 0), err)
      else if st1.bufferSize == sz * 0x10_0000 then (st1, None)
      else (Reopened(st1, sz), None)
    else (Reopened(st, sz), None)
  }

  // ---------------------------------------------------------------------
  // Synonyms.

  function SynonymFrame(op: byte, word: Bytes, synonym: Bytes): (f: Frame)
    ensures f.cmd == CmdIndexSynonyms && f.arg1 == op && f.arg2 == 0
    ensures f.buf == word && f.buf1 == synonym
  {
    NewCommand2(CmdIndexSynonyms, op, 0, [word, synonym])
  }

  /** The loop of AddSynonym and DelSynonym: skip empty synonyms, stop at the first error. */
  function SynonymsFrom(st: IndexerState, op: byte, word: Bytes, synonyms: seq<Bytes>): (r: (IndexerState, Option<Error>))
    decreases |synonyms|
  {
    if synonyms == [] then (st, None)
    else if synonyms[0] == [] then SynonymsFrom(st, op, word, synonyms[1..])
    else
      var (st1, err) := BufferExecSpec(st, SynonymFrame(op, word, synonyms[0]), OkRqstFinished);
      if err.Some? then (st1, err) else SynonymsFrom(st1, op, word, synonyms[1..])
  }

  /** AddSynonym(word, synonyms...): nothing for an empty word or no synonyms. */
  function AddSynonymSpec(st: IndexerState, word: Bytes, synonyms: seq<Bytes>): (r: (IndexerState, Option<Error>))
    ensures word == [] || synonyms == [] ==> r == (st, None)
  {
    if word == [] || |synonyms| == 0 then (st, None)
    else SynonymsFrom(st, SynonymsAdd, word, synonyms)
  }

  /** DelSynonym(word, synonyms...): with no synonyms, one DEL frame for the whole word. */
  function DelSynonymSpec(st: IndexerState, word: Bytes, synonyms: seq<Bytes>): (r: (IndexerState, Option<Error>))
    ensures word == [] ==> r == (st, None)
    ensures word != [] && synonyms == [] ==> r == BufferExecSpec(st, SynonymFrame(SynonymsDel, word, []), OkRqstFinished)
  {
    if word == [] then (st, None)
    else if |synonyms| == 0 then BufferExecSpec(st, SynonymFrame(SynonymsDel, word, []), OkRqstFinished)
    else SynonymsFrom(st, SynonymsDel, word, synonyms)
  }

  /** The non-empty synonyms, in order. */
  function NonEmpty(synonyms: seq<Bytes>): (r: seq<Bytes>)
    ensures forall k :: 0 <= k < |r| ==> r[k] != []
    ensures |r| <= |synonyms|
    decreases |synonyms|
  {
    if synonyms == [] then []
    else if synonyms[0] == [] then NonEmpty(synonyms[1..])
    else [synonyms[0]] + NonEmpty(synonyms[1..])
  }

  function SynonymCalls(op: byte, word: Bytes, synonyms: seq<Bytes>): (calls: seq<Call>)
    ensures |calls| == |synonyms|
    ensures forall k :: 0 <= k < |synonyms| ==> calls[k] == Call(SynonymFrame(op, word, synonyms[k]), OkRqstFinished)
  {
    seq(|synonyms|, k requires 0 <= k < |synonyms| => Call(SynonymFrame(op, word, synonyms[k]), OkRqstFinished))
  }

  // ---------------------------------------------------------------------
  // Rebuilding.

  /** XS_CMD_INDEX_REBUILD with arg1 0 (begin), 1 (end) or 2 (stop). */
  function RebuildFrame(op: byte): (f: Frame)
    ensures f.cmd == CmdIndexRebuild && f.arg1 == op && f.arg2 == 0 && f.buf == [] && f.buf1 == []
  {
    Frame(CmdIndexRebuild, op, 0, [], [])
  }

  /** The frame SetDB fills in field by field: it is the frame IndexSetDbCmd builds. */
  function SetDbFrame(db: Bytes): (f: Frame)
    ensures f == IndexSetDbCmd(db)
  {
    EmptyFrame.(cmd := CmdIndexSetDb, buf := db)
  }

  /** One ExecOK on the indexer's connection. */
  function Exchange(st: IndexerState, f: Frame, resArg: uint16): (r: (IndexerState, Option<Error>))
    ensures r.0 == st.(conn := r.0.conn)
  {
    var (c, resp) := ExecOKSpec(st.conn, f, resArg);
    (st.(conn := c), ErrorOf(resp))
  }

  // ---------------------------------------------------------------------
  // The indexer object.

  class Indexer {
    var conn: Connection?
    const schema: SchemaData
    var tokenizer: Bytes -> seq<Bytes>
    var buffer: Option<Bytes>
    var bufferSize: uint32
    var rebuilding: bool

    function State(): IndexerState
      reads this, conn
      requires conn != null
    {
      IndexerState(conn.State(), buffer, bufferSize, rebuilding)
    }

    /** An indexer over an open connection, with no buffer and the default tokenizer. */
    constructor (conn: Connection, schema: SchemaData)
      ensures this.conn == conn && this.schema == schema && tokenizer == Tokenizer.GetTokens
      ensures buffer.None? && bufferSize == 0 && !rebuilding
    {
      this.conn := conn;
      this.schema := schema;
      tokenizer := Tokenizer.GetTokens;
      buffer := None;
      bufferSize := 0;
      rebuilding := false;
    }

    /** SetTokenizer: a nil tokenizer leaves the current one. */
    method SetTokenizer(t: Option<Bytes -> seq<Bytes>>)
      modifies this
      ensures tokenizer == (if t.Some? then t.value else old(tokenizer))
      ensures conn == old(conn) && buffer == old(buffer) && bufferSize == old(bufferSize) && rebuilding == old(rebuilding)
    {
      if t.Some? {
        tokenizer := t.value;
      }
    }

    /**
     * setProject: USE the project; on failure the connection is closed and
     * dropped, on success the default tokenizer is installed.
     */
    method SetProject(project: Bytes) returns (err: Option<Error>)
      requires conn != null
      modifies this, conn
      ensures buffer == old(buffer) && bufferSize == old(bufferSize) && rebuilding == old(rebuilding)
      ensures var (st, e) := Exchange(old(State()), UseProjectCmd(project), OkProject);
        err == e
        && (e.Some? ==> conn == null && old(conn).State() == CloseSpec(st.conn))
        && (e.None? ==> conn == old(conn) && conn.State() == st.conn && tokenizer == Tokenizer.GetTokens)
    {
      var resp := conn.ExecOK(UseProjectCmd(project), OkProject);
      if resp.Err? {
        conn.Close();
        conn := null;
        return Some(resp.error);
      }
      tokenizer := Tokenizer.GetTokens;
      return None;
    }

    /** SetDB(db): select the database to index into. */
    method SetDB(db: Bytes) returns (err: Option<Error>)
      requires conn != null
      modifies conn
      ensures (State(), err) == Exchange(old(State()), IndexSetDbCmd(db), OkDbChanged)
    {
      var resp := conn.ExecOK(SetDbFrame(db), OkDbChanged);
      err := ErrorOf(resp);
    }

    /**
     * update(doc, add). The fields other than the id field are visited in
     * the order Go's map iteration happens to take, given as order.
     */
    method Put(doc: map<Bytes, Bytes>, add: bool, order: seq<Bytes>) returns (err: Option<Error>)
      requires conn != null
      requires Enumerates(order, schema.fieldMetas)
      modifies conn
      ensures (State(), err) == UpdateSpec(old(State()), schema, doc, add, order, tokenizer)
    {
      if schema.id.None? {
        return Some(Panic(NilDereference));
      }
      var idField := schema.id.value;
      if idField.name !in doc || doc[idField.name] == [] {
        return Some(MissingPrimaryKey(idField.name));
      }
      var cmds := DocumentCmds(schema, doc, add, order, tokenizer);
      UpdateSplits(old(State()), schema, doc, add, order, tokenizer);
      err := conn.Run(CallsOf(cmds, CmdNone));
      if err.Some? {
        return;
      }
      var resp := conn.ExecOK(SubmitFrame, OkRqstFinished);
      err := ErrorOf(resp);
    }

    /** FlushLogging: have the server flush the project's search log. */
    method FlushLogging() returns (err: Option<Error>)
      requires conn != null
      modifies conn
      ensures (State(), err) == Exchange(old(State()), EmptyFrame.(cmd := CmdFlushLogging), OkLogFlushed)
    {
      var resp := conn.ExecOK(EmptyFrame.(cmd := CmdFlushLogging), OkLogFlushed);
      err := ErrorOf(resp);
    }

    /** FlushIndex: have the server commit the index. */
    method FlushIndex() returns (err: Option<Error>)
      requires conn != null
      modifies conn
      ensures (State(), err) == Exchange(old(State()), EmptyFrame.(cmd := CmdIndexCommit), OkDbCommited)
    {
      var resp := conn.ExecOK(EmptyFrame.(cmd := CmdIndexCommit), OkDbCommited);
      err := ErrorOf(resp);
    }

    /** Clean: empty the index database. */
    method Clean() returns (err: Option<Error>)
      requires conn != null
      modifies conn
      ensures (State(), err) == Exchange(old(State()), NewCommand(CmdIndexCleanDb, 0, []), OkDbClean)
    {
      var resp := conn.ExecOK(NewCommand(CmdIndexCleanDb, 0, []), OkDbClean);
      err := ErrorOf(resp);
    }

    /** Add(doc): update with an ADD request. */
    method Add(doc: map<Bytes, Bytes>, order: seq<Bytes>) returns (err: Option<Error>)
      requires conn != null
      requires Enumerates(order, schema.fieldMetas)
      modifies conn
      ensures (State(), err) == UpdateSpec(old(State()), schema, doc, true, order, tokenizer)
    {
      err := Put(doc, true, order);
    }

    /** Update(doc): update with an UPDATE request naming the primary key. */
    method Update(doc: map<Bytes, Bytes>, order: seq<Bytes>) returns (err: Option<Error>)
      requires conn != null
      requires Enumerates(order, schema.fieldMetas)
      modifies conn
      ensures (State(), err) == UpdateSpec(old(State()), schema, doc, false, order, tokenizer)
    {
      err := Put(doc, false, order);
    }

    /** DelByField(field, terms...): delete the documents whose field holds one of the terms. */
    method DelByField(field: Bytes, terms: seq<Bytes>) returns (err: Option<Error>)
      requires conn != null
      modifies conn
      ensures (State(), err) == DelSpec(old(State()), schema, field, terms)
    {
      var name := field;
      if name == [] {
        name := schema.strId;
      }
      if name !in schema.fieldMetas {
        return Some(UndefinedField(name));
      }
      var idField := schema.fieldMetas[name];
      var f: Frame;
      if |terms| == 1 {
        f := NewCommand2(CmdIndexRemove, 0, idField.vno, [ToLower(terms[0])]);
      } else {
        var buf := EncodeRemovals(idField.vno, terms);
        f := NewCommand(CmdIndexExdata, 0, [buf]);
      }
      var resp := conn.ExecOK(f, OkRqstFinished);
      err := ErrorOf(resp);
    }

    /** Del(terms...): delete by the id field. */
    method Del(terms: seq<Bytes>) returns (err: Option<Error>)
      requires conn != null
      modifies conn
      ensures (State(), err) == DelSpec(old(State()), schema, [], terms)
    {
      err := DelByField([], terms);
    }

    /** flushBuffer. */
    method FlushBuffer() returns (err: Option<Error>)
      requires conn != null
      modifies this, conn
      ensures conn == old(conn) && tokenizer == old(tokenizer)
      ensures (State(), err) == FlushSpec(old(State()))
    {
      err := None;
      if buffer.Some? {
        var buf := buffer.value;
        if buf != [] {
          var resp := conn.ExecOK(NewCommand(CmdIndexExdata, 0, [buf]), OkRqstFinished);
          buffer := Some([]);
          err := ErrorOf(resp);
        }
      }
    }

    /** bufferExec(f, resArg). */
    method BufferExec(f: Frame, resArg: uint16) returns (err: Option<Error>)
      requires conn != null
      modifies this, conn
      ensures conn == old(conn) && tokenizer == old(tokenizer)
      ensures (State(), err) == BufferExecSpec(old(State()), f, resArg)
    {
      if buffer.Some? {
        err := AppendEncoded(EncodeFrame(f, false));
        return;
      }
      var resp := conn.ExecOK(f, resArg);
      err := ErrorOf(resp);
    }

    /** The buffered branch of bufferExec, for the frame's encoding buf. */
    method AppendEncoded(buf: Bytes) returns (err: Option<Error>)
      requires conn != null && buffer.Some?
      modifies this, conn
      ensures conn == old(conn) && tokenizer == old(tokenizer)
      ensures (State(), err) == AppendSpec(old(State()), buf)
    {
      var ln := |buffer.value|;
      if (|buf| + ln) % 0x1_0000_0000 > bufferSize {
        err := FlushBuffer();
        if err.Some? {
          return;
        }
      }
      buffer := Some(buffer.value + buf);
      return None;
    }

    /** OpenBuffer(size). */
    method OpenBuffer(size: uint32) returns (err: Option<Error>)
      requires conn != null
      modifies this, conn
      ensures conn == old(conn) && tokenizer == old(tokenizer)
      ensures (State(), err) == OpenBufferSpec(old(State()), size)
    {
      var sz := size;
      if sz > MaxBufferSize {
        sz := MaxBufferSize;
      }
      if buffer.Some? {
        err := FlushBuffer();
        if err.Some? {
          buffer := None;
          bufferSize := 0;
          return;
        }
        if bufferSize == sz * 0x10_0000 {
          return None;
        }
      }
      if sz > 0 {
        bufferSize := BufferCapacity;
        buffer := Some([]);
      } else {
        bufferSize := 0;
        buffer := None;
      }
      return None;
    }

    /** Submit: OpenBuffer(0), which ships and closes the buffer. */
    method Submit() returns (err: Option<Error>)
      requires conn != null
      modifies this, conn
      ensures conn == old(conn) && tokenizer == old(tokenizer)
      ensures (State(), err) == OpenBufferSpec(old(State()), 0)
    {
      err := OpenBuffer(0);
    }

    /** The loop shared by AddSynonym and DelSynonym. */
    method Synonyms(op: byte, word: Bytes, synonyms: seq<Bytes>) returns (err: Option<Error>)
      requires conn != null
      modifies this, conn
      ensures conn == old(conn) && tokenizer == old(tokenizer)
      ensures (State(), err) == SynonymsFrom(old(State()), op, word, synonyms)
    {
      var i := 0;
      while i < |synonyms|
        invariant 0 <= i <= |synonyms|
        invariant conn == old(conn) && tokenizer == old(tokenizer)
        invariant SynonymsFrom(old(State()), op, word, synonyms) == SynonymsFrom(State(), op, word, synonyms[i..])
      {
        assert synonyms[i..][0] == synonyms[i] && synonyms[i..][1..] == synonyms[i + 1..];
        if synonyms[i] != [] {
          err := BufferExec(SynonymFrame(op, word, synonyms[i]), OkRqstFinished);
          if err.Some? {
            return;
          }
        }
        i := i + 1;
      }
      assert synonyms[i..] == [];
      return None;
    }

    /** AddSynonym(word, synonyms...). */
    method AddSynonym(word: Bytes, synonyms: seq<Bytes>) returns (err: Option<Error>)
      requires conn != null
      modifies this, conn
      ensures conn == old(conn) && tokenizer == old(tokenizer)
      ensures (State(), err) == AddSynonymSpec(old(State()), word, synonyms)
    {
      if word == [] || |synonyms| == 0 {
        return None;
      }
      err := Synonyms(SynonymsAdd, word, synonyms);
    }

    /** DelSynonym(word, synonyms...). */
    method DelSynonym(word: Bytes, synonyms: seq<Bytes>) returns (err: Option<Error>)
      requires conn != null
      modifies this, conn
      ensures conn == old(conn) && tokenizer == old(tokenizer)
      ensures (State(), err) == DelSynonymSpec(old(State()), word, synonyms)
    {
      if word == [] {
        return None;
      }
      if |synonyms| == 0 {
        err := BufferExec(SynonymFrame(SynonymsDel, word, []), OkRqstFinished);
        return;
      }
      err := Synonyms(SynonymsDel, word, synonyms);
    }

    /** BeginRebuild: REBUILD with arg1 0; only success marks the indexer as rebuilding. */
    method BeginRebuild() returns (err: Option<Error>)
      requires conn != null
      modifies this, conn
      ensures conn == old(conn) && tokenizer == old(tokenizer)
      ensures var (st, e) := Exchange(old(State()), RebuildFrame(0), OkDbRebuild);
        err == e && State() == st.(rebuilding := st.rebuilding || e.None?)
    {
      var resp := conn.ExecOK(RebuildFrame(0), OkDbRebuild);
      if resp.Err? {
        return Some(resp.error);
      }
      rebuilding := true;
      return None;
    }

    /** EndRebuild: REBUILD with arg1 1; the rebuilding flag is left as it was. */
    method EndRebuild() returns (err: Option<Error>)
      requires conn != null
      modifies conn
      ensures (State(), err) == Exchange(old(State()), RebuildFrame(1), OkDbRebuild)
    {
      var resp := conn.ExecOK(RebuildFrame(1), OkDbRebuild);
      err := ErrorOf(resp);
    }

    /** StopRebuild: REBUILD with arg1 2; the rebuilding flag is left as it was. */
    method StopRebuild() returns (err: Option<Error>)
      requires conn != null
      modifies conn
      ensures (State(), err) == Exchange(old(State()), RebuildFrame(2), OkDbRebuild)
    {
      var resp := conn.ExecOK(RebuildFrame(2), OkDbRebuild);
      err := ErrorOf(resp);
    }

    /** Close: flush an open buffer (ignoring the outcome), close and drop the connection. */
    method Close()
      modifies this, conn
      ensures old(conn) == null ==> conn == null && buffer == old(buffer)
      ensures old(conn) != null ==>
        var st := FlushSpec(old(State())).0;
        conn == null && old(conn).State() == CloseSpec(st.conn) && buffer == st.buffer
      ensures bufferSize == old(bufferSize) && rebuilding == old(rebuilding) && tokenizer == old(tokenizer)
    {
      if conn != null {
        if buffer.Some? {
          var _ := FlushBuffer();
        }
        conn.Close();
        conn := null;
      }
    }
  }

  /**
   * NewIndexer over an already opened connection and a loaded setting:
   * set the timeout to 0 (its error is ignored), then USE the project.
   */
  method NewIndexer(conn: Connection, schema: SchemaData, project: Bytes) returns (ix: Indexer?, err: Option<Error>)
    modifies conn
    ensures var s1 := TimeoutSpec(old(conn.State()), 0).0;
      var (st, e) := Exchange(IndexerState(s1, None, 0, false), UseProjectCmd(project), OkProject);
      err == e
      && (e.Some? ==> ix == null && conn.State() == CloseSpec(st.conn))
      && (e.None? ==> ix != null && fresh(ix) && ix.conn == conn && ix.schema == schema && ix.State() == st
                      && ix.tokenizer == Tokenizer.GetTokens)
  {
    ix := new Indexer(conn, schema);
    var _ := conn.SetTimeout(0);
    err := ix.SetProject(project);
    if err.Some? {
      ix := null;
    }
  }

  /** buildCmd(f, v, doc, cmds): append the frames of one field of doc, tokenized by tokens. */
  method BuildCmd(f: Bytes, v: FieldMeta, doc: map<Bytes, Bytes>, tokens: Bytes -> seq<Bytes>, cmds: seq<Frame>) returns (out: seq<Frame>)
    ensures out == cmds + BuildFrames(f, v, doc, tokens)
  {
    out := cmds;
    if f in doc && doc[f] != [] {
      var value := doc[f];
      var varg: byte := 0;
      if IsNumeric(v) {
        varg := ValueFlagNumeric;
      }
      ghost var terms0 := IndexTokens(v, value, tokens);
      if HasIndex(v) {
        var terms := tokens(value);
        out := IndexFrames(out, v, terms);
      } else {
        assert SelfFrames(v, terms0) + MixedFrames(v, terms0) == [];
      }
      out := out + [NewCommand2(CmdDocValue, varg, v.vno, [value])];
    }
  }

  /** The frames update collects in cmds: the request, the id field's, then the others'. */
  method DocumentCmds(d: SchemaData, doc: map<Bytes, Bytes>, add: bool, order: seq<Bytes>, tokens: Bytes -> seq<Bytes>) returns (cmds: seq<Frame>)
    requires d.id.Some? && d.id.value.name in doc
    requires forall k :: 0 <= k < |order| ==> order[k] in d.fieldMetas
    ensures cmds == DocumentFrames(d, doc, add, order, tokens)
  {
    var idField := d.id.value;
    cmds := [RequestFrame(add, idField.vno, doc[idField.name])];
    cmds := BuildCmd(idField.name, idField, doc, tokens, cmds);
    cmds := FieldCmds(d.fieldMetas, doc, order, tokens, cmds);
  }

  /** The range over FieldMetas in update: buildCmd for every field not of type "id". */
  method FieldCmds(fm: map<Bytes, FieldMeta>, doc: map<Bytes, Bytes>, order: seq<Bytes>, tokens: Bytes -> seq<Bytes>, cmds: seq<Frame>) returns (out: seq<Frame>)
    requires forall k :: 0 <= k < |order| ==> order[k] in fm
    ensures out == cmds + Concat(FieldParts(fm, order, doc, tokens))
  {
    ghost var parts := FieldParts(fm, order, doc, tokens);
    out := cmds;
    var i := 0;
    while i < |order|
      invariant 0 <= i <= |order|
      invariant out == cmds + Concat(parts[..i])
    {
      out := FieldCmd(fm, doc, order, i, tokens, out);
      ConcatStep(cmds, parts, i);
      i := i + 1;
    }
    assert parts[..|order|] == parts;
  }

  /** One turn of the range: buildCmd unless the field's type is "id". */
  method FieldCmd(fm: map<Bytes, FieldMeta>, doc: map<Bytes, Bytes>, order: seq<Bytes>, i: nat, tokens: Bytes -> seq<Bytes>, acc: seq<Frame>)
    returns (out: seq<Frame>)
    requires forall k :: 0 <= k < |order| ==> order[k] in fm
    requires i < |order|
    ensures out == acc + FieldParts(fm, order, doc, tokens)[i]
  {
    var f := order[i];
    var v := fm[f];
    out := acc;
    if v.fieldType != TypeId {
      out := BuildCmd(f, v, doc, tokens, out);
    }
  }

  /** The index frames of buildCmd for a field with an index, after cmds. */
  method IndexFrames(cmds: seq<Frame>, v: FieldMeta, terms: seq<Bytes>) returns (out: seq<Frame>)
    ensures out == cmds + SelfFrames(v, terms) + MixedFrames(v, terms)
  {
    out := cmds;
    if |terms| > 0 && HasIndexSelf(v) {
      out := AppendTerms(out, terms, Wdf(v), v.vno);
    }
    if |terms| > 0 && HasIndexMixed(v) {
      out := out + [NewCommand2(CmdDocIndex, v.weight % 0x100, MixedVno, [Join(terms, [Space])])];
    }
  }

  lemma ConcatStep(cmds: seq<Frame>, parts: seq<seq<Frame>>, i: nat)
    requires i < |parts|
    ensures cmds + Concat(parts[..i + 1]) == cmds + Concat(parts[..i]) + parts[i]
  {
    assert parts[..i + 1][..i] == parts[..i];
  }

  /** After the id checks, update is the run of the document's calls, then SUBMIT if they all succeeded. */
  lemma UpdateSplits(st: IndexerState, d: SchemaData, doc: map<Bytes, Bytes>, add: bool, order: seq<Bytes>, tokens: Bytes -> seq<Bytes>)
    requires forall k :: 0 <= k < |order| ==> order[k] in d.fieldMetas
    requires d.id.Some? && d.id.value.name in doc && doc[d.id.value.name] != []
    ensures var (c, e) := RunCalls(st.conn, CallsOf(DocumentFrames(d, doc, add, order, tokens), CmdNone));
      UpdateSpec(st, d, doc, add, order, tokens)
      == if e.Some? then (st.(conn := c), e)
         else var (c2, resp) := ExecOKSpec(c, SubmitFrame, OkRqstFinished); (st.(conn := c2), ErrorOf(resp))
  {
    RunThenSubmit(st.conn, CallsOf(DocumentFrames(d, doc, add, order, tokens), CmdNone));
  }

  /** Running calls and then SUBMIT: SUBMIT is sent only when every call succeeded. */
  lemma RunThenSubmit(c: ConnState, calls: seq<Call>)
    ensures var (c1, e) := RunCalls(c, calls);
      RunCalls(c, calls + [Call(SubmitFrame, OkRqstFinished)])
      == if e.Some? then (c1, e)
         else var (c2, resp) := ExecOKSpec(c1, SubmitFrame, OkRqstFinished); (c2, ErrorOf(resp))
  {
    var submit := [Call(SubmitFrame, OkRqstFinished)];
    RunCallsAppend(c, calls, submit);
    assert submit[1..] == [];
  }

  /** The DOC_TERM loop of buildCmd: skip tokens over MaxTermLength bytes, lowercase the rest. */
  method AppendTerms(cmds: seq<Frame>, terms: seq<Bytes>, wdf: byte, vno: byte) returns (out: seq<Frame>)
    ensures out == cmds + TermFrames(terms, wdf, vno)
  {
    out := cmds;
    var i := 0;
    while i < |terms|
      invariant 0 <= i <= |terms|
      invariant out == cmds + TermFrames(terms[..i], wdf, vno)
    {
      var term := terms[i];
      assert terms[..i + 1][..i] == terms[..i];
      if |term| <= MaxTermLength {
        term := ToLower(term);
        out := out + [NewCommand2(CmdDocTerm, wdf, vno, [term])];
      }
      i := i + 1;
    }
    assert terms[..i] == terms;
  }

  /** The EXDATA payload of DelByField: the little-endian encodings of one REMOVE per term. */
  method EncodeRemovals(vno: byte, terms: seq<Bytes>) returns (buf: Bytes)
    ensures buf == Encodings(RemoveFrames(vno, terms), false)
  {
    buf := [];
    var i := 0;
    while i < |terms|
      invariant 0 <= i <= |terms|
      invariant buf == Encodings(RemoveFrames(vno, terms[..i]), false)
    {
      var cmds := NewCommand2(CmdIndexRemove, 0, vno, [ToLower(terms[i])]);
      assert RemoveFrames(vno, terms[..i + 1]) == RemoveFrames(vno, terms[..i]) + [cmds];
      EncodingsAppend(RemoveFrames(vno, terms[..i]), cmds, false);
      buf := buf + EncodeFrame(cmds, false);
      i := i + 1;
    }
    assert terms[..i] == terms;
  }

  /** Encoding one more frame appends its encoding. */
  lemma {:induction false} EncodingsAppend(fs: seq<Frame>, f: Frame, be: bool)
    ensures Encodings(fs + [f], be) == Encodings(fs, be) + EncodeFrame(f, be)
    decreases |fs|
  {
    if |fs| == 0 {
      assert fs + [f] == [f];
    } else {
      assert (fs + [f])[0] == fs[0] && (fs + [f])[1..] == fs[1..] + [f];
      EncodingsAppend(fs[1..], f, be);
    }
  }
}
