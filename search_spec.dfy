// searcher.go and query.go as functions on the searcher's state: each
// exported operation is one function from the state it starts in (and its
// arguments) to the state it leaves and the value it returns. The class in
// searcher.dfy is proved against these functions.
//
// Every exchange goes through the connection model (Connections), so the
// frames a searcher sends are exactly the ones these functions build.
module SearchSpecs {
  import opened Types
  import opened Codes
  import opened GoStrings
  import opened Command
  import opened Connections
  import opened Fields
  import opened Queries
  import opened Documents
  import opened SearchText
  import opened CleanQueries

  /** The name of the search-log database. */
  const LogDb: Bytes := [0x6C, 0x6F, 0x67, 0x5F, 0x64, 0x62]   // "log_db"

  const CntName: Bytes := [0x63, 0x6E, 0x74]                   // "cnt"
  const CountName: Bytes := [0x63, 0x6F, 0x75, 0x6E, 0x74]     // "count"
  const TotalName: Bytes := [0x74, 0x6F, 0x74, 0x61, 0x6C]     // "total"

  /** A facet sub-record header: vno, value length and count. */
  const FacetHeader: nat := 6

  /**
   * The fields of a Searcher that its operations read or write. curDBs is
   * the set of keys of the Go map (every stored value is true), and terms
   * is nil until Terms stores a list.
   */
  datatype SearcherState = SearcherState(
    conn: ConnState,
    defaultOp: byte,
    queryPrefix: map<Bytes, bool>,
    lastCount: uint32,
    count: uint32,
    limit: uint32,
    offset: uint32,
    curDB: Bytes,
    curDBs: set<Bytes>,
    lastDB: Bytes,
    query: Bytes,
    terms: Option<seq<Bytes>>)

  /** One ExecOK on the searcher's connection; only the connection changes. */
  function Exchange(st: SearcherState, f: Frame, resArg: uint16): (r: (SearcherState, Result<Frame>))
    ensures r.0 == st.(conn := r.0.conn)
  {
    var (c, resp) := ExecOKSpec(st.conn, f, resArg);
    (st.(conn := c), resp)
  }

  /**
   * UnPack("I" + name, data) followed by the type assertion
   * rtn[name].(uint32): the first four bytes, little-endian, or the
   * read error when fewer than four arrived (UnPackOneWord).
   */
  function WordOf(data: Bytes): Result<uint32>
  {
    if |data| >= 4 then Ok(ReadLittleEndian32(data[..4])) else Err(UnexpectedEof)
  }

  /** UnPack("I" + name, data) stores the word under name, or fails with EOF; the type assertion then holds. */
  lemma UnPackOneWord(name: Bytes, data: Bytes)
    requires name != [] && Slash !in name
    ensures ValidFormat([CodeU32] + name)
    ensures UnPackSpec([CodeU32] + name, data)
         == if |data| >= 4 then (map[name := U32Value(ReadLittleEndian32(data[..4]))], None)
            else (map[], Some(UnexpectedEof))
  {
    var format := [CodeU32] + name;
    assert Slash !in format;
    SplitFree(format, Slash);
    assert format[0] == CodeU32 && format[1..] == name;
    assert SegmentName(format, 0) == name;
    var segs := Split(format, Slash);
    assert Width(segs[0][0]) == 4;
    if |data| >= 4 {
      assert UnPackFrom(segs, 0, data, map[])
          == UnPackFrom(segs, 1, data[4..], map[name := Decoded(CodeU32, data[..4])]);
    }
  }

  /** Pack("II", offset, limit): the paging block, read back as the same two words. */
  function Page(offset: uint32, limit: uint32): (b: Bytes)
    ensures |b| == 8
    ensures ReadLittleEndian32(b[..4]) == offset && ReadLittleEndian32(b[4..]) == limit
  {
    Uint32RoundTrip(offset, false);
    Uint32RoundTrip(limit, false);
    var a, c := LittleEndian32(offset), LittleEndian32(limit);
    assert (a + c)[..4] == a && (a + c)[4..] == c;
    a + c
  }

  // ---------------------------------------------------------------------
  // preQueryString and regQueryPrefix (query.go:19-100).

  /** The QUERY_PREFIX frame for a field: BOOLEAN exactly for a boolean index, and the field's number. */
  function PrefixFrame(m: FieldMeta, name: Bytes): (f: Frame)
    ensures f.cmd == CmdQueryPrefix && f.arg2 == m.vno && f.buf == name && f.buf1 == []
    ensures f.arg1 == PrefixBoolean <==> IsBoolIndex(m)
  {
    NewCommand2(CmdQueryPrefix, if IsBoolIndex(m) then PrefixBoolean else PrefixNormal, m.vno, [name])
  }

  /**
   * regQueryPrefix(name): a name already cached, or not a known non-body
   * field, changes nothing; otherwise QUERY_PREFIX is sent and whether it
   * succeeded is cached.
   */
  function PrefixSpec(st: SearcherState, fm: map<Bytes, FieldMeta>, name: Bytes): (r: SearcherState)
    ensures r == st.(conn := r.conn, queryPrefix := r.queryPrefix)
    ensures name in st.queryPrefix || !Registered(fm, name) ==> r == st
    ensures r.queryPrefix.Keys == st.queryPrefix.Keys + (if Registered(fm, name) then {name} else {})
    ensures forall n :: n in st.queryPrefix ==> n in r.queryPrefix && r.queryPrefix[n] == st.queryPrefix[n]
  {
    if name in st.queryPrefix || !Registered(fm, name) then st
    else
      var (st1, resp) := Exchange(st, PrefixFrame(fm[name], name), CmdNone);
      st1.(queryPrefix := st1.queryPrefix[name := resp.Ok?])
  }

  /** The prefixes preQueryString registers for its parts, in order. */
  function PrefixesFor(st: SearcherState, fm: map<Bytes, FieldMeta>, parts: seq<Bytes>): (r: SearcherState)
    ensures r == st.(conn := r.conn, queryPrefix := r.queryPrefix)
    ensures st.queryPrefix.Keys <= r.queryPrefix.Keys
    decreases |parts|
  {
    if parts == [] then st
    else
      var st0 := PrefixesFor(st, fm, parts[..|parts| - 1]);
      var f := PartField(fm, parts[|parts| - 1]);
      if f.Some? then PrefixSpec(st0, fm, f.value) else st0
  }

  /** preQueryString(query): the prefixes registered, and the normalised query. */
  function PreQuerySpec(st: SearcherState, fm: map<Bytes, FieldMeta>, query: Bytes): (r: (SearcherState, Bytes))
    ensures r.0 == st.(conn := r.0.conn, queryPrefix := r.0.queryPrefix)
  {
    (PrefixesFor(st, fm, Parts(query)), Normalized(fm, query))
  }

  /** The query as the operations taking one use it: normalised unless empty. */
  function Prepared(st: SearcherState, fm: map<Bytes, FieldMeta>, query: Bytes): (r: (SearcherState, Bytes))
    ensures r.0 == st.(conn := r.0.conn, queryPrefix := r.0.queryPrefix)
    ensures query == [] ==> r == (st, [])
  {
    if query != [] then PreQuerySpec(st, fm, query) else (st, query)
  }

  // ---------------------------------------------------------------------
  // initSpecialField (query.go:103-116).

  /** ceil(cutlen / 10), capped at 127. */
  function CutUnits(cutlen: uint32): (cln: byte)
    ensures cln <= 127
    ensures cln < 127 ==> 10 * (cln - 1) < cutlen <= 10 * cln
  {
    var u := (cutlen as int + 9) / 10;
    if u > 127 then 127 else u
  }

  /** The frames one field contributes: SET_CUT for a cut length, SET_NUMERIC for a numeric field. */
  function SpecialFrames(m: FieldMeta): (fs: seq<Frame>)
    ensures |fs| == (if m.cutlen > 0 then 1 else 0) + (if IsNumeric(m) then 1 else 0)
    ensures forall k :: 0 <= k < |fs| ==> fs[k].arg2 == m.vno && fs[k].buf == [] && fs[k].buf1 == []
    ensures m.cutlen > 0 ==> fs[0] == Frame(CmdSearchSetCut, CutUnits(m.cutlen), m.vno, [], [])
    ensures IsNumeric(m) ==> fs[|fs| - 1] == Frame(CmdSearchSetNumeric, 0, m.vno, [], [])
  {
    (if m.cutlen > 0 then [NewCommand2(CmdSearchSetCut, CutUnits(m.cutlen), m.vno, [])] else [])
    + (if IsNumeric(m) then [NewCommand2(CmdSearchSetNumeric, 0, m.vno, [])] else [])
  }

  /** The special-field frames of the fields in order, each result ignored. */
  function SpecialCalls(fm: map<Bytes, FieldMeta>, order: seq<Bytes>): (calls: seq<Call>)
    requires forall k :: 0 <= k < |order| ==> order[k] in fm
    decreases |order|
  {
    if order == [] then []
    else SpecialCalls(fm, order[..|order| - 1]) + SpecialCallsOf(fm[order[|order| - 1]])
  }

  /** The calls one field contributes to SpecialCalls. */
  function SpecialCallsOf(m: FieldMeta): (calls: seq<Call>)
  {
    var fs := SpecialFrames(m);
    seq(|fs|, k requires 0 <= k < |fs| => Call(fs[k], CmdNone))
  }

  /** Executing calls one after the other, each error ignored. */
  function ExecAll(c: ConnState, calls: seq<Call>): (r: ConnState)
    ensures r.open == c.open && r.bigEndian == c.bigEndian && r.broken == c.broken
    decreases |calls|
  {
    if calls == [] then c
    else ExecAll(ExecOKSpec(c, calls[0].frame, calls[0].resArg).0, calls[1..])
  }

  // ---------------------------------------------------------------------
  // Count and Limit (searcher.go:196-234).

  function CountFrame(op: byte, q: Bytes): Frame
  {
    NewCommand2(CmdSearchGetTotal, 0, op, [q])
  }

  /**
   * Count(query): the cached count for an empty normalised query when one
   * is cached; otherwise GET_TOTAL, whose count is cached only for the
   * empty query; 0 on any failure.
   */
  function CountSpec(st: SearcherState, fm: map<Bytes, FieldMeta>, query: Bytes): (r: (SearcherState, uint32))
    ensures r.0 == st.(conn := r.0.conn, queryPrefix := r.0.queryPrefix, count := r.0.count)
    ensures r.0.count == st.count || r.0.count == r.1
  {
    var (st1, q) := Prepared(st, fm, query);
    CountAfter(st1, q)
  }

  /**
   * Count once the query is prepared: the stored count for an empty query
   * when it is known; otherwise GET_TOTAL, whose count is stored only for
   * the empty query; 0 on failure.
   */
  function CountAfter(st: SearcherState, q: Bytes): (r: (SearcherState, uint32))
    ensures r.0 == st.(conn := r.0.conn, count := r.0.count)
    ensures r.0.count == st.count || (q == [] && r.0.count == r.1)
    ensures q == [] && st.count != MaxUint32 ==> r == (st, st.count)
  {
    if q == [] && st.count != MaxUint32 then (st, st.count)
    else
      var (st1, resp) := Exchange(st, CountFrame(st.defaultOp, q), OkSearchTotal);
      if resp.Err? then (st1, 0)
      else
        match WordOf(resp.value.buf)
        case Err(_) => (st1, 0)
        case Ok(cnt) => (if q == [] then st1.(count := cnt) else st1, cnt)
  }

  /**
   * Limit(limit...): the first argument sets limit and the second, or 0,
   * the offset; a zero limit then becomes 10.
   */
  function LimitSpec(st: SearcherState, limits: seq<uint32>): (r: SearcherState)
    ensures r == st.(limit := r.limit, offset := r.offset)
    ensures r.limit != 0
    ensures |limits| > 0 ==> r.offset == (if |limits| > 1 then limits[1] else 0)
    ensures |limits| > 0 && limits[0] != 0 ==> r.limit == limits[0]
    ensures |limits| == 0 ==> r.offset == st.offset && (st.limit != 0 ==> r.limit == st.limit)
  {
    var st1 := if |limits| > 0 then st.(limit := limits[0], offset := if |limits| > 1 then limits[1] else 0) else st;
    if st1.limit == 0 then st1.(limit := 10) else st1
  }

  // ---------------------------------------------------------------------
  // Search and its result stream (searcher.go:237-331).

  function ResultFrame(op: byte, q: Bytes, page: Bytes): Frame
  {
    NewCommand2(CmdSearchGetResult, 0, op, [q, page])
  }

  /** What Search may change: the connection, the caches and the paging, never the databases or the query. */
  predicate SearchFrame(st: SearcherState, r: SearcherState)
  {
    r == st.(conn := r.conn, queryPrefix := r.queryPrefix, lastCount := r.lastCount, count := r.count,
              limit := r.limit, offset := r.offset, terms := r.terms)
  }

  /** The first n slots of the result hold documents (DOC frames arrived for them). */
  predicate Received(docs: seq<Option<Document>>, n: nat)
  {
    n <= |docs| && forall k :: 0 <= k < n ==> docs[k].Some?
  }

  /** doc.Fields[name] = value on the last document received. */
  function WithField(docs: seq<Option<Document>>, n: nat, name: Bytes, value: Bytes): (r: seq<Option<Document>>)
    requires Received(docs, n) && n > 0
    ensures Received(r, n) && |r| == |docs|
    ensures forall k :: 0 <= k < |docs| && k != n - 1 ==> r[k] == docs[k]
    ensures r[n - 1].value == docs[n - 1].value.(fields := r[n - 1].value.fields)
    ensures r[n - 1].value.fields == docs[n - 1].value.fields[name := value]
  {
    var d := docs[n - 1].value;
    docs[n - 1 := Some(d.(fields := d.fields[name := value]))]
  }

  /** doc.Matched = strings.Split(" ", buf) on the last document received. */
  function WithMatched(docs: seq<Option<Document>>, n: nat, buf: Bytes): (r: seq<Option<Document>>)
    requires Received(docs, n) && n > 0
    ensures Received(r, n) && |r| == |docs|
    ensures forall k :: 0 <= k < |docs| && k != n - 1 ==> r[k] == docs[k]
    ensures r[n - 1].value == docs[n - 1].value.(matched := MatchedOf(buf))
  {
    docs[n - 1 := Some(docs[n - 1].value.(matched := MatchedOf(buf)))]
  }

  /**
   * The decoding loop of Search, after n documents have arrived: FACETS
   * records longer than their 6-byte header panic at the type assertion
   * on vlen; DOC fills the next slot (past the end it panics); FIELD and
   * MATCHED update the last document, and are ignored before the first;
   * OK/RESULT_END ends the stream; anything else is an error.
   */
  function StreamFrom(c: ConnState, begin: Frame, vnomap: map<byte, Bytes>, docs: seq<Option<Document>>, n: nat)
    : (r: (ConnState, Result<seq<Option<Document>>>))
    requires Received(docs, n)
    ensures r.0 == c.(input := r.0.input)
    ensures r.1.Ok? ==> Received(r.1.value, n) && |r.1.value| == |docs|
    decreases |c.input|, 0
  {
    var (c1, m) := SearchResponseSpec(c, begin);
    if m.Err? then (c1, Err(m.error))
    else StreamFrame(c1, begin, vnomap, docs, n, m.value)
  }

  /** One frame of the stream, read with c left as the rest of the input. */
  function StreamFrame(c: ConnState, begin: Frame, vnomap: map<byte, Bytes>, docs: seq<Option<Document>>, n: nat,
                       f: Frame)
    : (r: (ConnState, Result<seq<Option<Document>>>))
    requires Received(docs, n)
    ensures r.0 == c.(input := r.0.input)
    ensures r.1.Ok? ==> Received(r.1.value, n) && |r.1.value| == |docs|
    decreases |c.input|, 1
  {
    if f.cmd == CmdSearchResultFacets then
      if |f.buf| > FacetHeader then (c, Err(Panic(TypeAssertion)))
      else StreamFrom(c, begin, vnomap, docs, n)
    else if f.cmd == CmdSearchResultDoc then
      match NewDocument(f.buf)
      case Err(_) => (c, Ok(docs))
      case Ok(d) =>
        if n >= |docs| then (c, Err(Panic(IndexOutOfRange)))
        else StreamFrom(c, begin, vnomap, docs[n := Some(d)], n + 1)
    else if f.cmd == CmdSearchResultField then
      if n == 0 then StreamFrom(c, begin, vnomap, docs, n)
      else StreamFrom(c, begin, vnomap, WithField(docs, n, FieldName(vnomap, f), f.buf), n)
    else if f.cmd == CmdSearchResultMatched then
      if n == 0 then StreamFrom(c, begin, vnomap, docs, n)
      else StreamFrom(c, begin, vnomap, WithMatched(docs, n, f.buf), n)
    else if f.cmd == CmdOk && GetArg(f) == OkResultEnd then (c, Ok(docs))
    else (c, Err(UnexpectedSearchReply(f)))
  }

  /** The result slice Search allocates: count empty slots. */
  function EmptyResult(count: uint32): (docs: seq<Option<Document>>)
    ensures |docs| == count && Received(docs, 0)
    ensures forall k :: 0 <= k < count ==> docs[k].None?
  {
    seq(count, _ => None)
  }

  /**
   * Search(queries...): the queries joined by " AND " and normalised, a
   * zero limit made 10, GET_RESULT with the paging block; on a decodable
   * RESULT_BEGIN the count is kept in lastCount, limit and offset return to
   * 10 and 0, and the stream is decoded with the field names of the log
   * schema when log_db is selected. An empty query off log_db then caches
   * the count and logs the stored query.
   */
  function SearchSpec(st: SearcherState, fm: map<Bytes, FieldMeta>, schemaNames: map<byte, Bytes>,
                      loggerNames: map<byte, Bytes>, queries: seq<Bytes>)
    : (r: (SearcherState, Result<seq<Option<Document>>>))
    ensures SearchFrame(st, r.0)
  {
    var (st1, q) := Prepared(st, fm, Join(queries, AndWord));
    var st2 := if st1.limit == 0 then st1.(limit := 10) else st1;
    var (st3, resp) := Exchange(st2, ResultFrame(st2.defaultOp, q, Page(st2.offset, st2.limit)), OkResultBegin);
    if resp.Err? then (st3, Err(resp.error))
    else SearchResults(st3, schemaNames, loggerNames, q, resp.value)
  }

  /** Search after its RESULT_BEGIN reply begin for the prepared query q. */
  function SearchResults(st: SearcherState, schemaNames: map<byte, Bytes>, loggerNames: map<byte, Bytes>,
                         q: Bytes, begin: Frame)
    : (r: (SearcherState, Result<seq<Option<Document>>>))
    ensures SearchFrame(st, r.0)
  {
    match WordOf(begin.buf)
    case Err(e) => (st, Err(e))
    case Ok(count) =>
      ResultsFrom(st.(lastCount := count, limit := 10, offset := 0), schemaNames, loggerNames, q, begin)
  }

  /** The result stream of Search, decoded with the log schema's names on log_db, then AfterStream. */
  function ResultsFrom(st: SearcherState, schemaNames: map<byte, Bytes>, loggerNames: map<byte, Bytes>,
                       q: Bytes, begin: Frame)
    : (r: (SearcherState, Result<seq<Option<Document>>>))
    ensures SearchFrame(st, r.0)
  {
    var vnomap := if st.curDB == LogDb then loggerNames else schemaNames;
    var (c1, sr) := StreamFrom(st.conn, begin, vnomap, EmptyResult(st.lastCount), 0);
    AfterStream(st.(conn := c1), q, sr)
  }

  /**
   * The end of Search: a stream error is returned; a plain search off
   * log_db caches its count and is logged, and a panic of logQuery is
   * the panic of Search.
   */
  function AfterStream(st: SearcherState, q: Bytes, sr: Result<seq<Option<Document>>>)
    : (r: (SearcherState, Result<seq<Option<Document>>>))
    ensures SearchFrame(st, r.0)
    ensures r.1 == sr || (sr.Ok? && q == [] && r.1 == Err(Panic(IndexOutOfRange)))
  {
    if sr.Err? then (st, Err(sr.error))
    else if q == [] && st.curDB != LogDb then
      var (st1, p) := LogQuerySpec(st.(count := st.lastCount));
      (st1, if p.Some? then Err(p.value) else sr)
    else (st, sr)
  }

  // ---------------------------------------------------------------------
  // Terms and logQuery (searcher.go:446-471, 621-668).

  function TermsFrame(op: byte, q: Bytes): Frame
  {
    NewCommand2(CmdQueryGetTerms, 0, op, [q])
  }

  /**
   * Terms once the query is prepared: the stored list for an empty query
   * when there is one; otherwise GET_TERMS, whose kept words are stored
   * (for any query) and returned; [] and nothing stored on failure.
   */
  function TermsAfter(st: SearcherState, q: Bytes): (r: (SearcherState, seq<Bytes>))
    ensures r.0 == st.(conn := r.0.conn, terms := r.0.terms)
    ensures q == [] && st.terms.Some? ==> r == (st, st.terms.value)
    ensures r.0.terms == st.terms || r.0.terms == Some(r.1)
  {
    if q == [] && st.terms.Some? then (st, st.terms.value)
    else
      var (st1, resp) := Exchange(st, TermsFrame(st.defaultOp, q), OkQueryTerms);
      if resp.Err? then (st1, [])
      else
        var ts := TermsOf(resp.value.buf);
        (st1.(terms := Some(ts)), ts)
  }

  /** Terms(query). */
  function TermsSpec(st: SearcherState, fm: map<Bytes, FieldMeta>, query: Bytes): (r: (SearcherState, seq<Bytes>))
    ensures r.0 == st.(conn := r.0.conn, queryPrefix := r.0.queryPrefix, terms := r.0.terms)
  {
    var (st1, q) := Prepared(st, fm, query);
    TermsAfter(st1, q)
  }

  function AddLogFrame(log: Bytes): Frame
  {
    NewCommand(CmdSearchAddLog, 0, [log])
  }

  /** The text logQuery records: the terms assembled as written, spaces trimmed, or the loop's panic. */
  function LogText(query: Bytes, terms: seq<Bytes>): (r: Result<Bytes>)
    ensures r.Err? <==> AssembleAsWritten(query, terms).Err?
    ensures r.Ok? ==> r.value == Trim(AssembleAsWritten(query, terms).value, {Space})
  {
    match AssembleAsWritten(query, terms)
    case Err(e) => Err(e)
    case Ok(buf) => Ok(Trim(buf, {Space}))
  }

  /**
   * logQuery: nothing for a stored query it skips; otherwise the stored
   * terms (Terms("")), then the panic of the assembly loop, or one
   * ADD_LOG of the assembled text unless it is too short.
   */
  function LogQuerySpec(st: SearcherState): (r: (SearcherState, Option<Error>))
    ensures r.0 == st.(conn := r.0.conn, terms := r.0.terms)
    ensures r.1.Some? ==> r.1.value == Panic(IndexOutOfRange)
  {
    if LogSkipped(st.query, st.lastCount, st.defaultOp == QueryOpOr) then (st, None)
    else
      var (st1, terms) := TermsAfter(st, []);
      match LogText(st.query, terms)
      case Err(e) => (st1, Some(e))
      case Ok(log) =>
        if LogTooShort(log) then (st1, None)
        else (Exchange(st1, AddLogFrame(log), OkLogged).0, None)
  }

  // ---------------------------------------------------------------------
  // Database selection (searcher.go:407-432, 692-698).

  function SetDbFrame(db: Bytes): Frame
  {
    EmptyFrame.(cmd := CmdSearchSetDb, buf := db)
  }

  function AddDbFrame(db: Bytes): Frame
  {
    EmptyFrame.(cmd := CmdSearchAddDb, buf := db)
  }

  /** SetDB(db): on success the current database becomes the last one and db the current one. */
  function SetDbSpec(st: SearcherState, db: Bytes): (r: (SearcherState, Option<Error>))
    ensures r.1.None? ==> r.0 == st.(conn := r.0.conn, lastDB := st.curDB, curDB := db)
    ensures r.1.Some? ==> r.0 == st.(conn := r.0.conn)
  {
    var (st1, resp) := Exchange(st, SetDbFrame(db), OkDbChanged);
    if resp.Err? then (st1, Some(resp.error)) else (st1.(lastDB := st1.curDB, curDB := db), None)
  }

  /** AddDB(db): on success db is recorded. */
  function AddDbSpec(st: SearcherState, db: Bytes): (r: (SearcherState, Option<Error>))
    ensures r.1.None? ==> r.0 == st.(conn := r.0.conn, curDBs := st.curDBs + {db})
    ensures r.1.Some? ==> r.0 == st.(conn := r.0.conn)
  {
    var (st1, resp) := Exchange(st, AddDbFrame(db), OkDbChanged);
    if resp.Err? then (st1, Some(resp.error)) else (st1.(curDBs := st1.curDBs + {db}), None)
  }

  /**
   * The order a Go range over a set-like map takes: every key exactly
   * once, in some order.
   */
  predicate Lists<K>(order: seq<K>, keys: set<K>)
  {
    (forall k :: 0 <= k < |order| ==> order[k] in keys)
    && (forall d :: d in keys ==> d in order)
    && (forall j, k :: 0 <= j < k < |order| ==> order[j] != order[k])
  }

  /** AddDB for each database in turn, errors ignored. */
  function AddAll(st: SearcherState, dbs: seq<Bytes>): (r: SearcherState)
    ensures r == st.(conn := r.conn, curDBs := r.curDBs)
    ensures st.curDBs <= r.curDBs
    decreases |dbs|
  {
    if dbs == [] then st else AddAll(AddDbSpec(st, dbs[0]).0, dbs[1..])
  }

  /**
   * restoreDb: SetDB(lastDB), then AddDB for every recorded database, in
   * the order the map iteration takes (order).
   */
  function RestoreSpec(st: SearcherState, order: seq<Bytes>): (r: SearcherState)
  {
    AddAll(SetDbSpec(st, st.lastDB).0, order)
  }

  // ---------------------------------------------------------------------
  // GetHotQuery and GetRelatedQuery (searcher.go:523-581).

  /** The query GetHotQuery searches the log for: "<column>:1". */
  function HotQuery(hot: Bytes): Bytes
  {
    hot + [Colon, 0x31]
  }

  /**
   * GetHotQuery: select log_db (an empty table if that fails), limit the
   * page, search for the column and tabulate it; a nil document panics
   * before restoreDb runs, as does a panic inside Search.
   */
  function HotQuerySpec(st: SearcherState, fm: map<Bytes, FieldMeta>, schemaNames: map<byte, Bytes>,
                        loggerNames: map<byte, Bytes>, hotType: Bytes, limits: seq<byte>, order: seq<Bytes>)
    : (r: (SearcherState, Result<map<Bytes, uint32>>))
  {
    var ht := HotType(hotType);
    var (st1, e) := SetDbSpec(st, LogDb);
    if e.Some? then (st1, Ok(map[]))
    else
      var st2 := LimitSpec(st1, [MaxLimit(limits) as uint32]);
      var (st3, docs) := SearchSpec(st2, fm, schemaNames, loggerNames, [HotQuery(ht)]);
      HotAfter(st3, docs, ht, order)
  }

  /** GetHotQuery after its search: a panic propagates, any other error gives an empty table. */
  function HotAfter(st: SearcherState, docs: Result<seq<Option<Document>>>, ht: Bytes, order: seq<Bytes>)
    : (r: (SearcherState, Result<map<Bytes, uint32>>))
  {
    var hot := if docs.Ok? then HotOf(docs.value, ht)
               else if docs.error.Panic? then Err(docs.error) else Ok(map[]);
    if hot.Err? then (st, hot)
    else (RestoreSpec(st, order), hot)
  }

  /**
   * GetRelatedQuery: the cleaned stored query when none is given; nothing
   * for an empty or fielded query; otherwise an OR search of log_db for
   * one more entry than the limit, the bodies other than the query, and
   * the default operator and databases restored.
   */
  function RelatedSpec(st: SearcherState, fm: map<Bytes, FieldMeta>, schemaNames: map<byte, Bytes>,
                       loggerNames: map<byte, Bytes>, query: Bytes, limits: seq<byte>, order: seq<Bytes>)
    : (r: (SearcherState, Result<seq<Bytes>>))
  {
    var q := if query == [] then CleanFieldQuery(fm, st.query) else query;
    RelatedFor(st, fm, schemaNames, loggerNames, q, MaxLimit(limits), order)
  }

  /** GetRelatedQuery once the query is chosen: nothing for an empty or fielded one, else log_db is searched. */
  function RelatedFor(st: SearcherState, fm: map<Bytes, FieldMeta>, schemaNames: map<byte, Bytes>,
                      loggerNames: map<byte, Bytes>, q: Bytes, limit: byte, order: seq<Bytes>)
    : (r: (SearcherState, Result<seq<Bytes>>))
    ensures q == [] || Contains(q, [Colon]) ==> r == (st, Ok([]))
  {
    if q == [] || Contains(q, [Colon]) then (st, Ok([]))
    else
      var (st1, e) := SetDbSpec(st, LogDb);
      if e.Some? then (st1, Ok([]))
      else RelatedSearch(st1, fm, schemaNames, loggerNames, q, limit, st.defaultOp, order)
  }

  /** GetRelatedQuery once log_db is selected: the search, the bodies, op and the databases restored. */
  function RelatedSearch(st: SearcherState, fm: map<Bytes, FieldMeta>, schemaNames: map<byte, Bytes>,
                         loggerNames: map<byte, Bytes>, q: Bytes, limit: byte, op: byte, order: seq<Bytes>)
    : (r: (SearcherState, Result<seq<Bytes>>))
  {
    var st2 := LimitSpec(st, [limit as uint32 + 1]).(defaultOp := QueryOpOr);
    var (st3, docs) := SearchSpec(st2, fm, schemaNames, loggerNames, [q]);
    RelatedAfter(st3, docs, q, limit, op, order)
  }

  /** GetRelatedQuery after its search: a panic propagates, any other error gives nothing. */
  function RelatedAfter(st: SearcherState, docs: Result<seq<Option<Document>>>, q: Bytes, limit: byte,
                        op: byte, order: seq<Bytes>)
    : (r: (SearcherState, Result<seq<Bytes>>))
  {
    var rel := if docs.Ok? then Related(docs.value, q, limit as nat)
               else if docs.error.Panic? then Err(docs.error) else Ok([]);
    if rel.Err? then (st, rel)
    else (RestoreSpec(st.(defaultOp := op), order), rel)
  }

  // ---------------------------------------------------------------------
  // Totals, corrections and expansions (searcher.go:392-404, 435-443, 476-520).

  /** GetDbTotal: the TOTAL word of the reply, 0 on any failure. */
  function DbTotalSpec(st: SearcherState): (r: (SearcherState, uint32))
    ensures r.0 == st.(conn := r.0.conn)
  {
    var (st1, resp) := Exchange(st, NewCommand(CmdSearchDbTotal, 0, []), OkDbTotal);
    if resp.Err? then (st1, 0)
    else
      match WordOf(resp.value.buf)
      case Err(_) => (st1, 0)
      case Ok(total) => (st1, total)
  }

  /**
   * math.Ceil(0.001 * float64(total)), which for every 32-bit total is the
   * integer ceiling of total / 1000.
   */
  function Thousandths(total: uint32): (t: nat)
    ensures 1000 * t >= total && (t > 0 ==> 1000 * (t - 1) < total)
  {
    (total + 999) / 1000
  }

  /**
   * GetCorrectedQuery(queries...): without queries, nothing when the last
   * count exceeds a thousandth of the database, else the cleaned stored
   * query; nothing for an empty or fielded query; otherwise the lines of
   * the GET_CORRECTED reply.
   */
  function CorrectedSpec(st: SearcherState, fm: map<Bytes, FieldMeta>, queries: seq<Bytes>): (r: (SearcherState, seq<Bytes>))
    ensures r.0 == st.(conn := r.0.conn)
  {
    var query := Join(queries, [Space]);
    if query == [] then CorrectedStored(st, fm) else CorrectedFor(st, query)
  }

  /** GetCorrectedQuery without queries: the stored query, unless the last count is too large a share. */
  function CorrectedStored(st: SearcherState, fm: map<Bytes, FieldMeta>): (r: (SearcherState, seq<Bytes>))
    ensures r.0 == st.(conn := r.0.conn)
    ensures st.count == 0 ==> r == CorrectedFor(st, CleanFieldQuery(fm, st.query))
  {
    if st.count == 0 then CorrectedFor(st, CleanFieldQuery(fm, st.query))
    else CorrectedCounted(st, fm)
  }

  /** CorrectedStored after a search that counted hits: nothing once they reach a thousandth of the database. */
  function CorrectedCounted(st: SearcherState, fm: map<Bytes, FieldMeta>): (r: (SearcherState, seq<Bytes>))
  {
    var total := DbTotalSpec(st);
    if st.count as int > Thousandths(total.1) then (total.0, [])
    else CorrectedFor(total.0, CleanFieldQuery(fm, st.query))
  }

  /** GetCorrectedQuery once the query is chosen: nothing for an empty or fielded one, else the reply's lines. */
  function CorrectedFor(st: SearcherState, q: Bytes): (r: (SearcherState, seq<Bytes>))
    ensures r.0 == st.(conn := r.0.conn)
    ensures q == [] || Contains(q, [Colon]) ==> r == (st, [])
  {
    if q == [] || Contains(q, [Colon]) then (st, [])
    else
      var (st2, resp) := Exchange(st, NewCommand(CmdQueryGetCorrected, 0, [q]), OkQueryCorrected);
      if resp.Err? then (st2, []) else (st2, Split(resp.value.buf, Newline))
  }

  /** The loop of GetExpandedQuery: FIELD payloads until any other frame or a read error. */
  function ExpandFrom(c: ConnState, begin: Frame, acc: seq<Bytes>): (r: (ConnState, seq<Bytes>))
    ensures r.0 == c.(input := r.0.input)
    ensures acc <= r.1
    decreases |c.input|
  {
    var (c1, m) := SearchResponseSpec(c, begin);
    if m.Ok? && m.value.cmd == CmdSearchResultField then ExpandFrom(c1, begin, acc + [m.value.buf])
    else (c1, acc)
  }

  /** GetExpandedQuery(query, limits...): GET_EXPANDED with the clamped limit, then the streamed words. */
  function ExpandedSpec(st: SearcherState, query: Bytes, limits: seq<byte>): (r: (SearcherState, seq<Bytes>))
    ensures r.0 == st.(conn := r.0.conn)
  {
    var (st1, resp) := Exchange(st, NewCommand2(CmdQueryGetExpanded, MaxLimit(limits), 0, [query]), OkResultBegin);
    if resp.Err? then (st1, [])
    else
      var (c2, words) := ExpandFrom(st1.conn, resp.value, []);
      (st1.(conn := c2), words)
  }

  /** GetQuery(query): the server's parsed form of the prepared query. */
  function QuerySpec(st: SearcherState, fm: map<Bytes, FieldMeta>, query: Bytes): (r: (SearcherState, Result<Bytes>))
    ensures r.0 == st.(conn := r.0.conn, queryPrefix := r.0.queryPrefix)
  {
    var (st1, q) := Prepared(st, fm, query);
    var (st2, resp) := Exchange(st1, NewCommand2(CmdQueryGetString, 0, st1.defaultOp, [q]), OkQueryString);
    (st2, if resp.Err? then Err(resp.error) else Ok(resp.value.buf))
  }

  // ---------------------------------------------------------------------
  // Synonyms (searcher.go:153-189).

  /** GetSynonyms(word): the lines of the reply; nothing for an empty word, a failure or an empty reply. */
  function SynonymsSpec(st: SearcherState, word: Bytes): (r: (SearcherState, seq<Bytes>))
    ensures r.0 == st.(conn := r.0.conn)
    ensures word == [] ==> r == (st, [])
  {
    if word == [] then (st, [])
    else
      var (st1, resp) := Exchange(st, NewCommand2(CmdSearchGetSynonyms, 2, 0, [word]), OkResultSynonyms);
      if resp.Ok? && resp.value.buf != [] then (st1, Split(resp.value.buf, Newline)) else (st1, [])
  }

  /**
   * The GET_SYNONYMS frame of GetAllSynonyms as written: Buf1 is set only
   * when Pack fails, which it never does for two uint32 values, so the
   * paging block is never sent.
   */
  function AllSynonymsFrameAsWritten(limit: uint32, offset: uint32, stemmed: bool): (f: Frame)
    ensures f.buf1 == []
  {
    var page := PackSpec([CodeU32, CodeU32], [Uint32Arg(offset), Uint32Arg(limit)]);
    var f := EmptyFrame.(cmd := CmdSearchGetSynonyms, arg1 := if stemmed then 1 else 0);
    // a failed Pack returns an empty page
    if limit > 0 && page.Err? then f.(buf1 := []) else f
  }

  /** The intended frame: the paging block in Buf1 whenever a limit is given. */
  function AllSynonymsFrame(limit: uint32, offset: uint32, stemmed: bool): (f: Frame)
    ensures f.cmd == CmdSearchGetSynonyms && f.arg2 == 0 && f.buf == []
    ensures f.arg1 == (if stemmed then 1 else 0)
    ensures limit > 0 ==> f.buf1 == Page(offset, limit)
    ensures limit == 0 ==> f.buf1 == []
  {
    EmptyFrame.(cmd := CmdSearchGetSynonyms, arg1 := if stemmed then 1 else 0,
                buf1 := if limit > 0 then Page(offset, limit) else [])
  }

  /** GetAllSynonyms(limit, offset, stemmed), as written: the reply's lines as word -> synonyms. */
  function AllSynonymsSpec(st: SearcherState, limit: uint32, offset: uint32, stemmed: bool)
    : (r: (SearcherState, map<Bytes, seq<Bytes>>))
    ensures r.0 == st.(conn := r.0.conn)
  {
    var (st1, resp) := Exchange(st, AllSynonymsFrameAsWritten(limit, offset, stemmed), OkResultSynonyms);
    if resp.Ok? && resp.value.buf != [] then (st1, SynonymMap(resp.value.buf)) else (st1, map[])
  }

  // ---------------------------------------------------------------------
  // Search options and query building (searcher.go:70-137, 337-389, 611-619).

  /** Fuzzy(fuzzy): OR as the default operator, or AND. */
  function FuzzySpec(st: SearcherState, fuzzy: bool): (r: SearcherState)
    ensures r == st.(defaultOp := r.defaultOp)
    ensures r.defaultOp == QueryOpOr <==> fuzzy
  {
    st.(defaultOp := if fuzzy then QueryOpOr else QueryOpAnd)
  }

  /** SetRequireMatchedTerm(required): SET_MISC MATCHED_TERM with 1 or 0. */
  function MatchedTermFrame(required: bool): (f: Frame)
    ensures f.cmd == CmdSearchSetMisc && f.arg1 == SearchMiscMatchedTerm && f.buf == [] && f.buf1 == []
    ensures f.arg2 == 1 <==> required
  {
    EmptyFrame.(cmd := CmdSearchSetMisc, arg1 := SearchMiscMatchedTerm, arg2 := if required then 1 else 0)
  }

  /**
   * SetWeightingScheme as written: the cases 0 and 1 are empty and Go does
   * not fall through, so only policy 2 sends a frame.
   */
  function WeightingFrameAsWritten(policy: byte): (f: Option<Frame>)
    ensures f.Some? <==> policy == 2
  {
    if policy == 2 then Some(EmptyFrame.(cmd := CmdSearchSetMisc, arg1 := SearchMiscWeightScheme, arg2 := policy))
    else None
  }

  /** The intended SetWeightingScheme: each of the three schemes 0, 1, 2 is sent. */
  function WeightingFrame(policy: byte): (f: Option<Frame>)
    ensures f.Some? <==> policy <= 2
    ensures f.Some? ==> f.value == Frame(CmdSearchSetMisc, SearchMiscWeightScheme, policy, [], [])
  {
    if policy <= 2 then Some(EmptyFrame.(cmd := CmdSearchSetMisc, arg1 := SearchMiscWeightScheme, arg2 := policy))
    else None
  }

  /** SetAutoSynonyms(auto): the parse flags BOOLEAN|PHRASE|LOVEHATE, with AUTO_MULTIWORD_SYNONYMS when auto. */
  function ParseFlags(auto: bool): (flag: uint16)
    ensures flag % 8 == ParseFlagBoolean + ParseFlagPhrase + ParseFlagLovehate
    ensures flag / 8 == (if auto then ParseFlagAutoMultiwordSynonyms / 8 else 0)
  {
    var flag := ParseFlagBoolean + ParseFlagPhrase + ParseFlagLovehate;
    if auto then flag + ParseFlagAutoMultiwordSynonyms else flag
  }

  /**
   * AddQueryString(query, addOp, scale): the prepared query is parsed
   * into the server's query with addOp and the default operator. scaled
   * says whether the scale is other than 1 within (0, 655.35); then
   * Pack("n", int) fails its uint16 type assertion and panics.
   */
  function AddQueryStringSpec(st: SearcherState, fm: map<Bytes, FieldMeta>, query: Bytes, addOp: byte, scaled: bool)
    : (r: (SearcherState, Result<Bytes>))
    ensures r.0 == st.(conn := r.0.conn, queryPrefix := r.0.queryPrefix)
    ensures r.1.Ok? <==> !scaled
    ensures r.1.Ok? ==> r.1.value == Normalized(fm, query)
  {
    var (st1, q) := PreQuerySpec(st, fm, query);
    if scaled then (st1, Err(Panic(TypeAssertion)))
    else (Exchange(st1, NewCommand2(CmdQueryParse, addOp, st1.defaultOp, [q, []]), CmdNone).0, Ok(q))
  }

  /** SetQuery(query): a nonempty query is stored and added with AND. */
  function SetQuerySpec(st: SearcherState, fm: map<Bytes, FieldMeta>, query: Bytes): (r: SearcherState)
    ensures r == st.(conn := r.conn, queryPrefix := r.queryPrefix, query := r.query)
    ensures r.query == (if query == [] then st.query else query)
  {
    if query == [] then st
    else AddQueryStringSpec(st.(query := query), fm, query, QueryOpAnd, false).0
  }

  /**
   * The frame of AddQueryTerm: QUERY_TERMS for several terms, QUERY_TERM
   * for one, the field's number (or the mixed 255), the terms joined by tabs.
   */
  function QueryTermFrame(fm: map<Bytes, FieldMeta>, field: Bytes, addOp: byte, terms: seq<Bytes>): (f: Frame)
    ensures f.cmd == (if |terms| > 1 then CmdQueryTerms else CmdQueryTerm)
    ensures f.arg1 == addOp && f.buf == Join(terms, [Tab]) && f.buf1 == []
    ensures f.arg2 == (if field != [] && field in fm then fm[field].vno else MixedVno)
  {
    var vno := if field != [] && field in fm then fm[field].vno else MixedVno;
    NewCommand2(if |terms| > 1 then CmdQueryTerms else CmdQueryTerm, addOp, vno, [Join(terms, [Tab]), []])
  }

  /** AddQueryTerm(field, addOp, scale, terms...): scaled panics as in AddQueryString; no terms sends nothing. */
  function AddQueryTermSpec(st: SearcherState, fm: map<Bytes, FieldMeta>, field: Bytes, addOp: byte, scaled: bool, terms: seq<Bytes>)
    : (r: (SearcherState, Option<Error>))
    ensures r.0 == st.(conn := r.0.conn)
    ensures r.1.Some? <==> scaled
    ensures terms == [] || scaled ==> r.0 == st
  {
    if scaled then (st, Some(Panic(TypeAssertion)))
    else if terms == [] then (st, None)
    else (Exchange(st, QueryTermFrame(fm, field, addOp, terms), CmdNone).0, None)
  }

  /** clearQuery: QUERY_INIT, and the stored query, count and terms forgotten. */
  function ClearQuerySpec(st: SearcherState): (r: SearcherState)
    ensures r == st.(conn := r.conn, query := [], count := 0, terms := None)
  {
    Exchange(st, EmptyFrame.(cmd := CmdQueryInit), CmdNone).0.(query := [], count := 0, terms := None)
  }

  // ---------------------------------------------------------------------
  // Construction (searcher.go:49-67, 591-609).

  /** A new Searcher on a connection: count unknown (MaxUint32), everything else zero. */
  function InitialState(c: ConnState): (st: SearcherState)
    ensures st.conn == c && st.count == MaxUint32 && st.terms.None?
  {
    SearcherState(c, QueryOpAnd, map[], 0, MaxUint32, 0, 0, [], {}, [], [], None)
  }

  /** NewSearcher: a fresh session on a connection without timeout, on which the project is set. */
  function NewSearcherSpec(c: ConnState, fm: map<Bytes, FieldMeta>, project: Bytes, order: seq<Bytes>)
    : (r: (SearcherState, Option<Error>))
    requires forall k :: 0 <= k < |order| ==> order[k] in fm
  {
    ProjectSpec(InitialState(TimeoutSpec(c, 0).0), fm, project, order)
  }

  /**
   * setProject(project): USE the project; on failure the connection is
   * closed; on success the prefix cache and the database set start empty
   * and initSpecialField runs over the fields in order.
   */
  function ProjectSpec(st: SearcherState, fm: map<Bytes, FieldMeta>, project: Bytes, order: seq<Bytes>)
    : (r: (SearcherState, Option<Error>))
    requires forall k :: 0 <= k < |order| ==> order[k] in fm
    ensures r.1.Some? ==> !r.0.conn.open
    ensures r.1.None? ==> r.0 == st.(conn := r.0.conn, queryPrefix := map[], curDBs := {})
  {
    var (st1, resp) := Exchange(st, UseProjectCmd(project), OkProject);
    if resp.Err? then (st1.(conn := CloseSpec(st1.conn)), Some(resp.error))
    else (st1.(queryPrefix := map[], curDBs := {}, conn := ExecAll(st1.conn, SpecialCalls(fm, order))), None)
  }
}
