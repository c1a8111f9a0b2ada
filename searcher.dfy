// searcher.go and query.go: the search-server client as an object. Its
// fields are the Go Searcher's; every method is proved to leave the state
// (and return the value) that the matching function of SearchSpecs gives.
//
// The schema and the search-log schema are fixed when the searcher is
// built, and the connection is a Connections.Connection.
module Searchers {
  import opened Types
  import opened Codes
  import opened GoStrings
  import opened Command
  import opened Connections
  import opened Fields
  import opened Schemas
  import opened Queries
  import opened Documents
  import opened SearchText
  import opened CleanQueries
  import opened SearchSpecs
  import Tokenizer

  /**
   * The body of preQueryString's loop for one nonempty part: what it
   * writes after the space, and the field whose prefix it registers.
   */
  method RewritePart(fm: map<Bytes, FieldMeta>, part: Bytes) returns (r: Bytes, field: Option<Bytes>)
    ensures r == Rewrite(fm, part)
    ensures field == PartField(fm, part)
  {
    field := None;
    var pos := IndexOf(part, [Colon]);
    if pos > 0 {
      assert OccursAt(part, [Colon], pos);
      assert part[pos] == part[pos..pos + 1][0];
      var i := 0;
      while i < pos && part[i] in LeadBytes
        invariant 0 <= i <= pos
        invariant LeadFrom(part, pos, i) == LeadFrom(part, pos, 0)
      {
        i := i + 1;
      }
      var name := part[i..pos];
      if name in fm && fm[name].vno != MixedVno {
        field := Some(name);
        r := FieldedPart(part, pos, i);
        return;
      }
    }
    if |part| > 1 && (part[0] == Plus || part[0] == Minus) && part[1] != OpenParen && MatchesClass(part) {
      r := part[..1] + [OpenParen] + part[1..] + [CloseParen];
    } else {
      r := part;
    }
  }

  /** The rewrite of a part naming a known field, its name at part[i..pos]. */
  method FieldedPart(part: Bytes, pos: nat, i: nat) returns (r: Bytes)
    requires i <= pos < |part| && part[pos] == Colon
    ensures r == FieldRewrite(part, pos, i)
  {
    var name := part[i..pos];
    var value := part[pos + 1..];
    var suffix: Bytes := [];
    if HasSuffix(part, [CloseParen]) {
      suffix := [CloseParen];
      value := part[pos + 1..|part| - 1];
    }
    assert value == ValueOf(part, pos);
    var terms := LowerTerms(Tokenizer.GetTokens(value));
    r := part[..i] + name + [Colon] + Join(terms, [Space] + name + [Colon]) + suffix;
  }

  /** The loop that lowercases each token in place. */
  method LowerTerms(tokens: seq<Bytes>) returns (terms: seq<Bytes>)
    ensures terms == Lowered(tokens)
  {
    terms := tokens;
    var k := 0;
    while k < |terms|
      invariant 0 <= k <= |terms| == |tokens|
      invariant forall j :: 0 <= j < k ==> terms[j] == ToLower(tokens[j])
      invariant forall j :: k <= j < |terms| ==> terms[j] == tokens[j]
    {
      terms := terms[k := ToLower(terms[k])];
      k := k + 1;
    }
  }

  class Searcher {
    var conn: Connection?
    const schema: SchemaData
    const logger: SchemaData
    var defaultOp: byte
    var queryPrefix: map<Bytes, bool>
    var lastCount: uint32
    var count: uint32
    var limit: uint32
    var offset: uint32
    var curDB: Bytes
    var curDBs: set<Bytes>
    var lastDB: Bytes
    var query: Bytes
    var terms: Option<seq<Bytes>>

    function State(): SearcherState
      reads this, conn
      requires conn != null
    {
      SearcherState(conn.State(), defaultOp, queryPrefix, lastCount, count, limit, offset,
                    curDB, curDBs, lastDB, query, terms)
    }

    /** The field table queries are rewritten against. */
    function Fields(): map<Bytes, FieldMeta>
    {
      schema.fieldMetas
    }

    /** new(Searcher) with count set to MaxUint32, on a connection. */
    constructor (conn: Connection, schema: SchemaData, logger: SchemaData)
      ensures this.conn == conn && this.schema == schema && this.logger == logger
      ensures State() == InitialState(conn.State())
    {
      this.conn := conn;
      this.schema := schema;
      this.logger := logger;
      defaultOp := QueryOpAnd;
      queryPrefix := map[];
      lastCount := 0;
      count := MaxUint32;
      limit := 0;
      offset := 0;
      curDB := [];
      curDBs := {};
      lastDB := [];
      query := [];
      terms := None;
    }

    /** One ExecOK on the connection, its reply dropped. */
    method Send(f: Frame, resArg: uint16) returns (resp: Result<Frame>)
      requires conn != null
      modifies conn
      ensures (State(), resp) == Exchange(old(State()), f, resArg)
    {
      resp := conn.ExecOK(f, resArg);
    }

    // -------------------------------------------------------------------
    // query.go

    /** regQueryPrefix(name). */
    method RegQueryPrefix(name: Bytes)
      requires conn != null
      modifies this, conn
      ensures conn == old(conn)
      ensures State() == PrefixSpec(old(State()), Fields(), name)
    {
      if name !in queryPrefix {
        if name in schema.fieldMetas && schema.fieldMetas[name].vno != MixedVno {
          var field := schema.fieldMetas[name];
          var typeb := PrefixNormal;
          if IsBoolIndex(field) {
            typeb := PrefixBoolean;
          }
          var resp := Send(NewCommand2(CmdQueryPrefix, typeb, field.vno, [name]), CmdNone);
          if resp.Err? {
            queryPrefix := queryPrefix[name := false];
            return;
          }
          queryPrefix := queryPrefix[name := true];
        }
      }
    }

    /** preQueryString(query): every part rewritten in order, the prefixes it names registered. */
    method PreQueryString(query: Bytes) returns (q: Bytes)
      requires conn != null
      modifies this, conn
      ensures conn == old(conn)
      ensures (State(), q) == PreQuerySpec(old(State()), Fields(), query)
    {
      var newQuery := WriteParts(Parts(query));
      q := TrimLeft(newQuery, {Space});
    }

    /** The loop of preQueryString over the split query. */
    method WriteParts(parts: seq<Bytes>) returns (newQuery: Bytes)
      requires conn != null
      modifies this, conn
      ensures conn == old(conn)
      ensures State() == PrefixesFor(old(State()), Fields(), parts)
      ensures newQuery == Buffered(Pieces(Fields(), parts))
    {
      newQuery := [];
      var i := 0;
      while i < |parts|
        invariant 0 <= i <= |parts|
        invariant conn == old(conn)
        invariant State() == PrefixesFor(old(State()), Fields(), parts[..i])
        invariant newQuery == Buffered(Pieces(Fields(), parts[..i]))
      {
        newQuery := WriteNext(parts, i, newQuery, old(State()));
        i := i + 1;
      }
      assert parts[..i] == parts;
    }

    /** One turn of the loop: part i written after the earlier ones. */
    method WriteNext(parts: seq<Bytes>, i: nat, newQuery: Bytes, ghost st: SearcherState) returns (next: Bytes)
      requires conn != null && i < |parts|
      requires State() == PrefixesFor(st, Fields(), parts[..i])
      requires newQuery == Buffered(Pieces(Fields(), parts[..i]))
      modifies this, conn
      ensures conn == old(conn)
      ensures State() == PrefixesFor(st, Fields(), parts[..i + 1])
      ensures next == Buffered(Pieces(Fields(), parts[..i + 1]))
    {
      var part := parts[i];
      PiecesStep(Fields(), parts, i);
      PrefixesStep(st, Fields(), parts, i);
      ghost var done := Pieces(Fields(), parts[..i]);
      next := newQuery;
      if part != [] {
        var piece := WritePart(part);
        BufferedAppend(done, piece);
        next := next + [Space] + piece;
        assert next == Buffered(done + [piece]);
      } else {
        assert done + [] == done;
      }
    }

    /** One nonempty part: its prefix registered, its rewrite returned. */
    method WritePart(part: Bytes) returns (piece: Bytes)
      requires conn != null
      modifies this, conn
      ensures conn == old(conn)
      ensures piece == Rewrite(Fields(), part)
      ensures var f := PartField(Fields(), part);
        State() == if f.Some? then PrefixSpec(old(State()), Fields(), f.value) else old(State())
    {
      var field;
      piece, field := RewritePart(schema.fieldMetas, part);
      if field.Some? {
        RegQueryPrefix(field.value);
      }
    }

    /** initSpecialField: SET_CUT and SET_NUMERIC for the fields in order, each reply ignored. */
    method InitSpecialField(order: seq<Bytes>)
      requires conn != null
      requires forall k :: 0 <= k < |order| ==> order[k] in Fields()
      modifies conn
      ensures conn.State() == ExecAll(old(conn.State()), SpecialCalls(Fields(), order))
    {
      var i := 0;
      while i < |order|
        invariant 0 <= i <= |order|
        invariant ExecAll(conn.State(), SpecialCalls(Fields(), order[i..]))
               == ExecAll(old(conn.State()), SpecialCalls(Fields(), order))
      {
        var field := schema.fieldMetas[order[i]];
        SpecialCallsFront(Fields(), order[i..]);
        ghost var c0 := conn.State();
        SpecialField(field);
        ExecAllSpecial(c0, field, SpecialCalls(Fields(), order[i + 1..]));
        assert order[i..][1..] == order[i + 1..];
        i := i + 1;
      }
    }

    /** The body of initSpecialField for one field: SET_CUT for a cut length, then SET_NUMERIC for a numeric field. */
    method SpecialField(field: FieldMeta)
      requires conn != null
      modifies conn
      ensures conn.State() == ExecAll(old(conn.State()), SpecialCallsOf(field))
    {
      ghost var c0 := conn.State();
      ghost var cut: seq<Call> := [];
      ghost var numeric: seq<Call> := [];
      if field.cutlen > 0 {
        var f := NewCommand2(CmdSearchSetCut, CutUnits(field.cutlen), field.vno, []);
        var _ := conn.ExecOK(f, CmdNone);
        cut := [Call(f, CmdNone)];
        assert cut[1..] == [];
      }
      ghost var c1 := conn.State();
      assert c1 == ExecAll(c0, cut);
      if IsNumeric(field) {
        var f := NewCommand2(CmdSearchSetNumeric, 0, field.vno, []);
        var _ := conn.ExecOK(f, CmdNone);
        numeric := [Call(f, CmdNone)];
        assert numeric[1..] == [];
      }
      assert conn.State() == ExecAll(c1, numeric);
      ExecAllAppend(c0, cut, numeric);
      assert SpecialCallsOf(field) == cut + numeric;
    }

    // -------------------------------------------------------------------
    // Options (searcher.go:70-137).

    /** Fuzzy(fuzzy): OR or AND as the default operator. */
    method Fuzzy(fuzzy: bool)
      requires conn != null
      modifies this
      ensures conn == old(conn)
      ensures State() == FuzzySpec(old(State()), fuzzy)
    {
      if fuzzy {
        defaultOp := QueryOpOr;
      } else {
        defaultOp := QueryOpAnd;
      }
    }

    /** SetRequireMatchedTerm(required). */
    method SetRequireMatchedTerm(required: bool)
      requires conn != null
      modifies conn
      ensures State() == Exchange(old(State()), MatchedTermFrame(required), CmdNone).0
    {
      var f := EmptyFrame.(cmd := CmdSearchSetMisc, arg1 := SearchMiscMatchedTerm);
      if required {
        f := f.(arg2 := 1);
      }
      var _ := Send(f, CmdNone);
    }

    /**
     * SetWeightingScheme(policy) as written: the cases 0 and 1 are empty,
     * so only policy 2 sends WEIGHT_SCHEME.
     */
    method SetWeightingScheme(policy: byte)
      requires conn != null
      modifies conn
      ensures State() == if WeightingFrameAsWritten(policy).Some?
                         then Exchange(old(State()), WeightingFrameAsWritten(policy).value, CmdNone).0
                         else old(State())
    {
      if policy == 2 {
        var f := EmptyFrame.(cmd := CmdSearchSetMisc, arg1 := SearchMiscWeightScheme, arg2 := policy);
        var _ := Send(f, CmdNone);
      }
    }

    /** SetAutoSynonyms(auto): QUERY_PARSEFLAG with the parse flags. */
    method SetAutoSynonyms(auto: bool)
      requires conn != null
      modifies conn
      ensures State() == Exchange(old(State()), NewCommand(CmdQueryParseFlag, ParseFlags(auto), []), CmdNone).0
    {
      var flag := ParseFlagBoolean + ParseFlagPhrase + ParseFlagLovehate;
      if auto {
        flag := flag + ParseFlagAutoMultiwordSynonyms;
      }
      var _ := Send(NewCommand(CmdQueryParseFlag, flag, []), CmdNone);
    }

    // -------------------------------------------------------------------
    // Count, Limit and Search (searcher.go:196-331).

    /** The opening of Count, Search, Terms and GetQuery: a nonempty query goes through preQueryString. */
    method Prepare(query: Bytes) returns (q: Bytes)
      requires conn != null
      modifies this, conn
      ensures conn == old(conn)
      ensures (State(), q) == Prepared(old(State()), Fields(), query)
    {
      q := query;
      if query != [] {
        q := PreQueryString(query);
      }
    }

    /** Count(query). */
    method Count(query: Bytes) returns (n: uint32)
      requires conn != null
      modifies this, conn
      ensures conn == old(conn)
      ensures (State(), n) == CountSpec(old(State()), Fields(), query)
    {
      var q := Prepare(query);
      n := CountPrepared(q);
    }

    /** Count once the query is prepared. */
    method CountPrepared(q: Bytes) returns (n: uint32)
      requires conn != null
      modifies this, conn
      ensures conn == old(conn)
      ensures (State(), n) == CountAfter(old(State()), q)
    {
      if q == [] && count != MaxUint32 {
        return count;
      }
      var resp := Send(CountFrame(defaultOp, q), OkSearchTotal);
      if resp.Ok? {
        var rtn := UnPackWord(CntName, resp.value.buf);
        if rtn.Ok? {
          if q == [] {
            count := rtn.value;
          }
          return rtn.value;
        }
      }
      return 0;
    }

    /** GetLastCount: the count of the last search. */
    method GetLastCount() returns (n: uint32)
      ensures n == lastCount
    {
      n := lastCount;
    }

    /** Limit(limit...). */
    method Limit(limits: seq<uint32>)
      requires conn != null
      modifies this
      ensures conn == old(conn)
      ensures State() == LimitSpec(old(State()), limits)
    {
      if |limits| > 0 {
        limit := limits[0];
        offset := 0;
        if |limits| > 1 {
          offset := limits[1];
        }
      }
      if limit == 0 {
        limit := 10;
      }
    }

    /** Search(queries...). */
    method Search(queries: seq<Bytes>) returns (r: Result<seq<Option<Document>>>)
      requires conn != null
      modifies this, conn
      ensures conn == old(conn)
      ensures (State(), r) == SearchSpec(old(State()), Fields(), schema.vnoMap, logger.vnoMap, queries)
    {
      var query := Prepare(Join(queries, AndWord));
      if limit == 0 {
        limit := 10;
      }
      var page := Pack([CodeU32, CodeU32], [Uint32Arg(offset), Uint32Arg(limit)]);
      PackTwoWords(offset, limit);
      var resp := Send(ResultFrame(defaultOp, query, page.value), OkResultBegin);
      if resp.Err? {
        return Err(resp.error);
      }
      r := ReadResults(query, resp.value);
    }

    /** Search after RESULT_BEGIN: the count, the paging reset, the stream, and the log entry. */
    method ReadResults(q: Bytes, begin: Frame) returns (r: Result<seq<Option<Document>>>)
      requires conn != null
      modifies this, conn
      ensures conn == old(conn)
      ensures (State(), r) == SearchResults(old(State()), schema.vnoMap, logger.vnoMap, q, begin)
    {
      ghost var st0 := State();
      var resx := UnPackWord(CountName, begin.buf);
      if resx.Err? {
        return Err(resx.error);
      }
      lastCount := resx.value;
      limit := 10;
      offset := 0;
      assert State() == st0.(lastCount := resx.value, limit := 10, offset := 0);
      r := StreamResults(q, begin);
    }

    /** The stream of Search, read with the field names of the schema in use, then FinishSearch. */
    method StreamResults(q: Bytes, begin: Frame) returns (r: Result<seq<Option<Document>>>)
      requires conn != null
      modifies this, conn
      ensures conn == old(conn)
      ensures (State(), r) == ResultsFrom(old(State()), schema.vnoMap, logger.vnoMap, q, begin)
    {
      var vnomap := if curDB == LogDb then logger.vnoMap else schema.vnoMap;
      var sr := ReadStream(begin, vnomap, lastCount);
      r := FinishSearch(q, sr);
    }

    /** The end of Search, once the stream is read. */
    method FinishSearch(q: Bytes, sr: Result<seq<Option<Document>>>) returns (r: Result<seq<Option<Document>>>)
      requires conn != null
      modifies this, conn
      ensures conn == old(conn)
      ensures (State(), r) == AfterStream(old(State()), q, sr)
    {
      if sr.Err? {
        return Err(sr.error);
      }
      if q == [] && curDB != LogDb {
        count := lastCount;
        var p := LogQuery();
        if p.Some? {
          return Err(p.value);
        }
      }
      return sr;
    }

    /** The loop of Search: result[docIdx] filled as DOC frames arrive, FIELD and MATCHED applied to the last one. */
    method ReadStream(begin: Frame, vnomap: map<byte, Bytes>, lastCount: uint32)
      returns (r: Result<seq<Option<Document>>>)
      requires conn != null
      modifies conn
      ensures (conn.State(), r) == StreamFrom(old(conn.State()), begin, vnomap, EmptyResult(lastCount), 0)
    {
      var result := new Option<Document>[lastCount](_ => None);
      assert result[..] == EmptyResult(lastCount);
      var docIdx: nat := 0;
      while true
        invariant Received(result[..], docIdx)
        invariant StreamFrom(conn.State(), begin, vnomap, result[..], docIdx)
               == StreamFrom(old(conn.State()), begin, vnomap, EmptyResult(lastCount), 0)
        decreases |conn.input|
      {
        var mres := conn.GetSearchResponse(begin);
        if mres.Err? {
          return Err(mres.error);
        }
        var done, res, next := TakeFrame(result, docIdx, begin, vnomap, mres.value, conn.State());
        if done {
          return res;
        }
        docIdx := next;
      }
    }

    /**
     * The body of the result loop for one frame: whether the stream ends
     * (and with what), else the index of the next document.
     */
    static method TakeFrame(result: array<Option<Document>>, docIdx: nat, begin: Frame, vnomap: map<byte, Bytes>,
                            f: Frame, ghost c: ConnState)
      returns (done: bool, r: Result<seq<Option<Document>>>, next: nat)
      requires Received(result[..], docIdx)
      modifies result
      ensures done ==> (c, r) == StreamFrame(c, begin, vnomap, old(result[..]), docIdx, f)
      ensures !done ==> Received(result[..], next)
                        && StreamFrame(c, begin, vnomap, old(result[..]), docIdx, f)
                           == StreamFrom(c, begin, vnomap, result[..], next)
    {
      done, r, next := false, Ok([]), docIdx;
      if f.cmd == CmdSearchResultFacets {
        if |f.buf| > FacetHeader {
          // the first sub-record unpacks, and its vlen is a uint8, not the asserted uint32
          return true, Err(Panic(TypeAssertion)), docIdx;
        }
      } else if f.cmd == CmdSearchResultDoc {
        var doc := NewDocument(f.buf);
        if doc.Err? {
          return true, Ok(result[..]), docIdx;
        }
        if docIdx >= result.Length {
          return true, Err(Panic(IndexOutOfRange)), docIdx;
        }
        result[docIdx] := Some(doc.value);
        next := docIdx + 1;
      } else if f.cmd == CmdSearchResultField {
        if docIdx > 0 {
          var doc := result[docIdx - 1].value;
          result[docIdx - 1] := Some(doc.(fields := doc.fields[FieldName(vnomap, f) := f.buf]));
          assert result[..] == WithField(old(result[..]), docIdx, FieldName(vnomap, f), f.buf);
        }
      } else if f.cmd == CmdSearchResultMatched {
        if docIdx > 0 {
          var doc := result[docIdx - 1].value;
          result[docIdx - 1] := Some(doc.(matched := MatchedOf(f.buf)));
          assert result[..] == WithMatched(old(result[..]), docIdx, f.buf);
        }
      } else if f.cmd == CmdOk && GetArg(f) == OkResultEnd {
        return true, Ok(result[..]), docIdx;
      } else {
        return true, Err(UnexpectedSearchReply(f)), docIdx;
      }
    }

    // -------------------------------------------------------------------
    // Terms and the search log (searcher.go:446-471, 621-668).

    /** Terms(query). */
    method Terms(query: Bytes) returns (ts: seq<Bytes>)
      requires conn != null
      modifies this, conn
      ensures conn == old(conn)
      ensures (State(), ts) == TermsSpec(old(State()), Fields(), query)
    {
      var q := Prepare(query);
      ts := TermsPrepared(q);
    }

    /** Terms once the query is prepared. */
    method TermsPrepared(q: Bytes) returns (ts: seq<Bytes>)
      requires conn != null
      modifies this, conn
      ensures conn == old(conn)
      ensures (State(), ts) == TermsAfter(old(State()), q)
    {
      if q == [] && terms.Some? {
        return terms.value;
      }
      var resp := Send(TermsFrame(defaultOp, q), OkQueryTerms);
      if resp.Err? {
        return [];
      }
      ts := FilterTerms(resp.value.buf);
      terms := Some(ts);
    }

    /** logQuery: record the stored query's terms in the search log; a panic of its loop is returned. */
    method LogQuery() returns (p: Option<Error>)
      requires conn != null
      modifies this, conn
      ensures conn == old(conn)
      ensures (State(), p) == LogQuerySpec(old(State()))
    {
      if LogSkipped(query, lastCount, defaultOp == QueryOpOr) {
        return None;
      }
      var ts := Terms([]);
      var buf := AssembleLog(query, ts);
      if buf.Err? {
        return Some(buf.error);
      }
      var log := Trim(buf.value, {Space});
      if LogTooShort(log) {
        return None;
      }
      var _ := AddSearchLog(log);
      return None;
    }

    /** addSearchLog(query). */
    method AddSearchLog(log: Bytes) returns (err: Option<Error>)
      requires conn != null
      modifies conn
      ensures (State(), err) == (var (st, resp) := Exchange(old(State()), AddLogFrame(log), OkLogged);
                                 (st, if resp.Err? then Some(resp.error) else None))
    {
      var resp := Send(AddLogFrame(log), OkLogged);
      err := if resp.Err? then Some(resp.error) else None;
    }

    // -------------------------------------------------------------------
    // Building the server's query (searcher.go:337-400, 611-619).

    /** SetQuery(query). */
    method SetQuery(q: Bytes)
      requires conn != null
      modifies this, conn
      ensures conn == old(conn)
      ensures State() == SetQuerySpec(old(State()), Fields(), q)
    {
      if q != [] {
        query := q;
        var _ := AddQueryString(q, QueryOpAnd, false);
      }
    }

    /**
     * AddQueryString(query, addOp, scale); scaled says whether the scale is
     * one Pack("n", ...) is asked to encode.
     */
    method AddQueryString(q: Bytes, addOp: byte, scaled: bool) returns (r: Result<Bytes>)
      requires conn != null
      modifies this, conn
      ensures conn == old(conn)
      ensures (State(), r) == AddQueryStringSpec(old(State()), Fields(), q, addOp, scaled)
    {
      var normalized := PreQueryString(q);
      if scaled {
        return Err(Panic(TypeAssertion));
      }
      var _ := Send(NewCommand2(CmdQueryParse, addOp, defaultOp, [normalized, []]), CmdNone);
      return Ok(normalized);
    }

    /** AddQueryTerm(field, addOp, scale, terms...). */
    method AddQueryTerm(field: Bytes, addOp: byte, scaled: bool, ts: seq<Bytes>) returns (err: Option<Error>)
      requires conn != null
      modifies conn
      ensures (State(), err) == AddQueryTermSpec(old(State()), Fields(), field, addOp, scaled, ts)
    {
      if scaled {
        return Some(Panic(TypeAssertion));
      }
      var vno := MixedVno;
      if field != [] && field in schema.fieldMetas {
        vno := schema.fieldMetas[field].vno;
      }
      var cmd1 := CmdQueryTerm;
      if |ts| == 0 {
        return None;
      } else if |ts| > 1 {
        cmd1 := CmdQueryTerms;
      }
      var _ := Send(NewCommand2(cmd1, addOp, vno, [Join(ts, [Tab]), []]), CmdNone);
      return None;
    }

    /** GetQuery(query). */
    method GetQuery(q: Bytes) returns (r: Result<Bytes>)
      requires conn != null
      modifies this, conn
      ensures conn == old(conn)
      ensures (State(), r) == QuerySpec(old(State()), Fields(), q)
    {
      var prepared := Prepare(q);
      var resp := Send(NewCommand2(CmdQueryGetString, 0, defaultOp, [prepared]), OkQueryString);
      if resp.Err? {
        return Err(resp.error);
      }
      return Ok(resp.value.buf);
    }

    /** clearQuery. */
    method ClearQuery()
      requires conn != null
      modifies this, conn
      ensures conn == old(conn)
      ensures State() == ClearQuerySpec(old(State()))
    {
      var _ := Send(EmptyFrame.(cmd := CmdQueryInit), CmdNone);
      query := [];
      count := 0;
      terms := None;
    }

    // -------------------------------------------------------------------
    // Databases (searcher.go:407-443, 692-698).

    /** SetDB(db). */
    method SetDB(db: Bytes) returns (err: Option<Error>)
      requires conn != null
      modifies this, conn
      ensures conn == old(conn)
      ensures (State(), err) == SetDbSpec(old(State()), db)
    {
      var resp := Send(SetDbFrame(db), OkDbChanged);
      if resp.Err? {
        return Some(resp.error);
      }
      lastDB, curDB := curDB, db;
      return None;
    }

    /** AddDB(db). */
    method AddDB(db: Bytes) returns (err: Option<Error>)
      requires conn != null
      modifies this, conn
      ensures conn == old(conn)
      ensures (State(), err) == AddDbSpec(old(State()), db)
    {
      var resp := Send(AddDbFrame(db), OkDbChanged);
      if resp.Err? {
        return Some(resp.error);
      }
      curDBs := curDBs + {db};
      return None;
    }

    /** restoreDb, ranging over curDBs in the order given. */
    method RestoreDb(order: seq<Bytes>)
      requires conn != null
      requires Lists(order, curDBs)
      modifies this, conn
      ensures conn == old(conn)
      ensures State() == RestoreSpec(old(State()), order)
    {
      var db := lastDB;
      var _ := SetDB(db);
      var i := 0;
      while i < |order|
        invariant 0 <= i <= |order|
        invariant conn == old(conn)
        invariant AddAll(State(), order[i..]) == RestoreSpec(old(State()), order)
      {
        assert order[i..][1..] == order[i + 1..];
        var _ := AddDB(order[i]);
        i := i + 1;
      }
    }

    /** GetDbTotal. */
    method GetDbTotal() returns (total: uint32)
      requires conn != null
      modifies conn
      ensures (State(), total) == DbTotalSpec(old(State()))
    {
      var resp := Send(NewCommand(CmdSearchDbTotal, 0, []), OkDbTotal);
      if resp.Ok? {
        var t := UnPackWord(TotalName, resp.value.buf);
        if t.Ok? {
          return t.value;
        }
      }
      return 0;
    }

    // -------------------------------------------------------------------
    // Corrections, expansions and synonyms (searcher.go:153-189, 476-520).

    /** GetCorrectedQuery(queries...). */
    method GetCorrectedQuery(queries: seq<Bytes>) returns (r: seq<Bytes>)
      requires conn != null
      modifies conn
      ensures (State(), r) == CorrectedSpec(old(State()), Fields(), queries)
    {
      var q := Join(queries, [Space]);
      if q == [] {
        r := CorrectedStored();
      } else {
        r := CorrectedFor(q);
      }
    }

    /** GetCorrectedQuery without queries. */
    method CorrectedStored() returns (r: seq<Bytes>)
      requires conn != null
      modifies conn
      ensures (State(), r) == SearchSpecs.CorrectedStored(old(State()), Fields())
    {
      if count > 0 {
        r := CorrectedCounted();
      } else {
        r := CorrectedFor(CleanFieldQuery(Fields(), query));
      }
    }

    /** CorrectedStored after a search that counted hits. */
    method CorrectedCounted() returns (r: seq<Bytes>)
      requires conn != null
      modifies conn
      ensures (State(), r) == SearchSpecs.CorrectedCounted(old(State()), Fields())
    {
      var total := GetDbTotal();
      if count as int > Thousandths(total) {
        return [];
      }
      r := CorrectedFor(CleanFieldQuery(Fields(), query));
    }

    /** GetCorrectedQuery once the query is chosen. */
    method CorrectedFor(q: Bytes) returns (r: seq<Bytes>)
      requires conn != null
      modifies conn
      ensures (State(), r) == SearchSpecs.CorrectedFor(old(State()), q)
    {
      if q == [] || Contains(q, [Colon]) {
        return [];
      }
      var resp := Send(NewCommand(CmdQueryGetCorrected, 0, [q]), OkQueryCorrected);
      if resp.Err? {
        return [];
      }
      return Split(resp.value.buf, Newline);
    }

    /** GetExpandedQuery(query, limits...): the FIELD payloads of the streamed reply. */
    method GetExpandedQuery(q: Bytes, limits: seq<byte>) returns (result: seq<Bytes>)
      requires conn != null
      modifies conn
      ensures (State(), result) == ExpandedSpec(old(State()), q, limits)
    {
      var limit := MaxLimit(limits);
      var resp := Send(NewCommand2(CmdQueryGetExpanded, limit, 0, [q]), OkResultBegin);
      result := [];
      if resp.Err? {
        return;
      }
      ghost var c0 := conn.State();
      while true
        invariant ExpandFrom(conn.State(), resp.value, result) == ExpandFrom(c0, resp.value, [])
        decreases |conn.input|
      {
        var m := conn.GetSearchResponse(resp.value);
        if m.Err? || m.value.cmd != CmdSearchResultField {
          return;
        }
        result := result + [m.value.buf];
      }
    }

    /** GetSynonyms(word). */
    method GetSynonyms(word: Bytes) returns (r: seq<Bytes>)
      requires conn != null
      modifies conn
      ensures (State(), r) == SynonymsSpec(old(State()), word)
    {
      if word != [] {
        var resp := Send(NewCommand2(CmdSearchGetSynonyms, 2, 0, [word]), OkResultSynonyms);
        if resp.Ok? && resp.value.buf != [] {
          return Split(resp.value.buf, Newline);
        }
      }
      return [];
    }

    /**
     * GetAllSynonyms(limit, offset, stemmed) as written: Buf1 is set only
     * when Pack fails, so the paging block is never sent.
     */
    method GetAllSynonyms(limit: uint32, offset: uint32, stemmed: bool) returns (synonyms: map<Bytes, seq<Bytes>>)
      requires conn != null
      modifies conn
      ensures (State(), synonyms) == AllSynonymsSpec(old(State()), limit, offset, stemmed)
    {
      var f := EmptyFrame.(cmd := CmdSearchGetSynonyms);
      if limit > 0 {
        var page := Pack([CodeU32, CodeU32], [Uint32Arg(offset), Uint32Arg(limit)]);
        if page.Err? {
          // a failed Pack returns no bytes
          f := f.(buf1 := []);
        }
      }
      if stemmed {
        f := f.(arg1 := 1);
      }
      synonyms := map[];
      var resp := Send(f, OkResultSynonyms);
      if resp.Ok? && resp.value.buf != [] {
        synonyms := ParseSynonyms(resp.value.buf);
      }
    }

    // -------------------------------------------------------------------
    // Hot and related queries (searcher.go:523-581).

    /** GetHotQuery(hotType, limits...), restoring the databases in order. */
    method GetHotQuery(hotType: Bytes, limits: seq<byte>, order: seq<Bytes>) returns (r: Result<map<Bytes, uint32>>)
      requires conn != null
      requires Lists(order, curDBs)
      modifies this, conn
      ensures conn == old(conn)
      ensures (State(), r) == HotQuerySpec(old(State()), Fields(), schema.vnoMap, logger.vnoMap, hotType, limits, order)
    {
      var limit := MaxLimit(limits);
      var ht := HotType(hotType);
      var err := SetDB(LogDb);
      if err.Some? {
        return Ok(map[]);
      }
      Limit([limit as uint32]);
      var docs := Search([HotQuery(ht)]);
      r := HotFinish(docs, ht, order);
    }

    /** GetHotQuery after its search. */
    method HotFinish(docs: Result<seq<Option<Document>>>, ht: Bytes, order: seq<Bytes>) returns (r: Result<map<Bytes, uint32>>)
      requires conn != null
      requires Lists(order, curDBs)
      modifies this, conn
      ensures conn == old(conn)
      ensures (State(), r) == HotAfter(old(State()), docs, ht, order)
    {
      if docs.Ok? {
        r := HotEntries(docs.value, ht);
        if r.Err? {
          return;
        }
      } else if docs.error.Panic? {
        return Err(docs.error);
      } else {
        r := Ok(map[]);
      }
      RestoreDb(order);
    }

    /** GetRelatedQuery(query, limits...), restoring the operator and the databases. */
    method GetRelatedQuery(q: Bytes, limits: seq<byte>, order: seq<Bytes>) returns (r: Result<seq<Bytes>>)
      requires conn != null
      requires Lists(order, curDBs)
      modifies this, conn
      ensures conn == old(conn)
      ensures (State(), r) == RelatedSpec(old(State()), Fields(), schema.vnoMap, logger.vnoMap, q, limits, order)
    {
      var related := q;
      if related == [] {
        related := CleanFieldQuery(Fields(), query);
      }
      r := RelatedFor(related, MaxLimit(limits), order);
    }

    /** GetRelatedQuery once the query is chosen. */
    method RelatedFor(q: Bytes, limit: byte, order: seq<Bytes>) returns (r: Result<seq<Bytes>>)
      requires conn != null
      requires Lists(order, curDBs)
      modifies this, conn
      ensures conn == old(conn)
      ensures (State(), r) == SearchSpecs.RelatedFor(old(State()), Fields(), schema.vnoMap, logger.vnoMap, q, limit, order)
    {
      if q == [] || Contains(q, [Colon]) {
        return Ok([]);
      }
      var op := defaultOp;
      var err := SetDB(LogDb);
      if err.Some? {
        return Ok([]);
      }
      r := RelatedSearch(q, limit, op, order);
    }

    /** GetRelatedQuery once log_db is selected. */
    method RelatedSearch(q: Bytes, limit: byte, op: byte, order: seq<Bytes>) returns (r: Result<seq<Bytes>>)
      requires conn != null
      requires Lists(order, curDBs)
      modifies this, conn
      ensures conn == old(conn)
      ensures (State(), r) == SearchSpecs.RelatedSearch(old(State()), Fields(), schema.vnoMap, logger.vnoMap, q, limit, op, order)
    {
      Limit([limit as uint32 + 1]);
      Fuzzy(true);
      var docs := Search([q]);
      r := RelatedFinish(docs, q, limit, op, order);
    }

    /** GetRelatedQuery after its search. */
    method RelatedFinish(docs: Result<seq<Option<Document>>>, q: Bytes, limit: byte, op: byte, order: seq<Bytes>)
      returns (r: Result<seq<Bytes>>)
      requires conn != null
      requires Lists(order, curDBs)
      modifies this, conn
      ensures conn == old(conn)
      ensures (State(), r) == RelatedAfter(old(State()), docs, q, limit, op, order)
    {
      if docs.Ok? {
        r := RelatedBodies(docs.value, q, limit as nat);
        if r.Err? {
          return;
        }
      } else if docs.error.Panic? {
        return Err(docs.error);
      } else {
        r := Ok([]);
      }
      defaultOp := op;
      RestoreDb(order);
    }

    // -------------------------------------------------------------------
    // Connection and project (searcher.go:584-609).

    /** The state the searcher would have on connection state c; State() is Session(conn.State()). */
    ghost function Session(c: ConnState): (st: SearcherState)
      reads this
      ensures st.conn == c
    {
      SearcherState(c, defaultOp, queryPrefix, lastCount, count, limit, offset,
                    curDB, curDBs, lastDB, query, terms)
    }

    /** Close: the connection closed and dropped; every other field kept. */
    method Close()
      modifies this, conn
      ensures conn == null
      ensures old(conn) != null ==> Session(old(conn).State()) == old(State()).(conn := CloseSpec(old(conn.State())))
    {
      if conn != null {
        conn.Close();
        conn := null;
      }
    }

    /** setProject(project), initSpecialField ranging over the fields in order. */
    method SetProject(project: Bytes, order: seq<Bytes>) returns (err: Option<Error>)
      requires conn != null
      requires Lists(order, Fields().Keys)
      modifies this, conn
      ensures var (st, e) := ProjectSpec(old(State()), Fields(), project, order);
              err == e
              && (e.Some? ==> conn == null && Session(old(conn).State()) == st)
              && (e.None? ==> conn == old(conn) && State() == st)
    {
      var resp := Send(UseProjectCmd(project), OkProject);
      if resp.Err? {
        conn.Close();
        conn := null;
        return Some(resp.error);
      }
      queryPrefix := map[];
      curDBs := {};
      InitSpecialField(order);
      return None;
    }
  }

  /**
   * NewSearcher on an open connection: a new searcher, SetTimeout(0) with
   * its result ignored, then setProject; on failure no searcher is
   * returned and the connection is closed.
   */
  method NewSearcher(c: Connection, schema: SchemaData, logger: SchemaData, project: Bytes, order: seq<Bytes>)
    returns (s: Searcher?, err: Option<Error>)
    requires Lists(order, schema.fieldMetas.Keys)
    modifies c
    ensures err == NewSearcherSpec(old(c.State()), schema.fieldMetas, project, order).1
    ensures err.Some? ==> s == null && c.State() == NewSearcherSpec(old(c.State()), schema.fieldMetas, project, order).0.conn
    ensures err.None? ==> s != null && fresh(s) && s.conn == c && s.schema == schema && s.logger == logger
    ensures err.None? ==> s.State() == NewSearcherSpec(old(c.State()), schema.fieldMetas, project, order).0
  {
    ghost var r := NewSearcherSpec(c.State(), schema.fieldMetas, project, order);
    var searcher := new Searcher(c, schema, logger);
    var _ := c.SetTimeout(0);
    assert searcher.State() == InitialState(TimeoutSpec(old(c.State()), 0).0);
    err := searcher.SetProject(project, order);
    if err.Some? {
      assert c.State() == r.0.conn;
      return null, err;
    }
    assert searcher.State() == r.0;
    return searcher, None;
  }

  /** UnPack("I" + name, data) and the uint32 type assertion on its value. */
  method UnPackWord(name: Bytes, data: Bytes) returns (r: Result<uint32>)
    requires name != [] && Slash !in name
    ensures r == WordOf(data)
  {
    UnPackOneWord(name, data);
    var rtn, err := UnPack([CodeU32] + name, data);
    if err.Some? {
      return Err(err.value);
    }
    if name in rtn && rtn[name].U32Value? {
      return Ok(rtn[name].u32);
    }
    return Err(Panic(TypeAssertion));
  }

  /** One more part: its piece, if it is nonempty. */
  lemma PiecesStep(fm: map<Bytes, FieldMeta>, parts: seq<Bytes>, i: nat)
    requires i < |parts|
    ensures Pieces(fm, parts[..i + 1]) == Pieces(fm, parts[..i]) + (if parts[i] == [] then [] else [Rewrite(fm, parts[i])])
  {
    assert parts[..i + 1][..i] == parts[..i];
  }

  /** One more part: the prefix it names, if any. */
  lemma PrefixesStep(st: SearcherState, fm: map<Bytes, FieldMeta>, parts: seq<Bytes>, i: nat)
    requires i < |parts|
    ensures PrefixesFor(st, fm, parts[..i + 1])
         == var f := PartField(fm, parts[i]);
            if f.Some? then PrefixSpec(PrefixesFor(st, fm, parts[..i]), fm, f.value) else PrefixesFor(st, fm, parts[..i])
  {
    assert parts[..i + 1][..i] == parts[..i];
  }

  /** The special-field calls of a list: those of its first field, then those of the rest. */
  lemma {:induction false} SpecialCallsFront(fm: map<Bytes, FieldMeta>, order: seq<Bytes>)
    requires forall k :: 0 <= k < |order| ==> order[k] in fm
    requires order != []
    ensures SpecialCalls(fm, order) == SpecialCallsOf(fm[order[0]]) + SpecialCalls(fm, order[1..])
    decreases |order|
  {
    if |order| == 1 {
      assert order[..0] == [];
      assert order[1..] == [];
    } else {
      var init := order[..|order| - 1];
      var last := SpecialCallsOf(fm[order[|order| - 1]]);
      SpecialCallsFront(fm, init);
      assert init[0] == order[0];
      assert init[1..] == order[1..][..|order[1..]| - 1];
      assert order[1..][|order[1..]| - 1] == order[|order| - 1];
      assert SpecialCalls(fm, order[1..]) == SpecialCalls(fm, init[1..]) + last;
      assert SpecialCalls(fm, order) == SpecialCallsOf(fm[order[0]]) + SpecialCalls(fm, init[1..]) + last;
    }
  }

  /** ExecAll runs a field's special calls, then the rest. */
  lemma ExecAllSpecial(c: ConnState, m: FieldMeta, rest: seq<Call>)
    ensures ExecAll(c, SpecialCallsOf(m) + rest)
         == ExecAll(ExecAll(c, SpecialCallsOf(m)), rest)
  {
    ExecAllAppend(c, SpecialCallsOf(m), rest);
  }

  /** ExecAll over two lists of calls is ExecAll over the first, then the second. */
  lemma {:induction false} ExecAllAppend(c: ConnState, a: seq<Call>, b: seq<Call>)
    ensures ExecAll(c, a + b) == ExecAll(ExecAll(c, a), b)
    decreases |a|
  {
    if a == [] {
      assert a + b == b;
    } else {
      assert (a + b)[1..] == a[1..] + b;
      ExecAllAppend(ExecOKSpec(c, a[0].frame, a[0].resArg).0, a[1..], b);
    }
  }
}
