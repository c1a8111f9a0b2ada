// Properties of the searcher model (SearchSpecs) that relate several
// exchanges or whole replies: the decoding of a result stream, the
// caches of Count, Terms and regQueryPrefix, paging, logQuery, the
// database selection and its restoration, and the two source defects
// in GetAllSynonyms and SetWeightingScheme.
module SearchProps {
  import opened Types
  import opened Codes
  import opened GoStrings
  import opened Command
  import opened Connections
  import opened Fields
  import opened Queries
  import opened Documents
  import opened SearchText
  import opened CleanQueries
  import opened SearchSpecs

  // ---------------------------------------------------------------------
  // The result stream of Search (searcher.go:259-325).

  /** The next frame of a little-endian result stream is f, sent whole, with rest behind it. */
  predicate Reply(c: ConnState, begin: Frame, f: Frame, rest: Bytes)
  {
    c.open && !c.bigEndian && GetArg(begin) == OkResultBegin
    && |f.buf| < 0x1_0000_0000 && c.input == EncodeFrame(f, false) + rest
  }

  /** GetSearchResponse then reads exactly f. */
  lemma NextFrame(c: ConnState, begin: Frame, f: Frame, rest: Bytes)
    requires Reply(c, begin, f, rest)
    ensures SearchResponseSpec(c, begin) == (c.(input := rest), Ok(Sent(f)))
  {
    ReadEncodedReply(c, f, rest);
  }

  /** A DOC frame with its 20-byte (or charset) metadata. */
  function DocFrame(meta: Bytes): Frame
  {
    EmptyFrame.(cmd := CmdSearchResultDoc, buf := meta)
  }

  /** The OK/RESULT_END frame that closes a stream. */
  function EndFrame(): (f: Frame)
    ensures f.cmd == CmdOk && GetArg(f) == OkResultEnd && f.buf1 == []
  {
    WithArg(EmptyFrame.(cmd := CmdOk), OkResultEnd)
  }

  /** A server's reply stream: one DOC frame per metadata block, in order, then RESULT_END. */
  function DocStream(metas: seq<Bytes>): Bytes
    decreases |metas|
  {
    if metas == [] then EncodeFrame(EndFrame(), false)
    else EncodeFrame(DocFrame(metas[0]), false) + DocStream(metas[1..])
  }

  /** Each block is small enough for the 32-bit length of its frame. */
  predicate Framable(metas: seq<Bytes>)
  {
    forall k :: 0 <= k < |metas| ==> |metas[k]| < 0x1_0000_0000
  }

  /** NewDocument accepts every metadata block: an exact header unpacks, anything else is a charset. */
  lemma NewDocumentAccepts(meta: Bytes)
    ensures NewDocument(meta).Ok?
  {
    if |meta| == DocResSize {
      NewDocumentReads(meta);
    }
  }

  /** The document a DOC frame with this metadata delivers. */
  function DocOf(meta: Bytes): Document
  {
    NewDocumentAccepts(meta);
    NewDocument(meta).value
  }

  /** docs with slots n, n+1, ... filled by the documents of metas, in order. */
  function Filled(docs: seq<Option<Document>>, n: nat, metas: seq<Bytes>): (r: seq<Option<Document>>)
    requires n + |metas| <= |docs|
    ensures |r| == |docs|
  {
    docs[..n] + seq(|metas|, k requires 0 <= k < |metas| => Some(DocOf(metas[k])))
    + docs[n + |metas|..]
  }

  /** The stream is being read, little-endian, and holds the DOC frames of metas and RESULT_END ahead of rest. */
  predicate DocsAhead(c: ConnState, begin: Frame, docs: seq<Option<Document>>, n: nat, metas: seq<Bytes>, rest: Bytes)
  {
    c.open && !c.bigEndian && GetArg(begin) == OkResultBegin
    && Received(docs, n) && Framable(metas) && c.input == DocStream(metas) + rest
  }

  /** One DOC frame at the head of the input fills slot n and the stream goes on after it. */
  lemma StreamDocStep(c: ConnState, begin: Frame, vnomap: map<byte, Bytes>, docs: seq<Option<Document>>,
                      n: nat, metas: seq<Bytes>, rest: Bytes)
    requires DocsAhead(c, begin, docs, n, metas, rest) && metas != [] && n < |docs|
    ensures DocsAhead(c.(input := DocStream(metas[1..]) + rest), begin, docs[n := Some(DocOf(metas[0]))], n + 1, metas[1..], rest)
    ensures StreamFrom(c, begin, vnomap, docs, n)
         == StreamFrom(c.(input := DocStream(metas[1..]) + rest), begin, vnomap, docs[n := Some(DocOf(metas[0]))], n + 1)
  {
    AheadOfDoc(c, begin, docs, n, metas, rest);
    NextFrame(c, begin, DocFrame(metas[0]), DocStream(metas[1..]) + rest);
    NewDocumentAccepts(metas[0]);
  }

  /** Past the first DOC frame the rest of the stream is still ahead. */
  lemma AheadOfDoc(c: ConnState, begin: Frame, docs: seq<Option<Document>>, n: nat, metas: seq<Bytes>, rest: Bytes)
    requires DocsAhead(c, begin, docs, n, metas, rest) && metas != [] && n < |docs|
    ensures Reply(c, begin, DocFrame(metas[0]), DocStream(metas[1..]) + rest)
    ensures DocsAhead(c.(input := DocStream(metas[1..]) + rest), begin, docs[n := Some(DocOf(metas[0]))], n + 1, metas[1..], rest)
  {
  }

  /** One DOC frame too many: slot n does not exist and the assignment panics. */
  lemma StreamDocPastEnd(c: ConnState, begin: Frame, vnomap: map<byte, Bytes>, docs: seq<Option<Document>>,
                         n: nat, metas: seq<Bytes>, rest: Bytes)
    requires DocsAhead(c, begin, docs, n, metas, rest) && metas != [] && n == |docs|
    ensures StreamFrom(c, begin, vnomap, docs, n).1 == Err(Panic(IndexOutOfRange))
  {
    var tail := DocStream(metas[1..]) + rest;
    assert c.input == EncodeFrame(DocFrame(metas[0]), false) + tail;
    ReadEncodedReply(c, DocFrame(metas[0]), tail);
    NewDocumentAccepts(metas[0]);
  }

  /** RESULT_END at the head of the input ends the stream with the slice as it is. */
  lemma StreamEndStep(c: ConnState, begin: Frame, vnomap: map<byte, Bytes>, docs: seq<Option<Document>>,
                      n: nat, rest: Bytes)
    requires DocsAhead(c, begin, docs, n, [], rest)
    ensures StreamFrom(c, begin, vnomap, docs, n) == (c.(input := rest), Ok(docs))
  {
    ReadEncodedReply(c, EndFrame(), rest);
  }

  lemma FilledStep(docs: seq<Option<Document>>, n: nat, metas: seq<Bytes>)
    requires metas != [] && n < |docs| && n + |metas| <= |docs|
    ensures Filled(docs[n := Some(DocOf(metas[0]))], n + 1, metas[1..]) == Filled(docs, n, metas)
  {
  }

  /**
   * A stream of DOC frames and RESULT_END, with room for all of them, fills
   * the slots from n on in arrival order and leaves every other slot as it was.
   */
  lemma {:induction false} StreamOfDocs(c: ConnState, begin: Frame, vnomap: map<byte, Bytes>,
                                        docs: seq<Option<Document>>, n: nat, metas: seq<Bytes>, rest: Bytes)
    requires DocsAhead(c, begin, docs, n, metas, rest) && n + |metas| <= |docs|
    ensures StreamFrom(c, begin, vnomap, docs, n) == (c.(input := rest), Ok(Filled(docs, n, metas)))
    decreases |metas|
  {
    if metas == [] {
      StreamEndStep(c, begin, vnomap, docs, n, rest);
      assert Filled(docs, n, metas) == docs;
    } else {
      StreamDocStep(c, begin, vnomap, docs, n, metas, rest);
      StreamOfDocs(c.(input := DocStream(metas[1..]) + rest), begin, vnomap, docs[n := Some(DocOf(metas[0]))],
                   n + 1, metas[1..], rest);
      FilledStep(docs, n, metas);
    }
  }

  /** More DOC frames than slots: the one past the end panics (index out of range). */
  lemma {:induction false} StreamOverflows(c: ConnState, begin: Frame, vnomap: map<byte, Bytes>,
                                           docs: seq<Option<Document>>, n: nat, metas: seq<Bytes>, rest: Bytes)
    requires DocsAhead(c, begin, docs, n, metas, rest) && n + |metas| > |docs|
    ensures StreamFrom(c, begin, vnomap, docs, n).1 == Err(Panic(IndexOutOfRange))
    decreases |metas|
  {
    if n == |docs| {
      StreamDocPastEnd(c, begin, vnomap, docs, n, metas, rest);
    } else {
      StreamDocStep(c, begin, vnomap, docs, n, metas, rest);
      StreamOverflows(c.(input := DocStream(metas[1..]) + rest), begin, vnomap, docs[n := Some(DocOf(metas[0]))],
                      n + 1, metas[1..], rest);
    }
  }

  /**
   * The slice Search allocates for count results: the k-th DOC frame's
   * document in slot k, nil in every slot no DOC frame reached.
   */
  lemma SearchSliceFilled(c: ConnState, begin: Frame, vnomap: map<byte, Bytes>, count: uint32,
                          metas: seq<Bytes>, rest: Bytes)
    requires DocsAhead(c, begin, EmptyResult(count), 0, metas, rest) && |metas| <= count
    ensures var (c1, r) := StreamFrom(c, begin, vnomap, EmptyResult(count), 0);
      c1 == c.(input := rest) && r.Ok? && |r.value| == count
      && (forall k :: 0 <= k < |metas| ==> r.value[k] == Some(DocOf(metas[k])))
      && (forall k :: |metas| <= k < count ==> r.value[k].None?)
  {
    StreamOfDocs(c, begin, vnomap, EmptyResult(count), 0, metas, rest);
  }

  /** A FIELD frame before the first DOC frame is skipped. */
  lemma StreamFieldFirst(c: ConnState, begin: Frame, vnomap: map<byte, Bytes>, docs: seq<Option<Document>>,
                         f: Frame, rest: Bytes)
    requires Reply(c, begin, f, rest) && f.cmd == CmdSearchResultField && f.buf1 == []
    ensures StreamFrom(c, begin, vnomap, docs, 0) == StreamFrom(c.(input := rest), begin, vnomap, docs, 0)
  {
    NextFrame(c, begin, f, rest);
  }

  /** A FIELD frame after a DOC frame sets that field, under its schema name, on the last document. */
  lemma StreamFieldAfterDoc(c: ConnState, begin: Frame, vnomap: map<byte, Bytes>,
                            docs: seq<Option<Document>>, n: nat, f: Frame, rest: Bytes)
    requires Reply(c, begin, f, rest) && Received(docs, n) && n > 0 && f.cmd == CmdSearchResultField
    ensures StreamFrom(c, begin, vnomap, docs, n)
         == StreamFrom(c.(input := rest), begin, vnomap, WithField(docs, n, FieldName(vnomap, Sent(f)), f.buf), n)
  {
    NextFrame(c, begin, f, rest);
  }

  /** A frame of no kind the stream knows ends it with an error naming that frame. */
  lemma StreamUnexpected(c: ConnState, begin: Frame, vnomap: map<byte, Bytes>, docs: seq<Option<Document>>,
                         n: nat, f: Frame, rest: Bytes)
    requires Reply(c, begin, f, rest) && Received(docs, n)
    requires f.cmd !in {CmdSearchResultFacets, CmdSearchResultDoc, CmdSearchResultField, CmdSearchResultMatched}
    requires !(f.cmd == CmdOk && GetArg(f) == OkResultEnd)
    ensures StreamFrom(c, begin, vnomap, docs, n) == (c.(input := rest), Err(UnexpectedSearchReply(Sent(f))))
  {
    NextFrame(c, begin, f, rest);
  }

  // ---------------------------------------------------------------------
  // The word stream of GetExpandedQuery (searcher.go:506-518).

  /** A FIELD frame carrying one expanded word. */
  function WordFrame(word: Bytes): Frame
  {
    EmptyFrame.(cmd := CmdSearchResultField, buf := word)
  }

  /** A server's reply stream: one FIELD frame per word, in order, then RESULT_END. */
  function WordStream(words: seq<Bytes>): Bytes
    decreases |words|
  {
    if words == [] then EncodeFrame(EndFrame(), false)
    else EncodeFrame(WordFrame(words[0]), false) + WordStream(words[1..])
  }

  /** The stream is being read, little-endian, and holds the FIELD frames of words and RESULT_END ahead of rest. */
  predicate WordsAhead(c: ConnState, begin: Frame, words: seq<Bytes>, rest: Bytes)
  {
    c.open && !c.bigEndian && GetArg(begin) == OkResultBegin
    && Framable(words) && c.input == WordStream(words) + rest
  }

  /** Past the first FIELD frame the rest of the words are still ahead. */
  lemma AheadOfWord(c: ConnState, begin: Frame, words: seq<Bytes>, rest: Bytes)
    requires WordsAhead(c, begin, words, rest) && words != []
    ensures Reply(c, begin, WordFrame(words[0]), WordStream(words[1..]) + rest)
    ensures WordsAhead(c.(input := WordStream(words[1..]) + rest), begin, words[1..], rest)
  {
  }

  /** One FIELD frame at the head of the input adds its payload and the loop goes on after it. */
  lemma ExpandWordStep(c: ConnState, begin: Frame, words: seq<Bytes>, acc: seq<Bytes>, rest: Bytes)
    requires WordsAhead(c, begin, words, rest) && words != []
    ensures ExpandFrom(c, begin, acc) == ExpandFrom(c.(input := WordStream(words[1..]) + rest), begin, acc + [words[0]])
  {
    AheadOfWord(c, begin, words, rest);
    NextFrame(c, begin, WordFrame(words[0]), WordStream(words[1..]) + rest);
  }

  /** RESULT_END at the head of the input ends the loop with the words collected so far. */
  lemma ExpandEndStep(c: ConnState, begin: Frame, acc: seq<Bytes>, rest: Bytes)
    requires WordsAhead(c, begin, [], rest)
    ensures ExpandFrom(c, begin, acc) == (c.(input := rest), acc)
  {
    ReadEncodedReply(c, EndFrame(), rest);
  }

  /**
   * GetExpandedQuery's loop over a stream of FIELD frames and RESULT_END
   * collects exactly the FIELD payloads, in arrival order, and consumes
   * the stream up to and including RESULT_END.
   */
  lemma {:induction false} ExpandOfWords(c: ConnState, begin: Frame, words: seq<Bytes>, acc: seq<Bytes>, rest: Bytes)
    requires WordsAhead(c, begin, words, rest)
    ensures ExpandFrom(c, begin, acc) == (c.(input := rest), acc + words)
    decreases |words|
  {
    if words == [] {
      ExpandEndStep(c, begin, acc, rest);
      assert acc + words == acc;
    } else {
      ExpandWordStep(c, begin, words, acc, rest);
      AheadOfWord(c, begin, words, rest);
      ExpandOfWords(c.(input := WordStream(words[1..]) + rest), begin, words[1..], acc + [words[0]], rest);
      assert acc + [words[0]] + words[1..] == acc + words;
    }
  }

  /**
   * GetExpandedQuery: once GET_EXPANDED is answered with RESULT_BEGIN and
   * the words' FIELD frames follow, it returns exactly those words.
   */
  lemma ExpandedWords(st: SearcherState, query: Bytes, limits: seq<byte>, words: seq<Bytes>, rest: Bytes)
    requires var (st1, resp) := Exchange(st, NewCommand2(CmdQueryGetExpanded, MaxLimit(limits), 0, [query]), OkResultBegin);
      resp.Ok? && WordsAhead(st1.conn, resp.value, words, rest)
    ensures ExpandedSpec(st, query, limits).1 == words
    ensures ExpandedSpec(st, query, limits).0.conn.input == rest
  {
    var (st1, resp) := Exchange(st, NewCommand2(CmdQueryGetExpanded, MaxLimit(limits), 0, [query]), OkResultBegin);
    ExpandOfWords(st1.conn, resp.value, words, [], rest);
    assert [] + words == words;
  }

  // ---------------------------------------------------------------------
  // Paging (searcher.go:222-257).

  /**
   * After RESULT_BEGIN: an undecodable count leaves the state as it was;
   * otherwise lastCount is the count, paging is back at 10 and 0, and a
   * decoded result has one slot per counted document.
   */
  lemma SearchResultsPaging(st: SearcherState, schemaNames: map<byte, Bytes>, loggerNames: map<byte, Bytes>,
                            q: Bytes, begin: Frame)
    ensures var (st1, r) := SearchResults(st, schemaNames, loggerNames, q, begin);
      match WordOf(begin.buf)
      case Err(e) => st1 == st && r == Err(e)
      case Ok(count) =>
        st1.lastCount == count && st1.limit == 10 && st1.offset == 0
        && (r.Ok? ==> |r.value| == count)
  {
    if WordOf(begin.buf).Ok? {
      var st0 := st.(lastCount := WordOf(begin.buf).value, limit := 10, offset := 0);
      var vnomap := if st0.curDB == LogDb then loggerNames else schemaNames;
      var (c1, sr) := StreamFrom(st0.conn, begin, vnomap, EmptyResult(st0.lastCount), 0);
      var st2 := st0.(conn := c1);
      if !sr.Err? && q == [] && st2.curDB != LogDb {
        var lq := LogQuerySpec(st2.(count := st2.lastCount)).0;
        assert lq.limit == 10 && lq.offset == 0 && lq.lastCount == st0.lastCount;
      }
    }
  }

  /** A search that returns documents has reset the paging and returns lastCount slots. */
  lemma SearchPaging(st: SearcherState, fm: map<Bytes, FieldMeta>, schemaNames: map<byte, Bytes>,
                     loggerNames: map<byte, Bytes>, queries: seq<Bytes>)
    ensures var (st1, r) := SearchSpec(st, fm, schemaNames, loggerNames, queries);
      r.Ok? ==> st1.limit == 10 && st1.offset == 0 && |r.value| == st1.lastCount
  {
    var (st1, q) := Prepared(st, fm, Join(queries, AndWord));
    var st2 := if st1.limit == 0 then st1.(limit := 10) else st1;
    var (st3, resp) := Exchange(st2, ResultFrame(st2.defaultOp, q, Page(st2.offset, st2.limit)), OkResultBegin);
    if resp.Ok? {
      SearchResultsPaging(st3, schemaNames, loggerNames, q, resp.value);
    }
  }

  // ---------------------------------------------------------------------
  // Caches (query.go:84-100, searcher.go:196-214, 446-471).

  /** A second Count("") after one that stored a count answers from the cache, without an exchange. */
  lemma CountTwice(st: SearcherState, fm: map<Bytes, FieldMeta>)
    ensures var (st1, n) := CountSpec(st, fm, []);
      st1.count != MaxUint32 ==> CountSpec(st1, fm, []) == (st1, n)
  {
    var (st1, n) := CountSpec(st, fm, []);
    assert (st1, n) == CountAfter(st, []);
  }

  /** Only the empty query's total is stored: a query that normalises to text leaves count alone. */
  lemma CountKeepsCache(st: SearcherState, fm: map<Bytes, FieldMeta>, query: Bytes)
    requires Normalized(fm, query) != []
    ensures CountSpec(st, fm, query).0.count == st.count
  {
    NormalizedEmpty(fm);
  }

  /** The empty query normalises to the empty query. */
  lemma NormalizedEmpty(fm: map<Bytes, FieldMeta>)
    ensures Normalized(fm, []) == []
  {
    assert Spaced(Trim([], QueryCutset)) == [];
    assert Parts([]) == [[]];
    var empty: seq<Bytes> := [[]];
    assert empty[..0] == [];
    assert Pieces(fm, empty) == [];
    assert Buffered([]) == [];
  }

  /** A second Terms("") after one that stored its words returns them again, without an exchange. */
  lemma TermsTwice(st: SearcherState, fm: map<Bytes, FieldMeta>)
    ensures var (st1, ts) := TermsSpec(st, fm, []);
      st1.terms.Some? ==> TermsSpec(st1, fm, []) == (st1, ts)
  {
    var (st1, ts) := TermsSpec(st, fm, []);
    assert (st1, ts) == TermsAfter(st, []);
  }

  /** regQueryPrefix twice for a name is regQueryPrefix once. */
  lemma PrefixOnce(st: SearcherState, fm: map<Bytes, FieldMeta>, name: Bytes)
    ensures PrefixSpec(PrefixSpec(st, fm, name), fm, name) == PrefixSpec(st, fm, name)
  {
  }

  /** Every field a part names is in the prefix cache afterwards. */
  lemma {:induction false} PrefixesCover(st: SearcherState, fm: map<Bytes, FieldMeta>, parts: seq<Bytes>)
    ensures forall k :: 0 <= k < |parts| && PartField(fm, parts[k]).Some? ==>
      PartField(fm, parts[k]).value in PrefixesFor(st, fm, parts).queryPrefix
    decreases |parts|
  {
    if parts != [] {
      var init := parts[..|parts| - 1];
      PrefixesCover(st, fm, init);
      forall k | 0 <= k < |parts| - 1
        ensures parts[k] == init[k]
      {
      }
    }
  }

  /** Parts whose fields are all cached send nothing. */
  lemma {:induction false} PrefixesCached(st: SearcherState, fm: map<Bytes, FieldMeta>, parts: seq<Bytes>)
    requires forall k :: 0 <= k < |parts| && PartField(fm, parts[k]).Some? ==> PartField(fm, parts[k]).value in st.queryPrefix
    ensures PrefixesFor(st, fm, parts) == st
    decreases |parts|
  {
    if parts != [] {
      var init := parts[..|parts| - 1];
      assert forall k :: 0 <= k < |init| ==> init[k] == parts[k];
      PrefixesCached(st, fm, init);
    }
  }

  /**
   * preQueryString of the same query a second time registers nothing:
   * at most one QUERY_PREFIX per field per session.
   */
  lemma PreQueryTwice(st: SearcherState, fm: map<Bytes, FieldMeta>, query: Bytes)
    ensures var (st1, q) := PreQuerySpec(st, fm, query);
      PreQuerySpec(st1, fm, query) == (st1, q)
  {
    var st1 := PrefixesFor(st, fm, Parts(query));
    PrefixesCover(st, fm, Parts(query));
    PrefixesCached(st1, fm, Parts(query));
  }

  // ---------------------------------------------------------------------
  // logQuery (searcher.go:621-668).

  /**
   * With the stored query's terms known, logQuery panics exactly when it
   * does not skip the query and the assembly loop as written panics; it
   * writes nothing when it skips, panics or finds the text too short, and
   * otherwise exactly one write: the buffer and the ADD_LOG frame of the
   * text assembled as written.
   */
  lemma LogQueryWrites(st: SearcherState)
    requires st.conn.open && !st.conn.broken && st.terms.Some?
    ensures var log := LogText(st.query, st.terms.value);
      var skipped := LogSkipped(st.query, st.lastCount, st.defaultOp == QueryOpOr);
      var (st1, p) := LogQuerySpec(st);
      (p.Some? <==> !skipped && log.Err?)
      && st1.conn.output
         == if skipped || log.Err? || LogTooShort(log.value) then st.conn.output
            else st.conn.output + [st.conn.buffer + EncodeFrame(AddLogFrame(log.value), st.conn.bigEndian)]
  {
    var log := LogText(st.query, st.terms.value);
    if log.Ok? {
      DeferredCommands();
      ExecFlushes(st.conn, AddLogFrame(log.value), OkLogged, CmdOk);
    }
  }

  // ---------------------------------------------------------------------
  // Database selection and restoreDb (searcher.go:407-432, 523-581, 692-698).

  /** AddDB of databases already recorded leaves the record as it was. */
  lemma {:induction false} AddAllWithin(st: SearcherState, dbs: seq<Bytes>)
    requires forall k :: 0 <= k < |dbs| ==> dbs[k] in st.curDBs
    ensures AddAll(st, dbs).curDBs == st.curDBs
    decreases |dbs|
  {
    if dbs != [] {
      var st1 := AddDbSpec(st, dbs[0]).0;
      assert st1.curDBs == st.curDBs;
      AddAllWithin(st1, dbs[1..]);
    }
  }

  /**
   * restoreDb over the recorded databases keeps the record; when its
   * SetDB succeeds the last database is current again and the two swap.
   */
  lemma RestoreKeepsDbs(st: SearcherState, order: seq<Bytes>)
    requires Lists(order, st.curDBs)
    ensures var r := RestoreSpec(st, order);
      r.curDBs == st.curDBs
      && r == st.(conn := r.conn, curDB := r.curDB, lastDB := r.lastDB)
      && (SetDbSpec(st, st.lastDB).1.None? ==> r.curDB == st.lastDB && r.lastDB == st.curDB)
  {
    AddAllWithin(SetDbSpec(st, st.lastDB).0, order);
  }

  /** After its search GetHotQuery keeps the recorded databases, on every outcome. */
  lemma HotAfterKeepsDbs(st: SearcherState, docs: Result<seq<Option<Document>>>, ht: Bytes, order: seq<Bytes>)
    requires Lists(order, st.curDBs)
    ensures HotAfter(st, docs, ht, order).0.curDBs == st.curDBs
  {
    RestoreKeepsDbs(st, order);
  }

  /** GetHotQuery leaves the recorded databases as it found them, whatever happens. */
  lemma HotQueryKeepsDbs(st: SearcherState, fm: map<Bytes, FieldMeta>, schemaNames: map<byte, Bytes>,
                         loggerNames: map<byte, Bytes>, hotType: Bytes, limits: seq<byte>, order: seq<Bytes>)
    requires Lists(order, st.curDBs)
    ensures HotQuerySpec(st, fm, schemaNames, loggerNames, hotType, limits, order).0.curDBs == st.curDBs
  {
    var ht := HotType(hotType);
    var (st1, e) := SetDbSpec(st, LogDb);
    if e.None? {
      var st2 := LimitSpec(st1, [MaxLimit(limits) as uint32]);
      var (st3, docs) := SearchSpec(st2, fm, schemaNames, loggerNames, [HotQuery(ht)]);
      HotAfterKeepsDbs(st3, docs, ht, order);
    }
  }

  /** After its search GetRelatedQuery keeps the databases and, when it returns a list, restores op. */
  lemma RelatedAfterRestores(st: SearcherState, docs: Result<seq<Option<Document>>>, q: Bytes, limit: byte,
                             op: byte, order: seq<Bytes>)
    requires Lists(order, st.curDBs)
    ensures var (st1, r) := RelatedAfter(st, docs, q, limit, op, order);
      st1.curDBs == st.curDBs && (r.Ok? ==> st1.defaultOp == op)
  {
    RestoreKeepsDbs(st.(defaultOp := op), order);
  }

  /** The search of GetRelatedQuery, once log_db is selected, keeps the databases and restores op. */
  lemma RelatedSearchRestores(st: SearcherState, fm: map<Bytes, FieldMeta>, schemaNames: map<byte, Bytes>,
                              loggerNames: map<byte, Bytes>, q: Bytes, limit: byte, op: byte, order: seq<Bytes>)
    requires Lists(order, st.curDBs)
    ensures var (st1, r) := RelatedSearch(st, fm, schemaNames, loggerNames, q, limit, op, order);
      st1.curDBs == st.curDBs && (r.Ok? ==> st1.defaultOp == op)
  {
    var st2 := LimitSpec(st, [limit as uint32 + 1]).(defaultOp := QueryOpOr);
    var (st3, docs) := SearchSpec(st2, fm, schemaNames, loggerNames, [q]);
    RelatedAfterRestores(st3, docs, q, limit, op, order);
  }

  /**
   * GetRelatedQuery keeps the recorded databases, and whenever it returns
   * a list it has put back the default operator the caller had.
   */
  lemma RelatedRestores(st: SearcherState, fm: map<Bytes, FieldMeta>, schemaNames: map<byte, Bytes>,
                        loggerNames: map<byte, Bytes>, query: Bytes, limits: seq<byte>, order: seq<Bytes>)
    requires Lists(order, st.curDBs)
    ensures var (st1, r) := RelatedSpec(st, fm, schemaNames, loggerNames, query, limits, order);
      st1.curDBs == st.curDBs && (r.Ok? ==> st1.defaultOp == st.defaultOp)
  {
    var q := if query == [] then CleanFieldQuery(fm, st.query) else query;
    RelatedForRestores(st, fm, schemaNames, loggerNames, q, MaxLimit(limits), order);
  }

  lemma RelatedForRestores(st: SearcherState, fm: map<Bytes, FieldMeta>, schemaNames: map<byte, Bytes>,
                           loggerNames: map<byte, Bytes>, q: Bytes, limit: byte, order: seq<Bytes>)
    requires Lists(order, st.curDBs)
    ensures var (st1, r) := RelatedFor(st, fm, schemaNames, loggerNames, q, limit, order);
      st1.curDBs == st.curDBs && (r.Ok? ==> st1.defaultOp == st.defaultOp)
  {
    var (st1, e) := SetDbSpec(st, LogDb);
    if !(q == [] || Contains(q, [Colon])) && e.None? {
      RelatedSearchRestores(st1, fm, schemaNames, loggerNames, q, limit, st.defaultOp, order);
    }
  }

  // ---------------------------------------------------------------------
  // The two frames the source gets wrong (searcher.go:112-124, 153-176).

  /**
   * GetAllSynonyms as written sends the frame of an unlimited request
   * whatever limit and offset say; the intended frame carries them.
   */
  lemma AllSynonymsPagingLost(limit: uint32, offset: uint32, stemmed: bool)
    ensures AllSynonymsFrameAsWritten(limit, offset, stemmed) == AllSynonymsFrame(0, offset, stemmed)
    ensures limit > 0 ==> AllSynonymsFrame(limit, offset, stemmed) != AllSynonymsFrameAsWritten(limit, offset, stemmed)
  {
  }

  /** SetWeightingScheme as written sends nothing for schemes 0 and 1; the two agree on every other value. */
  lemma WeightingSchemesDropped(policy: byte)
    ensures WeightingFrameAsWritten(0).None? && WeightingFrameAsWritten(1).None?
    ensures WeightingFrame(0).Some? && WeightingFrame(1).Some?
    ensures policy > 1 ==> WeightingFrameAsWritten(policy) == WeightingFrame(policy)
  {
  }
}
