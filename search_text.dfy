// searcher.go: the string work of the searcher that needs no connection —
// the highlight terms Terms keeps, the text logQuery assembles for the
// search log, the synonym table GetAllSynonyms parses, the matched-term
// list of a result document, and the filtering GetHotQuery and
// GetRelatedQuery do over the documents of a search.
module SearchText {
  import opened Types
  import opened GoStrings
  import opened Documents
  import opened Command
  import Logger

  // ---------------------------------------------------------------------
  // Terms (searcher.go:461-468).

  /** A word Terms keeps: nonempty, and without a ':' after its first byte. */
  predicate KeptTerm(t: Bytes)
  {
    t != [] && IndexOf(t, [Colon]) <= 0
  }

  /** The words Terms keeps, in their order. */
  function KeepTerms(words: seq<Bytes>): (r: seq<Bytes>)
    ensures |r| <= |words|
    ensures forall k :: 0 <= k < |r| ==> KeptTerm(r[k]) && r[k] in words
    ensures forall t :: t in words && KeptTerm(t) ==> t in r
    decreases |words|
  {
    if words == [] then []
    else
      var init, last := words[..|words| - 1], words[|words| - 1];
      assert words == init + [last];
      KeepTerms(init) + (if KeptTerm(last) then [last] else [])
  }

  /** A nonempty sequence is its front followed by its last element. */
  lemma InitLast<T>(s: seq<T>)
    requires s != []
    ensures s[..|s| - 1] + [s[|s| - 1]] == s
  {
  }

  /** The terms of a GET_TERMS reply: its space-separated words that Terms keeps. */
  function TermsOf(buf: Bytes): seq<Bytes>
  {
    KeepTerms(Split(buf, Space))
  }

  /** The filtering loop of Terms. */
  method FilterTerms(buf: Bytes) returns (rterms: seq<Bytes>)
    ensures rterms == TermsOf(buf)
  {
    var terms := Split(buf, Space);
    rterms := [];
    var i := 0;
    while i < |terms|
      invariant 0 <= i <= |terms|
      invariant rterms == KeepTerms(terms[..i])
    {
      KeepTermsStep(terms, i);
      if terms[i] == [] || IndexOf(terms[i], [Colon]) > 0 {
        i := i + 1;
        continue;
      }
      rterms := rterms + [terms[i]];
      i := i + 1;
    }
    assert terms[..i] == terms;
  }

  /** One more word: the filter keeps it or not, after what it kept before. */
  lemma KeepTermsStep(words: seq<Bytes>, i: nat)
    requires i < |words|
    ensures KeepTerms(words[..i + 1]) == KeepTerms(words[..i]) + (if KeptTerm(words[i]) then [words[i]] else [])
  {
    assert words[..i + 1][..i] == words[..i];
  }

  /** Words that are all kept come through the filter unchanged. */
  lemma {:induction false} KeepAllKept(words: seq<Bytes>)
    requires forall k :: 0 <= k < |words| ==> KeptTerm(words[k])
    ensures KeepTerms(words) == words
    decreases |words|
  {
    if words != [] {
      var init := words[..|words| - 1];
      assert forall k :: 0 <= k < |init| ==> KeptTerm(init[k]) by {
        forall k | 0 <= k < |init| ensures KeptTerm(init[k]) { assert init[k] == words[k]; }
      }
      KeepAllKept(init);
      assert KeptTerm(words[|words| - 1]);
      InitLast(words);
    }
  }

  /** Kept, space-free terms sent back joined by spaces are read back as they were. */
  lemma TermsRoundTrip(terms: seq<Bytes>)
    requires forall k :: 0 <= k < |terms| ==> KeptTerm(terms[k]) && Space !in terms[k]
    ensures TermsOf(Join(terms, [Space])) == terms
  {
    if terms == [] {
      assert Split([], Space) == [[]];
    } else {
      SplitJoin(terms, Space);
      KeepAllKept(terms);
    }
  }

  // ---------------------------------------------------------------------
  // logQuery (searcher.go:621-662).

  const OrWord: Bytes := [Space, 0x4F, 0x52, Space]              // " OR "
  const NotWord: Bytes := [Space, 0x4E, 0x4F, 0x54, Space]       // " NOT "
  const XorWord: Bytes := [Space, 0x58, 0x4F, 0x52, Space]       // " XOR "

  /** logQuery returns before asking for terms. */
  predicate LogSkipped(query: Bytes, lastCount: uint32, fuzzy: bool)
  {
    query == [] || lastCount == 0 || (fuzzy && Contains(query, [Space]))
    || Contains(query, OrWord) || Contains(query, NotWord) || Contains(query, XorWord)
  }

  /** The log text is too short to record: under 2 bytes, or 3 bytes starting above 0x80. */
  predicate LogTooShort(log: Bytes)
  {
    |log| < 2 || (|log| == 3 && log[0] > 0x80)
  }

  /** Where the search for a term starts: three bytes back for a six-byte term past offset 3. */
  function SearchStart(pos: nat, t: Bytes): (p: nat)
    ensures p <= pos && (p < pos ==> |t| == 6 && p + 3 == pos)
  {
    if pos > 3 && |t| == 6 then pos - 3 else pos
  }

  /**
   * The assembly loop with the offset of each term taken in the whole query
   * (pos2 = pos1 + the offset found in query[pos1:]): a term found at pos is
   * appended, one found before pos overlaps the previous term by 3 bytes and
   * only its tail is appended, and one found later opens a gap — at most 3,
   * and none once the text is longer than 42 bytes.
   */
  function AssembleFrom(query: Bytes, terms: seq<Bytes>, i: nat, pos: nat, gaps: nat, buf: Bytes): Bytes
    requires i <= |terms| && pos <= |query|
    decreases |terms| - i
  {
    if i == |terms| then buf
    else
      var t := terms[i];
      var pos1 := SearchStart(pos, t);
      var rel := IndexOf(query[pos1..], t);
      if rel < 0 then AssembleFrom(query, terms, i + 1, pos, gaps, buf)
      else
        var pos2 := pos1 + rel;
        if pos2 == pos then AssembleFrom(query, terms, i + 1, pos2 + |t|, gaps, buf + t)
        else if pos2 < pos then AssembleFrom(query, terms, i + 1, pos2 + |t|, gaps, buf + t[3..])
        else if gaps + 1 > 3 || |buf| > 42 then buf
        else AssembleFrom(query, terms, i + 1, pos2 + |t|, gaps + 1, buf + [Space] + t)
  }

  /** The text logQuery records for a query and its terms, before trimming. */
  function Assemble(query: Bytes, terms: seq<Bytes>): Bytes
  {
    AssembleFrom(query, terms, 0, 0, 0, [])
  }

  /**
   * The assembly loop as written: the offset found in query[pos1:] is
   * compared with the absolute pos, and terms[i][3:] panics on a term
   * shorter than 3 bytes.
   */
  function AsWrittenFrom(query: Bytes, terms: seq<Bytes>, i: nat, pos: nat, gaps: nat, buf: Bytes): (r: Result<Bytes>)
    requires i <= |terms| && pos <= |query|
    ensures r.Err? ==> r.error == Panic(IndexOutOfRange) && exists k :: i <= k < |terms| && |terms[k]| < 3
    decreases |terms| - i
  {
    if i == |terms| then Ok(buf)
    else
      var t := terms[i];
      var pos1 := SearchStart(pos, t);
      var pos2 := IndexOf(query[pos1..], t);
      if pos2 < 0 then AsWrittenFrom(query, terms, i + 1, pos, gaps, buf)
      else if pos2 == pos then AsWrittenFrom(query, terms, i + 1, pos2 + |t|, gaps, buf + t)
      else if pos2 < pos then
        if |t| < 3 then Err(Panic(IndexOutOfRange))
        else AsWrittenFrom(query, terms, i + 1, pos2 + |t|, gaps, buf + t[3..])
      else if gaps + 1 > 3 || |buf| > 42 then Ok(buf)
      else AsWrittenFrom(query, terms, i + 1, pos2 + |t|, gaps + 1, buf + [Space] + t)
  }

  /** The text the assembly loop of logQuery builds, as written. */
  function AssembleAsWritten(query: Bytes, terms: seq<Bytes>): (r: Result<Bytes>)
    ensures r.Err? ==> r.error == Panic(IndexOutOfRange) && exists k :: 0 <= k < |terms| && |terms[k]| < 3
  {
    AsWrittenFrom(query, terms, 0, 0, 0, [])
  }

  /**
   * The assembly loop of logQuery as written: the offset found in
   * query[pos1:] is compared with the absolute pos, and slicing a short
   * term's tail panics.
   */
  method AssembleLog(query: Bytes, terms: seq<Bytes>) returns (r: Result<Bytes>)
    ensures r == AssembleAsWritten(query, terms)
  {
    var buf: Bytes := [];
    var pos: nat, max: nat := 0, 0;
    var i := 0;
    while i < |terms|
      invariant 0 <= i <= |terms| && pos <= |query|
      invariant AsWrittenFrom(query, terms, i, pos, max, buf) == AssembleAsWritten(query, terms)
    {
      var t := terms[i];
      var pos1 := pos;
      if pos > 3 && |t| == 6 {
        pos1 := pos - 3;
      }
      var pos2 := IndexOf(query[pos1..], t);
      if pos2 < 0 {
        i := i + 1;
        continue;
      }
      if pos2 == pos {
        buf := buf + t;
      } else if pos2 < pos {
        if |t| < 3 {
          return Err(Panic(IndexOutOfRange));
        }
        buf := buf + t[3..];
      } else {
        max := max + 1;
        if max > 3 || |buf| > 42 {
          return Ok(buf);
        }
        buf := buf + [Space] + t;
      }
      pos := pos2 + |t|;
      i := i + 1;
    }
    return Ok(buf);
  }

  /** A term at the front of s is found at offset 0. */
  lemma IndexAtStart(s: Bytes, t: Bytes)
    requires HasPrefix(s, t)
    ensures IndexOf(s, t) == 0
  {
    assert OccursAt(s, t, 0);
  }

  /** The concatenation of the terms, in order. */
  function Concat(ts: seq<Bytes>): Bytes
    decreases |ts|
  {
    if ts == [] then [] else ts[0] + Concat(ts[1..])
  }

  /**
   * When the query is its terms written one after another and no term has
   * six bytes, every term is found where the previous one ended: the text
   * is the rest of the query, with no gap.
   */
  lemma {:induction false} AssembleContiguousFrom(query: Bytes, terms: seq<Bytes>, i: nat, pos: nat, gaps: nat, buf: Bytes)
    requires i <= |terms| && pos <= |query|
    requires query[pos..] == Concat(terms[i..])
    requires forall k :: i <= k < |terms| ==> |terms[k]| != 6
    ensures AssembleFrom(query, terms, i, pos, gaps, buf) == buf + query[pos..]
    decreases |terms| - i
  {
    if i == |terms| {
      assert terms[i..] == [];
    } else {
      var t := terms[i];
      assert terms[i..][0] == t && terms[i..][1..] == terms[i + 1..];
      var rest := Concat(terms[i + 1..]);
      assert query[pos..] == t + rest;
      assert query[pos..][..|t|] == t;
      IndexAtStart(query[pos..], t);
      assert query[pos + |t|..] == rest;
      AssembleContiguousFrom(query, terms, i + 1, pos + |t|, gaps, buf + t);
      assert buf + t + rest == buf + query[pos..];
    }
  }

  /** logQuery writes a query made of its terms back whole. */
  lemma AssembleContiguous(terms: seq<Bytes>)
    requires forall k :: 0 <= k < |terms| ==> |terms[k]| != 6
    ensures Assemble(Concat(terms), terms) == Concat(terms)
  {
    AssembleContiguousFrom(Concat(terms), terms, 0, 0, 0, []);
  }

  /**
   * CJK terms: two three-byte characters overlapping by one. Terms "AB" and
   * "BC" of the query "ABC" give "ABC": the second is found 3 bytes before
   * the end of the first and only its last character is added.
   */
  lemma AssembleOverlap(a: Bytes, b: Bytes, c: Bytes)
    requires |a| == 3 && |b| == 3 && |c| == 3
    ensures Assemble(a + b + c, [a + b, b + c]) == a + b + c
  {
    var q, t0, t1 := a + b + c, a + b, b + c;
    var terms := [t0, t1];
    assert q[0..] == q && q[..6] == t0;
    IndexAtStart(q, t0);
    assert [] + t0 == t0;
    assert AssembleFrom(q, terms, 0, 0, 0, []) == AssembleFrom(q, terms, 1, 6, 0, t0);
    assert SearchStart(6, t1) == 3;
    assert q[3..] == t1 && t1[..6] == t1;
    IndexAtStart(q[3..], t1);
    assert t1[3..] == c;
    assert AssembleFrom(q, terms, 1, 6, 0, t0) == AssembleFrom(q, terms, 2, 9, 0, t0 + c);
    assert t0 + c == q;
  }

  const Abc: Bytes := [0x61, 0x62, 0x63]   // "abc"
  const Def: Bytes := [0x64, 0x65, 0x66]   // "def"
  const De: Bytes := [0x64, 0x65]          // "de"

  /**
   * As written, "abcdef" with terms "abc", "def": "def" is found at offset 0
   * of query[3:], which is taken to lie before pos 3, and only "def"[3:] —
   * nothing — is added. With absolute offsets the text is "abcdef".
   */
  lemma AsWrittenDropsTerm()
    ensures AssembleAsWritten(Abc + Def, [Abc, Def]) == Ok(Abc)
    ensures Assemble(Abc + Def, [Abc, Def]) == Abc + Def
  {
    var q := Abc + Def;
    var ts := [Abc, Def];
    assert q[0..] == q && q[..3] == Abc && q[3..] == Def && Def[..3] == Def;
    IndexAtStart(q, Abc);
    IndexAtStart(Def, Def);
    assert [] + Abc == Abc && Def[3..] == [] && Abc + [] == Abc;
    assert AsWrittenFrom(q, ts, 0, 0, 0, []) == AsWrittenFrom(q, ts, 1, 3, 0, Abc);
    assert AsWrittenFrom(q, ts, 1, 3, 0, Abc) == AsWrittenFrom(q, ts, 2, 3, 0, Abc);
    AssembleContiguous([Abc, Def]);
    assert Concat([Abc, Def]) == q by {
      assert [Abc, Def][1..] == [Def];
      assert Concat([Def]) == Def + Concat([]);
    }
  }

  /**
   * As written, "abcde" with terms "abc", "de" panics: "de" is found at
   * offset 0 of query[3:] and "de"[3:] is out of range. With absolute
   * offsets the text is "abcde".
   */
  lemma AsWrittenPanics()
    ensures AssembleAsWritten(Abc + De, [Abc, De]) == Err(Panic(IndexOutOfRange))
    ensures Assemble(Abc + De, [Abc, De]) == Abc + De
  {
    var q := Abc + De;
    var ts := [Abc, De];
    assert q[0..] == q && q[..3] == Abc && q[3..] == De && De[..2] == De;
    IndexAtStart(q, Abc);
    IndexAtStart(De, De);
    assert [] + Abc == Abc;
    assert AsWrittenFrom(q, ts, 0, 0, 0, []) == AsWrittenFrom(q, ts, 1, 3, 0, Abc);
    AssembleContiguous([Abc, De]);
    assert Concat([Abc, De]) == q by {
      assert [Abc, De][1..] == [De];
      assert Concat([De]) == De + Concat([]);
    }
  }

  /**
   * As written, a term shorter than 3 bytes that the loop finds before pos
   * panics: terms[i][3:] is out of range, whatever was assembled so far.
   */
  lemma AsWrittenShortTermPanics(query: Bytes, terms: seq<Bytes>, i: nat, pos: nat, gaps: nat, buf: Bytes)
    requires i < |terms| && pos <= |query| && |terms[i]| < 3
    requires var pos2 := IndexOf(query[SearchStart(pos, terms[i])..], terms[i]); 0 <= pos2 < pos
    ensures AsWrittenFrom(query, terms, i, pos, gaps, buf) == Err(Panic(IndexOutOfRange))
  {
  }

  // ---------------------------------------------------------------------
  // GetAllSynonyms (searcher.go:167-173).

  /** One line of a synonym reply: the word before the first tab, and its synonyms after. */
  function SynonymEntry(line: Bytes): (r: (Bytes, seq<Bytes>))
    ensures [r.0] + r.1 == Split(line, Tab)
  {
    var sys := Split(line, Tab);
    (sys[0], sys[1..])
  }

  /** The map the lines build, a later line for the same word replacing an earlier one. */
  function SynonymLines(lines: seq<Bytes>): (m: map<Bytes, seq<Bytes>>)
    ensures forall w :: w in m <==> exists k :: 0 <= k < |lines| && SynonymEntry(lines[k]).0 == w
    decreases |lines|
  {
    if lines == [] then map[]
    else
      var e := SynonymEntry(lines[|lines| - 1]);
      var m0 := SynonymLines(lines[..|lines| - 1]);
      assert forall w :: w in m0 <==> exists k :: 0 <= k < |lines| - 1 && SynonymEntry(lines[k]).0 == w;
      m0[e.0 := e.1]
  }

  /** The synonym table of a reply payload: empty for an empty payload, else one entry per line. */
  function SynonymMap(buf: Bytes): map<Bytes, seq<Bytes>>
  {
    if buf == [] then map[] else SynonymLines(Split(buf, Newline))
  }

  /** The parsing loop of GetAllSynonyms. */
  method ParseSynonyms(buf: Bytes) returns (synonyms: map<Bytes, seq<Bytes>>)
    ensures synonyms == SynonymMap(buf)
  {
    synonyms := map[];
    if buf == [] {
      return;
    }
    var bufs := Split(buf, Newline);
    var i := 0;
    while i < |bufs|
      invariant 0 <= i <= |bufs|
      invariant synonyms == SynonymLines(bufs[..i])
    {
      assert bufs[..i + 1][..i] == bufs[..i];
      var sys := Split(bufs[i], Tab);
      synonyms := synonyms[sys[0] := sys[1..]];
      i := i + 1;
    }
    assert bufs[..i] == bufs;
  }

  /** A word and its synonyms as the server writes them: separated by tabs. */
  function EntryLine(e: (Bytes, seq<Bytes>)): Bytes
  {
    Join([e.0] + e.1, [Tab])
  }

  function EntryLines(entries: seq<(Bytes, seq<Bytes>)>): (lines: seq<Bytes>)
    ensures |lines| == |entries| && forall k :: 0 <= k < |entries| ==> lines[k] == EntryLine(entries[k])
  {
    seq(|entries|, k requires 0 <= k < |entries| => EntryLine(entries[k]))
  }

  /** The table the entries make, a later entry for the same word replacing an earlier one. */
  function EntriesMap(entries: seq<(Bytes, seq<Bytes>)>): map<Bytes, seq<Bytes>>
    decreases |entries|
  {
    if entries == [] then map[]
    else
      var e := entries[|entries| - 1];
      EntriesMap(entries[..|entries| - 1])[e.0 := e.1]
  }

  /** An entry the reply can carry: a nonempty word, no tab or newline in any of its strings. */
  predicate PlainEntry(e: (Bytes, seq<Bytes>))
  {
    e.0 != [] && Tab !in e.0 && Newline !in e.0
    && forall j :: 0 <= j < |e.1| ==> Tab !in e.1[j] && Newline !in e.1[j]
  }

  /** A byte in neither the pieces nor the separator is not in their join. */
  lemma {:induction false} JoinFree(parts: seq<Bytes>, sep: Bytes, c: byte)
    requires c !in sep && forall k :: 0 <= k < |parts| ==> c !in parts[k]
    ensures c !in Join(parts, sep)
    decreases |parts|
  {
    if |parts| > 1 {
      JoinFree(parts[1..], sep, c);
    }
  }

  /** A line reads back as the entry written into it. */
  lemma EntryRoundTrip(e: (Bytes, seq<Bytes>))
    requires PlainEntry(e)
    ensures SynonymEntry(EntryLine(e)) == e
    ensures EntryLine(e) != [] && Newline !in EntryLine(e)
  {
    var parts := [e.0] + e.1;
    assert forall k :: 0 <= k < |parts| ==> Tab !in parts[k] && Newline !in parts[k] by {
      forall k | 0 <= k < |parts| ensures Tab !in parts[k] && Newline !in parts[k] {
        if k > 0 { assert parts[k] == e.1[k - 1]; }
      }
    }
    SplitJoin(parts, Tab);
    JoinFree(parts, [Tab], Newline);
    JoinHead(parts, [Tab]);
    assert parts[1..] == e.1;
  }

  lemma {:induction false} LinesRoundTrip(entries: seq<(Bytes, seq<Bytes>)>)
    requires forall k :: 0 <= k < |entries| ==> PlainEntry(entries[k])
    ensures SynonymLines(EntryLines(entries)) == EntriesMap(entries)
    decreases |entries|
  {
    if entries != [] {
      var n := |entries| - 1;
      LinesRoundTrip(entries[..n]);
      EntryRoundTrip(entries[n]);
      assert EntryLines(entries)[..n] == EntryLines(entries[..n]);
    }
  }

  /**
   * A synonym table written one entry per line is parsed back to the same
   * table: each word maps to the synonyms of its last entry.
   */
  lemma SynonymsRoundTrip(entries: seq<(Bytes, seq<Bytes>)>)
    requires forall k :: 0 <= k < |entries| ==> PlainEntry(entries[k])
    ensures SynonymMap(Join(EntryLines(entries), [Newline])) == EntriesMap(entries)
  {
    var lines := EntryLines(entries);
    if entries != [] {
      forall k | 0 <= k < |lines| ensures Newline !in lines[k] && lines[k] != [] {
        EntryRoundTrip(entries[k]);
      }
      SplitJoin(lines, Newline);
      JoinHead(lines, [Newline]);
      LinesRoundTrip(entries);
    }
  }

  // ---------------------------------------------------------------------
  // Result documents (searcher.go:308-319, 535, 568).

  /**
   * strings.Split(" ", buf), the arguments in this order: the string " "
   * cut at buf — two empty strings when buf is a space, otherwise " " whole.
   */
  function MatchedOf(buf: Bytes): (r: seq<Bytes>)
    ensures |buf| == 1 ==> r == Split([Space], buf[0])
    ensures buf != [Space] ==> r == [[Space]]
  {
    SplitSpace(buf);
    if buf == [Space] then [[], []] else [[Space]]
  }

  lemma SplitSpace(buf: Bytes)
    ensures |buf| == 1 ==> Split([Space], buf[0]) == (if buf[0] == Space then [[], []] else [[Space]])
  {
    if |buf| == 1 {
      var c, s: Bytes := buf[0], [Space];
      assert s[0] == Space && s[1..] == [];
      assert Split([], c) == [[]];
      if c != Space {
        assert Split(s, c) == [[s[0]] + Split([], c)[0]] + Split([], c)[1..];
        assert [s[0]] + [] == s;
      }
    }
  }

  /** The name FIELD frames give a value: the schema's name for vno uint8(arg), else the decimal argument. */
  function FieldName(vnomap: map<byte, Bytes>, f: Frame): (name: Bytes)
    ensures f.arg2 in vnomap ==> name == vnomap[f.arg2]
    ensures f.arg2 !in vnomap ==> Atoi(name) == Some(GetArg(f))
  {
    var a := GetArg(f);
    LowByteOfArg(f);
    ArgDecimal(a);
    if a % 0x100 in vnomap then vnomap[a % 0x100] else Itoa(a)
  }

  /** uint8(GetArg()) is Arg2. */
  lemma LowByteOfArg(f: Frame)
    ensures GetArg(f) % 0x100 == f.arg2
  {
  }

  lemma ArgDecimal(a: uint16)
    ensures Atoi(Itoa(a)) == Some(a)
  {
    AtoiItoa(a);
  }

  /** doc.Fields["body"]: the empty string when the document has no body. */
  function BodyOf(d: Document): (b: Bytes)
    ensures Logger.BodyName in d.fields ==> b == d.fields[Logger.BodyName]
    ensures Logger.BodyName !in d.fields ==> b == []
  {
    if Logger.BodyName in d.fields then d.fields[Logger.BodyName] else []
  }

  /** The hot-list column GetHotQuery reads: "lastnum" or "currnum" when asked, else "total". */
  function HotType(hotType: Bytes): (t: Bytes)
    ensures t == Logger.LastnumName || t == Logger.CurrnumName || t == Logger.TotalName
    ensures hotType == Logger.LastnumName || hotType == Logger.CurrnumName ==> t == hotType
  {
    if hotType == Logger.LastnumName || hotType == Logger.CurrnumName then hotType else Logger.TotalName
  }

  /** uint32(strconv.Atoi(v)), and 0 when v is not a number: the low 32 bits of its two's complement. */
  function HotNumber(v: Bytes): (n: uint32)
    ensures Atoi(v).None? ==> n == 0
    ensures Atoi(v).Some? ==> (n - Atoi(v).value) % 0x1_0000_0000 == 0
  {
    match Atoi(v)
    case None => 0
    case Some(x) => x % 0x1_0000_0000
  }

  /** A count written in decimal is read back, truncated to 32 bits. */
  lemma HotNumberItoa(n: nat)
    requires n < 0x8000_0000_0000_0000
    ensures HotNumber(Itoa(n)) == n % 0x1_0000_0000
  {
    AtoiItoa(n);
  }

  /**
   * The hot table of the search results: for each document with the column,
   * its body maps to the column's number; a missing document (nil) panics.
   */
  function HotOf(docs: seq<Option<Document>>, hot: Bytes): (r: Result<map<Bytes, uint32>>)
    ensures r.Err? <==> exists k :: 0 <= k < |docs| && docs[k].None?
    ensures r.Err? ==> r.error == Panic(NilDereference)
    ensures r.Ok? ==> forall b :: b in r.value <==>
      exists k :: 0 <= k < |docs| && hot in docs[k].value.fields && BodyOf(docs[k].value) == b
    decreases |docs|
  {
    if docs == [] then Ok(map[])
    else
      var n := |docs| - 1;
      var init := docs[..n];
      assert forall k :: 0 <= k < n ==> init[k] == docs[k];
      match HotOf(init, hot)
      case Err(e) => Err(e)
      case Ok(m) =>
        match docs[n]
        case None => Err(Panic(NilDereference))
        case Some(d) =>
          if hot in d.fields then Ok(m[BodyOf(d) := HotNumber(d.fields[hot])]) else Ok(m)
  }

  /** The loop of GetHotQuery over the documents. */
  method HotEntries(docs: seq<Option<Document>>, hot: Bytes) returns (r: Result<map<Bytes, uint32>>)
    ensures r == HotOf(docs, hot)
  {
    var result: map<Bytes, uint32> := map[];
    var i := 0;
    while i < |docs|
      invariant 0 <= i <= |docs|
      invariant HotOf(docs[..i], hot) == Ok(result)
    {
      assert docs[..i + 1][..i] == docs[..i];
      if docs[i].None? {
        assert docs[..i + 1][i].None?;
        NilPanics(docs, hot, i + 1);
        return Err(Panic(NilDereference));
      }
      var doc := docs[i].value;
      var body := BodyOf(doc);
      if hot in doc.fields {
        result := result[body := HotNumber(doc.fields[hot])];
      }
      i := i + 1;
    }
    assert docs[..i] == docs;
    return Ok(result);
  }

  /** A nil among the first j documents makes the whole table a panic. */
  lemma NilPanics(docs: seq<Option<Document>>, hot: Bytes, j: nat)
    requires j <= |docs| && HotOf(docs[..j], hot).Err?
    ensures HotOf(docs, hot) == Err(Panic(NilDereference))
  {
    var k :| 0 <= k < j && docs[..j][k].None?;
    assert docs[k].None?;
  }

  /**
   * GetRelatedQuery's loop: the bodies of the documents, skipping the query
   * itself, until limit of them are collected (a limit of 0 never stops it);
   * a missing document (nil) panics.
   */
  function RelatedFrom(docs: seq<Option<Document>>, query: Bytes, limit: nat, i: nat, acc: seq<Bytes>): (r: Result<seq<Bytes>>)
    requires i <= |docs|
    ensures r.Ok? ==> |acc| <= |r.value| && r.value[..|acc|] == acc
    ensures r.Ok? && query !in acc ==> query !in r.value
    ensures r.Ok? && 0 < limit && |acc| < limit ==> |r.value| <= limit
    ensures r.Ok? ==> forall j :: |acc| <= j < |r.value| ==>
      exists k :: i <= k < |docs| && docs[k].Some? && BodyOf(docs[k].value) == r.value[j]
    ensures r.Err? ==> r.error == Panic(NilDereference)
    decreases |docs| - i
  {
    if i == |docs| then Ok(acc)
    else
      match docs[i]
      case None => Err(Panic(NilDereference))
      case Some(d) =>
        var body := BodyOf(d);
        if query == body then RelatedFrom(docs, query, limit, i + 1, acc)
        else if |acc + [body]| == limit then Ok(acc + [body])
        else RelatedFrom(docs, query, limit, i + 1, acc + [body])
  }

  function Related(docs: seq<Option<Document>>, query: Bytes, limit: nat): Result<seq<Bytes>>
  {
    RelatedFrom(docs, query, limit, 0, [])
  }

  /** The loop of GetRelatedQuery over the documents. */
  method RelatedBodies(docs: seq<Option<Document>>, query: Bytes, limit: nat) returns (r: Result<seq<Bytes>>)
    ensures r == Related(docs, query, limit)
  {
    var result: seq<Bytes> := [];
    var i := 0;
    while i < |docs|
      invariant 0 <= i <= |docs|
      invariant RelatedFrom(docs, query, limit, i, result) == Related(docs, query, limit)
    {
      if docs[i].None? {
        return Err(Panic(NilDereference));
      }
      var body := BodyOf(docs[i].value);
      if query == body {
        i := i + 1;
        continue;
      }
      result := result + [body];
      if |result| == limit {
        return Ok(result);
      }
      i := i + 1;
    }
    return Ok(result);
  }
}
