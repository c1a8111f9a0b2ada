// schema/document.go: a search result document, read from the 20-byte
// metadata of a result frame.
module Documents {
  import opened Types
  import opened GoStrings
  import opened Command

  /** The size of the packed metadata of a result document. */
  const DocResSize: nat := 20

  // The keys NewDocument looks up.
  const DocidKey: Bytes := [0x64, 0x6F, 0x63, 0x69, 0x64]              // "docid"
  const RankKey: Bytes := [0x72, 0x61, 0x6E, 0x6B]                     // "rank"
  const CcountKey: Bytes := [0x63, 0x63, 0x6F, 0x75, 0x6E, 0x74]       // "ccount"
  const PercentKey: Bytes := [0x70, 0x65, 0x72, 0x63, 0x65, 0x6E, 0x74] // "percent"
  const WeightKey: Bytes := [0x77, 0x65, 0x69, 0x67, 0x68, 0x74]       // "weight"

  // The segments of DocResFormat: a code letter, then the key.
  const DocidSegment: Bytes := [CodeU32] + DocidKey
  const RankSegment: Bytes := [CodeU32] + RankKey
  const CcountSegment: Bytes := [CodeU32] + CcountKey
  const PercentSegment: Bytes := [CodeI32] + PercentKey
  const WeightSegment: Bytes := [CodeF32] + WeightKey

  const DocResSegments: seq<Bytes> := [DocidSegment, RankSegment, CcountSegment, PercentSegment, WeightSegment]

  /** DocResFormat, "Idocid/Irank/Iccount/ipercent/fweight". */
  function DocResFormat(): (format: Bytes)
    ensures Split(format, Slash) == DocResSegments && ValidFormat(format)
  {
    assert forall k :: 0 <= k < |DocResSegments| ==> Slash !in DocResSegments[k];
    SplitJoin(DocResSegments, Slash);
    Join(DocResSegments, [Slash])
  }

  /**
   * Document. The float32 weight is kept as its four little-endian bytes
   * and the int32 percent as its value.
   */
  datatype Document = Document(
    charset: Bytes, fields: map<Bytes, Bytes>,
    docid: uint32, rank: uint32, ccount: uint32, percent: int, weight: Bytes,
    matched: seq<Bytes>)

  /** A document with every field at its Go zero value and an empty field map. */
  const BlankDocument: Document := Document([], map[], 0, 0, 0, 0, [0, 0, 0, 0], [])

  /** A type assertion v.(uint32) on a map entry; a missing entry is a nil interface. */
  function AsUint32(m: map<Bytes, Unpacked>, key: Bytes): (r: Result<uint32>)
    ensures r.Ok? <==> key in m && m[key].U32Value?
    ensures r.Ok? ==> r.value == m[key].u32
    ensures r.Err? ==> r.error == Panic(TypeAssertion)
  {
    if key in m && m[key].U32Value? then Ok(m[key].u32) else Err(Panic(TypeAssertion))
  }

  function AsInt32(m: map<Bytes, Unpacked>, key: Bytes): (r: Result<int>)
    ensures r.Ok? <==> key in m && m[key].I32Value?
    ensures r.Ok? ==> r.value == m[key].i32
    ensures r.Err? ==> r.error == Panic(TypeAssertion)
  {
    if key in m && m[key].I32Value? then Ok(m[key].i32) else Err(Panic(TypeAssertion))
  }

  function AsFloat32(m: map<Bytes, Unpacked>, key: Bytes): (r: Result<Bytes>)
    ensures r.Ok? <==> key in m && m[key].F32Value?
    ensures r.Ok? ==> r.value == m[key].bits
    ensures r.Err? ==> r.error == Panic(TypeAssertion)
  {
    if key in m && m[key].F32Value? then Ok(m[key].bits) else Err(Panic(TypeAssertion))
  }

  /**
   * NewDocument(meta): metadata of any other length than DocResSize is
   * taken as the charset; otherwise the five packed values are unpacked.
   */
  function NewDocument(meta: Bytes): (r: Result<Document>)
    ensures |meta| != DocResSize ==> r == Ok(BlankDocument.(charset := meta))
  {
    if |meta| != DocResSize then Ok(BlankDocument.(charset := meta))
    else
      // UnPack(DocResFormat, meta), by FormatSegments.
      var (metas, err) := UnPackFrom(DocResSegments, 0, meta, map[]);
      if err.Some? then Err(err.value)
      else
        match (AsUint32(metas, DocidKey), AsUint32(metas, RankKey), AsUint32(metas, CcountKey),
               AsInt32(metas, PercentKey), AsFloat32(metas, WeightKey))
        case (Ok(docid), Ok(rank), Ok(ccount), Ok(percent), Ok(weight)) =>
          Ok(BlankDocument.(docid := docid, rank := rank, ccount := ccount, percent := percent, weight := weight))
        case (Err(e), _, _, _, _) => Err(e)
        case (_, Err(e), _, _, _) => Err(e)
        case (_, _, Err(e), _, _) => Err(e)
        case (_, _, _, Err(e), _) => Err(e)
        case (_, _, _, _, Err(e)) => Err(e)
  }

  /** Unpacking by DocResFormat is unpacking its five segments. */
  lemma FormatSegments(meta: Bytes)
    ensures UnPackSpec(DocResFormat(), meta) == UnPackFrom(DocResSegments, 0, meta, map[])
  {
  }

  /** The signed value of four little-endian bytes (int32). */
  function Int32Of(b: Bytes): (v: int)
    requires |b| == 4
    ensures -0x8000_0000 <= v < 0x8000_0000
    ensures v % 0x1_0000_0000 == ReadLittleEndian32(b) as int
  {
    var u := ReadLittleEndian32(b);
    if u >= 0x8000_0000 then u - 0x1_0000_0000 else u
  }

  /** The values UnPack reads from DocResSize bytes of metadata. */
  function DocResValues(meta: Bytes): map<Bytes, Unpacked>
    requires |meta| == DocResSize
  {
    map[DocidKey := Decoded(CodeU32, meta[0..4]),
        RankKey := Decoded(CodeU32, meta[4..8]),
        CcountKey := Decoded(CodeU32, meta[8..12]),
        PercentKey := Decoded(CodeI32, meta[12..16]),
        WeightKey := Decoded(CodeF32, meta[16..20])]
  }

  lemma DocResUnpacked(meta: Bytes)
    requires |meta| == DocResSize
    ensures UnPackFrom(DocResSegments, 0, meta, map[]) == (DocResValues(meta), None)
  {
    var segs := DocResSegments;
    assert DocidSegment[1..] == DocidKey && RankSegment[1..] == RankKey && CcountSegment[1..] == CcountKey;
    assert PercentSegment[1..] == PercentKey && WeightSegment[1..] == WeightKey;
    var m1 := map[DocidKey := Decoded(CodeU32, meta[0..4])];
    assert UnPackFrom(segs, 0, meta, map[]) == UnPackFrom(segs, 1, meta[4..], m1);
    var m2 := m1[RankKey := Decoded(CodeU32, meta[4..8])];
    assert meta[4..][..4] == meta[4..8] && meta[4..][4..] == meta[8..];
    assert UnPackFrom(segs, 1, meta[4..], m1) == UnPackFrom(segs, 2, meta[8..], m2);
    var m3 := m2[CcountKey := Decoded(CodeU32, meta[8..12])];
    assert meta[8..][..4] == meta[8..12] && meta[8..][4..] == meta[12..];
    assert UnPackFrom(segs, 2, meta[8..], m2) == UnPackFrom(segs, 3, meta[12..], m3);
    var m4 := m3[PercentKey := Decoded(CodeI32, meta[12..16])];
    assert meta[12..][..4] == meta[12..16] && meta[12..][4..] == meta[16..];
    assert UnPackFrom(segs, 3, meta[12..], m3) == UnPackFrom(segs, 4, meta[16..], m4);
    var m5 := m4[WeightKey := Decoded(CodeF32, meta[16..20])];
    assert meta[16..][..4] == meta[16..20];
    assert UnPackFrom(segs, 4, meta[16..], m4) == UnPackFrom(segs, 5, meta[20..], m5);
  }

  /**
   * Metadata of exactly DocResSize bytes never fails: docid, rank and
   * ccount are the little-endian words at 0, 4 and 8, percent is the signed
   * word at 12, and the weight is the last four bytes.
   */
  lemma NewDocumentReads(meta: Bytes)
    requires |meta| == DocResSize
    ensures NewDocument(meta)
         == Ok(Document([], map[], ReadLittleEndian32(meta[0..4]), ReadLittleEndian32(meta[4..8]),
                        ReadLittleEndian32(meta[8..12]), Int32Of(meta[12..16]), meta[16..20], []))
  {
    DocResUnpacked(meta);
    var m := DocResValues(meta);
    assert AsUint32(m, DocidKey) == Ok(ReadLittleEndian32(meta[0..4]));
    assert AsUint32(m, RankKey) == Ok(ReadLittleEndian32(meta[4..8]));
    assert AsUint32(m, CcountKey) == Ok(ReadLittleEndian32(meta[8..12]));
    assert AsInt32(m, PercentKey) == Ok(Int32Of(meta[12..16]));
    assert AsFloat32(m, WeightKey) == Ok(meta[16..20]);
  }

  /** The int32 two's complement in four little-endian bytes. */
  function Int32Bytes(v: int): (b: Bytes)
    requires -0x8000_0000 <= v < 0x8000_0000
    ensures |b| == 4
  {
    LittleEndian32(v % 0x1_0000_0000)
  }

  /** Packing five values the way the server does gives them back as a document. */
  lemma NewDocumentRoundTrip(docid: uint32, rank: uint32, ccount: uint32, percent: int, weight: Bytes)
    requires -0x8000_0000 <= percent < 0x8000_0000 && |weight| == 4
    ensures var meta := LittleEndian32(docid) + LittleEndian32(rank) + LittleEndian32(ccount) + Int32Bytes(percent) + weight;
      NewDocument(meta) == Ok(Document([], map[], docid, rank, ccount, percent, weight, []))
  {
    var meta := LittleEndian32(docid) + LittleEndian32(rank) + LittleEndian32(ccount) + Int32Bytes(percent) + weight;
    NewDocumentReads(meta);
    FiveWords(LittleEndian32(docid), LittleEndian32(rank), LittleEndian32(ccount), Int32Bytes(percent), weight);
    Uint32RoundTrip(docid, false);
    Uint32RoundTrip(rank, false);
    Uint32RoundTrip(ccount, false);
    Uint32RoundTrip(percent % 0x1_0000_0000, false);
  }

  /** The five four-byte words of a packed metadata block, by position. */
  lemma FiveWords(a: Bytes, b: Bytes, c: Bytes, d: Bytes, e: Bytes)
    requires |a| == 4 && |b| == 4 && |c| == 4 && |d| == 4 && |e| == 4
    ensures var m := a + b + c + d + e;
      m[0..4] == a && m[4..8] == b && m[8..12] == c && m[12..16] == d && m[16..20] == e
  {
  }
}
