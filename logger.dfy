// schema/logger.go: the fixed schema of the search log, which the source
// embeds as a TOML literal. The fields are listed in the literal's order.
module Logger {
  import opened Types
  import opened Fields
  import opened Schemas

  const IdName: Bytes := [0x69, 0x64]                                // "id"
  const PinyinName: Bytes := [0x70, 0x69, 0x6E, 0x79, 0x69, 0x6E]    // "pinyin"
  const PartialName: Bytes := [0x70, 0x61, 0x72, 0x74, 0x69, 0x61, 0x6C] // "partial"
  const TotalName: Bytes := [0x74, 0x6F, 0x74, 0x61, 0x6C]           // "total"
  const LastnumName: Bytes := [0x6C, 0x61, 0x73, 0x74, 0x6E, 0x75, 0x6D] // "lastnum"
  const CurrnumName: Bytes := [0x63, 0x75, 0x72, 0x72, 0x6E, 0x75, 0x6D] // "currnum"
  const CurrtagName: Bytes := [0x63, 0x75, 0x72, 0x72, 0x74, 0x61, 0x67] // "currtag"
  const BodyName: Bytes := [0x62, 0x6F, 0x64, 0x79]                  // "body"

  /** A field declaring only its type, index mode and fid; every other key is absent. */
  function Declared(fieldType: Bytes, index: Bytes, fid: byte): Field
  {
    Field(fieldType, index, 0, 0, [], [], fid)
  }

  const SelfIndex: Bytes := IndexSelf

  /**
   * The literal as written: the pinyin table sets `nid = 2`, a key Field
   * does not have, so the field keeps fid 0.
   */
  const LoggerFieldsAsWritten: seq<(Bytes, Field)> := [
    (IdName, Declared(TypeId, [], 1)),
    (PinyinName, Declared([], [], 0)),
    (PartialName, Declared([], [], 3)),
    (TotalName, Declared(TypeNumeric, SelfIndex, 4)),
    (LastnumName, Declared(TypeNumeric, SelfIndex, 5)),
    (CurrnumName, Declared(TypeNumeric, SelfIndex, 6)),
    (CurrtagName, Declared([], [], 7)),
    (BodyName, Declared(TypeBody, [], 8))]

  /** The literal with pinyin's fid 2, between id (fid 1) and partial (fid 3). */
  const LoggerFields: seq<(Bytes, Field)> := LoggerFieldsAsWritten[1 := (PinyinName, Declared([], [], 2))]

  lemma LoggerNamesDistinct(fields: seq<(Bytes, Field)>)
    requires fields == LoggerFieldsAsWritten || fields == LoggerFields
    ensures DistinctNames(fields)
    ensures Names(fields) == [IdName, PinyinName, PartialName, TotalName, LastnumName, CurrnumName, CurrtagName, BodyName]
  {
  }

  /** Both versions of the literal make a valid schema. */
  lemma LoggerSchemaOk(fields: seq<(Bytes, Field)>)
    requires fields == LoggerFieldsAsWritten || fields == LoggerFields
    ensures SchemaSpec(fields).Ok?
  {
    SchemaOk(fields);
    LoggerCounts(fields, 0);
  }

  lemma {:induction false} LoggerCounts(fields: seq<(Bytes, Field)>, i: nat)
    requires fields == LoggerFieldsAsWritten || fields == LoggerFields
    requires i <= |fields|
    ensures CountType(fields, i, TypeId) == (if i == 0 then 1 else 0)
    ensures CountType(fields, i, TypeTitle) == 0
    ensures CountType(fields, i, TypeBody) == (if i < |fields| then 1 else 0)
    decreases |fields| - i
  {
    TypeNamesDiffer();
    if i < |fields| {
      LoggerCounts(fields, i + 1);
    }
  }

  /** With e the only field of type t from i on, the fields of type t counted are the copies of e. */
  lemma {:induction false} CountTypeOfOne(fields: seq<(Bytes, Field)>, i: nat, t: Bytes, e: (Bytes, Field))
    requires i <= |fields| && e.1.fieldType == t
    requires forall x :: x in fields[i..] && x.1.fieldType == t ==> x == e
    ensures CountType(fields, i, t) == multiset(fields[i..])[e]
    decreases |fields| - i
  {
    if i < |fields| {
      assert fields[i..] == [fields[i]] + fields[i + 1..];
      CountTypeOfOne(fields, i + 1, t, e);
    }
  }

  /** The id and the body field occur once in the literal, and it has no title field. */
  lemma LiteralTypes()
    ensures forall x :: x in LoggerFieldsAsWritten && x.1.fieldType == TypeId ==> x == LoggerFieldsAsWritten[0]
    ensures forall x :: x in LoggerFieldsAsWritten && x.1.fieldType == TypeBody ==> x == LoggerFieldsAsWritten[7]
    ensures forall x :: x in LoggerFieldsAsWritten ==> x.1.fieldType != TypeTitle
  {
    TypeNamesDiffer();
    assert |TypeId| == 2 && |TypeBody| == 4 && |TypeTitle| == 5 && |TypeNumeric| == 7;
  }

  /** An element that no other position of s holds occurs once in multiset(s). */
  lemma {:induction false} OccursOnce<T>(s: seq<T>, j: nat)
    requires j < |s| && forall k :: 0 <= k < |s| && k != j ==> s[k] != s[j]
    ensures multiset(s)[s[j]] == 1
    decreases |s|
  {
    assert s == [s[0]] + s[1..];
    if j == 0 {
      assert s[0] !in s[1..];
    } else {
      OccursOnce(s[1..], j - 1);
    }
  }

  /** The fids of the literal are distinct, so the id and the body field occur once each. */
  lemma LiteralOnce()
    ensures multiset(LoggerFieldsAsWritten)[LoggerFieldsAsWritten[0]] == 1
    ensures multiset(LoggerFieldsAsWritten)[LoggerFieldsAsWritten[7]] == 1
  {
    var lit := LoggerFieldsAsWritten;
    assert forall k :: 1 <= k < 8 ==> lit[k].1.fid != 1;
    assert forall k :: 0 <= k < 7 ==> lit[k].1.fid != 8;
    OccursOnce(lit, 0);
    OccursOnce(lit, 7);
  }

  /**
   * The log schema is built by ranging over the decoded table, in an order
   * Go leaves open: in every order of the literal the schema is valid.
   */
  lemma LoggerAnyOrderOk(fields: seq<(Bytes, Field)>)
    requires multiset(fields) == multiset(LoggerFieldsAsWritten)
    ensures SchemaSpec(fields).Ok?
  {
    TypeNamesDiffer();
    LiteralTypes();
    LiteralOnce();
    var lit := LoggerFieldsAsWritten;
    forall x | x in fields
      ensures x in lit
    {
      assert x in multiset(fields);
    }
    assert fields[0..] == fields;
    var titleField := (IdName, Declared(TypeTitle, [], 0));
    CountTypeOfOne(fields, 0, TypeId, lit[0]);
    CountTypeOfOne(fields, 0, TypeBody, lit[7]);
    CountTypeOfOne(fields, 0, TypeTitle, titleField);
    assert multiset(fields)[titleField] == 0;
    SchemaOk(fields);
  }

  /** The positions of pinyin and currtag among the sorted names. */
  lemma SortedPositions(names: seq<Bytes>)
    requires names == [IdName, PinyinName, PartialName, TotalName, LastnumName, CurrnumName, CurrtagName, BodyName]
    ensures CountLess(names, PinyinName) == 6
  {
    var p := PinyinName;
    LexIrreflexive(p);
    assert LexLess(IdName, p) && LexLess(LastnumName, p) && LexLess(CurrnumName, p);
    assert LexLess(CurrtagName, p) && LexLess(BodyName, p);
    assert !LexLess(TotalName, p);
    assert LexLess(PartialName, p) by {
      assert PartialName[0] == p[0] && PartialName[1..][0] < p[1..][0];
    }
    assert CountLess(names[7..], p) == 1;
    assert CountLess(names[6..], p) == 2;
    assert CountLess(names[5..], p) == 3;
    assert CountLess(names[4..], p) == 4;
    assert CountLess(names[3..], p) == 4;
    assert CountLess(names[2..], p) == 5;
    assert CountLess(names[1..], p) == 5;
  }

  /**
   * As written, pinyin gets the sorted index 6 as its wire number, the
   * number currtag's fid 7 gives it: two log fields share vno 6.
   */
  lemma LoggerVnoCollision(fields: seq<(Bytes, Field)>)
    requires fields == LoggerFieldsAsWritten
    ensures SchemaSpec(fields).Ok?
    ensures var d := SchemaSpec(fields).value;
      PinyinName in d.fieldMetas && CurrtagName in d.fieldMetas
      && d.fieldMetas[PinyinName].vno == 6 && d.fieldMetas[CurrtagName].vno == 6
  {
    LoggerNamesDistinct(fields);
    LoggerSchemaOk(fields);
    var d := SchemaSpec(fields).value;
    StoredVnos(fields, d);
    CollidingVnos(fields, d.fieldMetas);
  }

  lemma CollidingVnos(fields: seq<(Bytes, Field)>, fm: map<Bytes, FieldMeta>)
    requires fields == LoggerFieldsAsWritten
    requires forall j :: 0 <= j < |fields| ==>
      fields[j].0 in fm && fm[fields[j].0].vno == VnoOf(fields[j].0, fields[j].1, Names(fields))
    ensures PinyinName in fm && CurrtagName in fm && fm[PinyinName].vno == 6 && fm[CurrtagName].vno == 6
  {
    LoggerNamesDistinct(fields);
    SortedPositions(Names(fields));
    assert fields[1].0 == PinyinName && fields[6].0 == CurrtagName;
  }

  /** Every entry of the literal occurs once in it, its fids being distinct. */
  lemma LiteralEntriesOnce(k: nat)
    requires k < |LoggerFieldsAsWritten|
    ensures multiset(LoggerFieldsAsWritten)[LoggerFieldsAsWritten[k]] == 1
  {
    var lit := LoggerFieldsAsWritten;
    assert forall a, b :: 0 <= a < b < 8 ==> lit[a].1.fid != lit[b].1.fid;
    OccursOnce(lit, k);
  }

  /** The keys of the literal are distinct, so an entry is determined by its name. */
  lemma LiteralByName(a: (Bytes, Field), b: (Bytes, Field))
    requires a in LoggerFieldsAsWritten && b in LoggerFieldsAsWritten && a.0 == b.0
    ensures a == b
  {
    LoggerNamesDistinct(LoggerFieldsAsWritten);
  }

  /** A reordering of the literal still has distinct names. */
  lemma AnyOrderDistinct(fields: seq<(Bytes, Field)>)
    requires multiset(fields) == multiset(LoggerFieldsAsWritten)
    ensures DistinctNames(fields)
  {
    var lit := LoggerFieldsAsWritten;
    forall i, j | 0 <= i < j < |fields|
      ensures fields[i].0 != fields[j].0
    {
      assert fields[i] in multiset(lit) && fields[j] in multiset(lit);
      if fields[i].0 == fields[j].0 {
        LiteralByName(fields[i], fields[j]);
        var k :| 0 <= k < |lit| && lit[k] == fields[i];
        LiteralEntriesOnce(k);
        TwiceCounted(fields, i, j);
        assert false;
      }
    }
  }

  /** An element at two positions is counted at least twice. */
  lemma TwiceCounted<T>(s: seq<T>, i: nat, j: nat)
    requires i < j < |s| && s[i] == s[j]
    ensures multiset(s)[s[i]] >= 2
  {
    assert s == s[..i] + [s[i]] + s[i + 1..j] + [s[j]] + s[j + 1..];
  }

  /** The literal's wire numbers, when pinyin's sorted index is 6: only pinyin and currtag get 6. */
  lemma LiteralVnoSix(k: nat, names: seq<Bytes>)
    requires k < |LoggerFieldsAsWritten| && CountLess(names, PinyinName) == 6
    ensures var e := LoggerFieldsAsWritten[k];
      (VnoOf(e.0, e.1, names) == 6 <==> e.0 == PinyinName || e.0 == CurrtagName)
  {
    TypeNamesDiffer();
    assert |TypeBody| == 4 && |TypeNumeric| == 7;
  }

  /** Pinyin's sorted index is 6 in every order of the literal. */
  lemma AnyOrderPinyinIndex(fields: seq<(Bytes, Field)>)
    requires multiset(fields) == multiset(LoggerFieldsAsWritten)
    ensures CountLess(Names(fields), PinyinName) == 6
  {
    LoggerNamesDistinct(LoggerFieldsAsWritten);
    SortedPositions(Names(LoggerFieldsAsWritten));
    SortedIndexUnordered(fields, LoggerFieldsAsWritten, PinyinName);
  }

  /** The entry of fields holding a given field of the literal. */
  lemma EntryOf(fields: seq<(Bytes, Field)>, k: nat) returns (p: nat)
    requires multiset(fields) == multiset(LoggerFieldsAsWritten) && k < |LoggerFieldsAsWritten|
    ensures p < |fields| && fields[p] == LoggerFieldsAsWritten[k]
  {
    assert LoggerFieldsAsWritten[k] in multiset(fields);
    p :| 0 <= p < |fields| && fields[p] == LoggerFieldsAsWritten[k];
  }

  /** Numbered in any order, pinyin and currtag both carry wire number 6. */
  lemma AnyOrderVnos(fields: seq<(Bytes, Field)>, fm: map<Bytes, FieldMeta>)
    requires multiset(fields) == multiset(LoggerFieldsAsWritten)
    requires forall j :: 0 <= j < |fields| ==>
      fields[j].0 in fm && fm[fields[j].0].vno == VnoOf(fields[j].0, fields[j].1, Names(fields))
    ensures PinyinName in fm && CurrtagName in fm && fm[PinyinName].vno == 6 && fm[CurrtagName].vno == 6
  {
    AnyOrderPinyinIndex(fields);
    var p := EntryOf(fields, 1);
    var q := EntryOf(fields, 6);
    LiteralVnoSix(1, Names(fields));
    LiteralVnoSix(6, Names(fields));
  }

  /** A name of the fields is the name of one of their entries, which is an entry of the literal. */
  lemma NamedEntry(fields: seq<(Bytes, Field)>, n: Bytes) returns (k: nat)
    requires multiset(fields) == multiset(LoggerFieldsAsWritten) && n in Names(fields)
    ensures k < |LoggerFieldsAsWritten| && LoggerFieldsAsWritten[k].0 == n
    ensures exists r :: 0 <= r < |fields| && fields[r] == LoggerFieldsAsWritten[k]
  {
    var r :| 0 <= r < |fields| && Names(fields)[r] == n;
    assert fields[r] in multiset(LoggerFieldsAsWritten);
    k :| 0 <= k < |LoggerFieldsAsWritten| && LoggerFieldsAsWritten[k] == fields[r];
  }

  /** Numbered in any order, the field vnoMap keeps under 6 is pinyin or currtag. */
  lemma AnyOrderSixNamed(fields: seq<(Bytes, Field)>, fm: map<Bytes, FieldMeta>, vm: map<byte, Bytes>)
    requires multiset(fields) == multiset(LoggerFieldsAsWritten)
    requires forall j :: 0 <= j < |fields| ==>
      fields[j].0 in fm && fm[fields[j].0].vno == VnoOf(fields[j].0, fields[j].1, Names(fields))
    requires (forall n :: n in fm <==> n in Names(fields)) && VnosConsistent(fm, vm)
    ensures 6 in vm && (vm[6] == PinyinName || vm[6] == CurrtagName)
  {
    AnyOrderVnos(fields, fm);
    assert 6 in vm;
    var n := vm[6];
    assert n in fm && fm[n].vno == 6;
    var k := NamedEntry(fields, n);
    var e := LoggerFieldsAsWritten[k];
    assert fm[n].vno == VnoOf(e.0, e.1, Names(fields));
    AnyOrderPinyinIndex(fields);
    LiteralVnoSix(k, Names(fields));
  }

  /**
   * In every order the range over the decoded literal can take, pinyin and
   * currtag both get wire number 6 and vnoMap[6] names one of the two: a
   * FIELD frame of vno 6 from the log database is named either way.
   */
  lemma LoggerVnoCollisionAnyOrder(fields: seq<(Bytes, Field)>)
    requires multiset(fields) == multiset(LoggerFieldsAsWritten)
    ensures SchemaSpec(fields).Ok?
    ensures var d := SchemaSpec(fields).value;
      PinyinName in d.fieldMetas && CurrtagName in d.fieldMetas
      && d.fieldMetas[PinyinName].vno == 6 && d.fieldMetas[CurrtagName].vno == 6
      && 6 in d.vnoMap && (d.vnoMap[6] == PinyinName || d.vnoMap[6] == CurrtagName)
  {
    LoggerAnyOrderOk(fields);
    AnyOrderDistinct(fields);
    var d := SchemaSpec(fields).value;
    SchemaContents(fields);
    StoredVnos(fields, d);
    AnyOrderVnos(fields, d.fieldMetas);
    AnyOrderSixNamed(fields, d.fieldMetas, d.vnoMap);
  }

  /** The wire numbers of the corrected literal, by field. */
  lemma LoggerVnos(fields: seq<(Bytes, Field)>)
    requires fields == LoggerFields
    ensures SchemaSpec(fields).Ok?
    ensures var d := SchemaSpec(fields).value;
      d.fieldMetas.Keys == {IdName, PinyinName, PartialName, TotalName, LastnumName, CurrnumName, CurrtagName, BodyName}
      && d.fieldMetas[IdName].vno == 0 && d.fieldMetas[PinyinName].vno == 1
      && d.fieldMetas[PartialName].vno == 2 && d.fieldMetas[TotalName].vno == 3
      && d.fieldMetas[LastnumName].vno == 4 && d.fieldMetas[CurrnumName].vno == 5
      && d.fieldMetas[CurrtagName].vno == 6 && d.fieldMetas[BodyName].vno == MixedVno
  {
    LoggerNamesDistinct(fields);
    LoggerSchemaOk(fields);
    var d := SchemaSpec(fields).value;
    StoredKeys(fields);
    LoggerKeys(Names(fields), d.fieldMetas);
    StoredVnos(fields, d);
    CorrectedVnos(fields, d.fieldMetas);
  }

  lemma LoggerKeys(names: seq<Bytes>, metas: map<Bytes, FieldMeta>)
    requires names == [IdName, PinyinName, PartialName, TotalName, LastnumName, CurrnumName, CurrtagName, BodyName]
    requires forall n :: n in metas <==> n in names
    ensures metas.Keys == {IdName, PinyinName, PartialName, TotalName, LastnumName, CurrnumName, CurrtagName, BodyName}
  {
  }

  lemma CorrectedVnos(fields: seq<(Bytes, Field)>, fm: map<Bytes, FieldMeta>)
    requires fields == LoggerFields
    requires forall j :: 0 <= j < |fields| ==>
      fields[j].0 in fm && fm[fields[j].0].vno == VnoOf(fields[j].0, fields[j].1, Names(fields))
    ensures IdName in fm && fm[IdName].vno == 0
    ensures PinyinName in fm && fm[PinyinName].vno == 1
    ensures PartialName in fm && fm[PartialName].vno == 2
    ensures TotalName in fm && fm[TotalName].vno == 3
    ensures LastnumName in fm && fm[LastnumName].vno == 4
    ensures CurrnumName in fm && fm[CurrnumName].vno == 5
    ensures CurrtagName in fm && fm[CurrtagName].vno == 6
    ensures BodyName in fm && fm[BodyName].vno == MixedVno
  {
    TypeNamesDiffer();
    assert fields[0].0 == IdName && fields[1].0 == PinyinName && fields[2].0 == PartialName && fields[3].0 == TotalName;
    assert fields[4].0 == LastnumName && fields[5].0 == CurrnumName && fields[6].0 == CurrtagName && fields[7].0 == BodyName;
  }

  /** With the correction every log field has its own number, and vnoMap is their exact inverse. */
  lemma LoggerVnoMapInverse(fields: seq<(Bytes, Field)>)
    requires fields == LoggerFields
    ensures SchemaSpec(fields).Ok?
    ensures var d := SchemaSpec(fields).value;
      forall n :: n in d.fieldMetas ==> d.fieldMetas[n].vno in d.vnoMap && d.vnoMap[d.fieldMetas[n].vno] == n
  {
    LoggerVnos(fields);
    LoggerNamesDistinct(fields);
    VnoMapInverse(fields);
  }
}
