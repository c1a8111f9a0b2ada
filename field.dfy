// schema/field.go and schema/const.go: the metadata of one document field
// and the flag bits derived from its configuration.
module Fields {
  import opened Types

  /**
   * FieldMeta.Flag. Go declares it int; every value preare can produce is
   * made of the bits below, so eight bits hold it exactly.
   */
  type FlagBits = bv8

  const MaxWdf: uint16 := 0x3f
  const MixedVno: byte := 255
  const FlagIndexSelf: FlagBits := 0x01
  const FlagIndexMixed: FlagBits := 0x02
  const FlagIndexBoth: FlagBits := 0x03
  const FlagWithPosition: FlagBits := 0x10
  const FlagNonBool: FlagBits := 0x80

  const TypeId: Bytes := [0x69, 0x64]  // "id"
  const TypeTitle: Bytes := [0x74, 0x69, 0x74, 0x6C, 0x65]  // "title"
  const TypeBody: Bytes := [0x62, 0x6F, 0x64, 0x79]  // "body"
  const TypeNumeric: Bytes := [0x6E, 0x75, 0x6D, 0x65, 0x72, 0x69, 0x63]  // "numeric"
  const Yes: Bytes := [0x59]  // "Y"
  const No: Bytes := [0x4E]  // "N"
  const IndexSelf: Bytes := [0x73, 0x65, 0x6C, 0x66]   // "self"
  const IndexMixed: Bytes := [0x6D, 0x69, 0x78, 0x65, 0x64]  // "mixed"
  const IndexBoth: Bytes := [0x62, 0x6F, 0x74, 0x68]   // "both"

  /** INDEX_TYPES: the index modes a field may name. */
  function IndexMode(index: Bytes): (r: Option<FlagBits>)
    ensures r.Some? ==> r.value & !FlagIndexBoth == 0 && r.value != 0
  {
    if index == IndexSelf then Some(FlagIndexSelf)
    else if index == IndexMixed then Some(FlagIndexMixed)
    else if index == IndexBoth then Some(FlagIndexBoth)
    else None
  }

  /** A field as the configuration declares it (struct Field). */
  datatype Field = Field(
    fieldType: Bytes, index: Bytes, cutlen: uint32, weight: uint16,
    phrase: Bytes, noBool: Bytes, fid: byte)

  /** struct FieldMeta: the declaration, its name, the derived flag and wire number. */
  datatype FieldMeta = FieldMeta(
    name: Bytes, fieldType: Bytes, index: Bytes, cutlen: uint32, weight: uint16,
    phrase: Bytes, noBool: Bytes, fid: byte, flag: FlagBits, vno: byte)

  predicate WithPos(m: FieldMeta) { m.flag & FlagWithPosition != 0 }

  predicate IsBoolIndex(m: FieldMeta)
  {
    if m.flag & FlagNonBool != 0 then false else m.fieldType == TypeId
  }

  predicate IsNumeric(m: FieldMeta) { m.fieldType == TypeNumeric }

  predicate IsSpecial(m: FieldMeta)
  {
    m.fieldType == TypeId || m.fieldType == TypeTitle || m.fieldType == TypeBody
  }

  predicate HasIndexSelf(m: FieldMeta) { m.flag & FlagIndexSelf != 0 }

  predicate HasIndexMixed(m: FieldMeta) { m.flag & FlagIndexMixed != 0 }

  predicate HasIndex(m: FieldMeta) { m.flag & FlagIndexBoth != 0 }

  /** A field has an index exactly when it has a self index or a mixed index. */
  lemma HasIndexEither(m: FieldMeta)
    ensures HasIndex(m) <==> HasIndexSelf(m) || HasIndexMixed(m)
  {
    var f := m.flag;
    assert f & 0x03 == (f & 0x01) | (f & 0x02);
  }

  // ---------------------------------------------------------------------
  // preare, one rule at a time.

  /** The type defaults. */
  function TypeDefaults(m: FieldMeta): (r: FieldMeta)
    ensures r.name == m.name && r.fieldType == m.fieldType && r.index == m.index
    ensures r.phrase == m.phrase && r.noBool == m.noBool && r.fid == m.fid
  {
    if m.fieldType == TypeId then m.(flag := FlagIndexSelf)
    else if m.fieldType == TypeTitle then m.(flag := FlagIndexBoth | FlagWithPosition, weight := 5)
    else if m.fieldType == TypeBody then m.(vno := MixedVno, flag := FlagIndexSelf | FlagWithPosition, cutlen := 300)
    else m
  }

  /** A named index mode replaces the two index bits; an id field keeps its self index. */
  function ApplyIndex(m: FieldMeta): (r: FieldMeta)
    ensures r == m.(flag := r.flag)
    ensures r.flag & !FlagIndexBoth == m.flag & !FlagIndexBoth
  {
    if m.index != [] && m.fieldType != TypeBody then
      var m1 := match IndexMode(m.index)
                case Some(flg) => m.(flag := (m.flag & !FlagIndexBoth) | flg)
                case None => m;
      if m.fieldType == TypeId then m1.(flag := m1.flag | FlagIndexSelf) else m1
    else m
  }

  /** A zero weight becomes 1; a body weight is then cut to MAX_WDF. */
  function ApplyWeight(m: FieldMeta): (r: FieldMeta)
    ensures r == m.(weight := r.weight)
  {
    var m1 := if m.weight == 0 then m.(weight := 1) else m;
    if m1.weight > 0 && m1.fieldType == TypeBody then m1.(weight := m1.weight % (MaxWdf as int + 1)) else m1
  }

  /** Only "Y" sets WITH_POSITION and only "N" clears it. */
  function ApplyPhrase(m: FieldMeta): (r: FieldMeta)
    ensures r == m.(flag := r.flag)
  {
    if m.phrase == Yes then m.(flag := m.flag | FlagWithPosition)
    else if m.phrase == No then m.(flag := m.flag & !FlagWithPosition)
    else m
  }

  /** Only "Y" sets NON_BOOL and only "N" clears it. */
  function ApplyNoBool(m: FieldMeta): (r: FieldMeta)
    ensures r == m.(flag := r.flag)
  {
    if m.noBool == Yes then m.(flag := m.flag | FlagNonBool)
    else if m.noBool == No then m.(flag := m.flag & !FlagNonBool)
    else m
  }

  /** The metadata newField builds: the declaration with preare applied. */
  function NewField(name: Bytes, def: Field): (r: FieldMeta)
    ensures r.name == name && r.fieldType == def.fieldType && r.fid == def.fid
  {
    var m := FieldMeta(name, def.fieldType, def.index, def.cutlen, def.weight, def.phrase, def.noBool, def.fid, 0, 0);
    ApplyNoBool(ApplyPhrase(ApplyWeight(ApplyIndex(TypeDefaults(m)))))
  }

  // ---------------------------------------------------------------------
  // What newField promises.

  lemma TypeNamesDiffer()
    ensures TypeId != TypeTitle && TypeId != TypeBody && TypeTitle != TypeBody
    ensures TypeNumeric != TypeId && TypeNumeric != TypeTitle && TypeNumeric != TypeBody
    ensures Yes != No
  {
    assert |TypeId| == 2 && |TypeTitle| == 5 && |TypeBody| == 4 && |TypeNumeric| == 7;
    assert Yes[0] == 0x59 && No[0] == 0x4E;
  }

  /** The rules after ApplyIndex leave the two index bits alone. */
  lemma LaterRulesKeepIndexBits(m: FieldMeta)
    ensures ApplyNoBool(ApplyPhrase(ApplyWeight(m))).flag & FlagIndexBoth == m.flag & FlagIndexBoth
  {
    var f := ApplyPhrase(ApplyWeight(m)).flag;
    assert f & 0x03 == m.flag & 0x03;
  }

  /** The two index bits after preare: the named mode, the type's default otherwise; id keeps SELF. */
  lemma {:induction false} NewFieldIndexBits(name: Bytes, def: Field)
    ensures def.fieldType == TypeBody ==> NewField(name, def).flag & FlagIndexBoth == FlagIndexSelf
    ensures def.fieldType != TypeBody && IndexMode(def.index).Some? ==>
      NewField(name, def).flag & FlagIndexBoth
        == IndexMode(def.index).value | (if def.fieldType == TypeId then FlagIndexSelf else 0)
    ensures def.fieldType != TypeBody && IndexMode(def.index).None? ==>
      NewField(name, def).flag & FlagIndexBoth
        == (if def.fieldType == TypeId then FlagIndexSelf
            else if def.fieldType == TypeTitle then FlagIndexBoth
            else 0)
    ensures def.fieldType == TypeId ==> HasIndexSelf(NewField(name, def))
  {
    TypeNamesDiffer();
    var m0 := FieldMeta(name, def.fieldType, def.index, def.cutlen, def.weight, def.phrase, def.noBool, def.fid, 0, 0);
    var m1 := TypeDefaults(m0);
    var m2 := ApplyIndex(m1);
    LaterRulesKeepIndexBits(m2);
    var bits := m2.flag & FlagIndexBoth;
    assert NewField(name, def).flag & FlagIndexBoth == bits;
    if def.index == [] {
      assert IndexMode(def.index).None?;
    }
    if def.fieldType == TypeId {
      assert bits & 0x01 != 0;
    }
  }

  /** The weight after preare: title is 5, zero becomes 1, and body is masked with 0x3f. */
  lemma NewFieldWeight(name: Bytes, def: Field)
    ensures def.fieldType == TypeTitle ==> NewField(name, def).weight == 5
    ensures def.fieldType == TypeBody ==>
      NewField(name, def).weight == (if def.weight == 0 then 1 else def.weight % 0x40)
    ensures def.fieldType != TypeTitle && def.fieldType != TypeBody ==>
      NewField(name, def).weight == (if def.weight == 0 then 1 else def.weight)
  {
    TypeNamesDiffer();
  }

  /** The body weight mask can leave a weight of zero. */
  lemma BodyWeightCanBeZero(name: Bytes)
    ensures NewField(name, Field(TypeBody, [], 0, 0x40, [], [], 0)).weight == 0
  {
    TypeNamesDiffer();
  }

  /** Cut length and wire number: only a body field's are forced, to 300 and 255. */
  lemma NewFieldBody(name: Bytes, def: Field)
    ensures def.fieldType == TypeBody ==> NewField(name, def).cutlen == 300 && NewField(name, def).vno == MixedVno
    ensures def.fieldType != TypeBody ==> NewField(name, def).cutlen == def.cutlen && NewField(name, def).vno == 0
  {
    TypeNamesDiffer();
  }

  /** WITH_POSITION after preare: "Y" sets it, "N" clears it, anything else keeps the type default. */
  lemma {:induction false} NewFieldPhrase(name: Bytes, def: Field)
    ensures def.phrase == Yes ==> WithPos(NewField(name, def))
    ensures def.phrase == No ==> !WithPos(NewField(name, def))
    ensures def.phrase != Yes && def.phrase != No ==>
      (WithPos(NewField(name, def)) <==> def.fieldType == TypeTitle || def.fieldType == TypeBody)
  {
    TypeNamesDiffer();
    var m0 := FieldMeta(name, def.fieldType, def.index, def.cutlen, def.weight, def.phrase, def.noBool, def.fid, 0, 0);
    var m1 := TypeDefaults(m0);
    var m2 := ApplyIndex(m1);
    var m4 := ApplyPhrase(ApplyWeight(m2));
    var m5 := ApplyNoBool(m4);
    assert m2.flag & 0x10 == m1.flag & 0x10 by {
      assert m2.flag & !0x03 == m1.flag & !0x03;
      assert m2.flag & 0x10 == (m2.flag & !0x03) & 0x10;
      assert m1.flag & 0x10 == (m1.flag & !0x03) & 0x10;
    }
    assert m5.flag & 0x10 == m4.flag & 0x10 by {
      var f := m4.flag;
      assert m5.flag == f || m5.flag == f | 0x80 || m5.flag == f & !0x80;
    }
  }

  /** NON_BOOL after preare is set exactly when NoBool is "Y". */
  lemma {:induction false} NewFieldNoBool(name: Bytes, def: Field)
    ensures NewField(name, def).flag & FlagNonBool != 0 <==> def.noBool == Yes
  {
    TypeNamesDiffer();
    var m0 := FieldMeta(name, def.fieldType, def.index, def.cutlen, def.weight, def.phrase, def.noBool, def.fid, 0, 0);
    var m1 := TypeDefaults(m0);
    var m2 := ApplyIndex(m1);
    var m4 := ApplyPhrase(ApplyWeight(m2));
    assert m1.flag & 0x80 == 0;
    assert m2.flag & 0x80 == 0 by {
      assert m2.flag & !0x03 == m1.flag & !0x03;
      assert m2.flag & 0x80 == (m2.flag & !0x03) & 0x80;
      assert m1.flag & 0x80 == (m1.flag & !0x03) & 0x80;
    }
    assert m4.flag & 0x80 == 0 by {
      var f := ApplyWeight(m2).flag;
      assert m4.flag == f || m4.flag == f | 0x10 || m4.flag == f & !0x10;
    }
  }

  /** A field is boolean-indexed exactly when it is the id field and NoBool is not "Y". */
  lemma NewFieldBoolIndex(name: Bytes, def: Field)
    ensures IsBoolIndex(NewField(name, def)) <==> def.fieldType == TypeId && def.noBool != Yes
  {
    NewFieldNoBool(name, def);
  }
}
