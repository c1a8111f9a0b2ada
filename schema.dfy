// schema/schema.go: the schema of a project -- the metadata of each field,
// the wire number (vno) of each field and its inverse, and the per-field
// term and index accumulators.
//
// Go iterates over the field map in an unspecified order; the model takes
// the fields as a sequence and iterates in that order.
module Schemas {
  import opened Types
  import opened GoStrings
  import opened Fields

  // ---------------------------------------------------------------------
  // sort.Strings: positions in the lexicographic order of the names.

  /** Go's string order: bytewise, and a proper prefix sorts first. */
  predicate LexLess(a: Bytes, b: Bytes)
    decreases |a|
  {
    if |b| == 0 then false
    else if |a| == 0 then true
    else if a[0] != b[0] then a[0] < b[0]
    else LexLess(a[1..], b[1..])
  }

  lemma {:induction false} LexIrreflexive(a: Bytes)
    ensures !LexLess(a, a)
    decreases |a|
  {
    if |a| > 0 {
      LexIrreflexive(a[1..]);
    }
  }

  lemma {:induction false} LexTransitive(a: Bytes, b: Bytes, c: Bytes)
    requires LexLess(a, b) && LexLess(b, c)
    ensures LexLess(a, c)
    decreases |a|
  {
    if |a| > 0 && a[0] == b[0] && b[0] == c[0] {
      LexTransitive(a[1..], b[1..], c[1..]);
    }
  }

  lemma {:induction false} LexTotal(a: Bytes, b: Bytes)
    requires a != b
    ensures LexLess(a, b) || LexLess(b, a)
    decreases |a|
  {
    if |a| > 0 && |b| > 0 && a[0] == b[0] {
      LexTotal(a[1..], b[1..]);
    }
  }

  /** How many of the names sort before f: f's index once the names are sorted. */
  function CountLess(names: seq<Bytes>, f: Bytes): (n: nat)
    ensures n <= |names|
    decreases |names|
  {
    if |names| == 0 then 0
    else (if LexLess(names[0], f) then 1 else 0) + CountLess(names[1..], f)
  }

  /** Everything before a sorts before any b after a, and so does a itself. */
  lemma {:induction false} CountLessMonotone(names: seq<Bytes>, a: Bytes, b: Bytes)
    requires LexLess(a, b)
    ensures CountLess(names, b) >= CountLess(names, a) + (if a in names then 1 else 0)
    decreases |names|
  {
    if |names| > 0 {
      CountLessMonotone(names[1..], a, b);
      LexIrreflexive(a);
      if LexLess(names[0], a) {
        LexTransitive(names[0], a, b);
      }
      if a in names && names[0] != a {
        assert a in names[1..];
      }
    }
  }

  /** Counting the names of a concatenation counts each part. */
  lemma {:induction false} CountLessSplit(a: seq<Bytes>, b: seq<Bytes>, f: Bytes)
    ensures CountLess(a + b, f) == CountLess(a, f) + CountLess(b, f)
    decreases |a|
  {
    if a == [] {
      assert a + b == b;
    } else {
      assert (a + b)[1..] == a[1..] + b;
      CountLessSplit(a[1..], b, f);
    }
  }

  /** Distinct names have distinct sorted indexes. */
  lemma SortedIndexesDistinct(names: seq<Bytes>, a: Bytes, b: Bytes)
    requires a in names && b in names && a != b
    ensures CountLess(names, a) != CountLess(names, b)
  {
    LexTotal(a, b);
    if LexLess(a, b) {
      CountLessMonotone(names, a, b);
    } else {
      CountLessMonotone(names, b, a);
    }
  }

  /** A name's sorted index is below the number of names. */
  lemma {:induction false} SortedIndexBound(names: seq<Bytes>, a: Bytes)
    requires a in names
    ensures CountLess(names, a) < |names|
    decreases |names|
  {
    LexIrreflexive(a);
    if names[0] != a {
      assert a in names[1..];
      SortedIndexBound(names[1..], a);
    }
  }

  // ---------------------------------------------------------------------
  // newSchema.

  /** The field names in iteration order. */
  function Names(fields: seq<(Bytes, Field)>): (names: seq<Bytes>)
    ensures |names| == |fields| && forall i :: 0 <= i < |fields| ==> names[i] == fields[i].0
  {
    seq(|fields|, i requires 0 <= i < |fields| => fields[i].0)
  }

  /** Taking the same element out of two equal multisets leaves equal ones. */
  lemma TakeOut<T>(x: seq<T>, y: seq<T>, j: nat)
    requires multiset(x) == multiset(y) && x != [] && j < |y| && y[j] == x[0]
    ensures multiset(x[1..]) == multiset(y[..j] + y[j + 1..])
  {
    assert y == y[..j] + [y[j]] + y[j + 1..];
    assert x == [x[0]] + x[1..];
    assert multiset(y) == multiset(y[..j]) + multiset{y[j]} + multiset(y[j + 1..]);
    assert multiset(y[..j] + y[j + 1..]) == multiset(y[..j]) + multiset(y[j + 1..]);
    assert multiset(x) == multiset{x[0]} + multiset(x[1..]);
    assert multiset(x[1..]) == multiset(x) - multiset{x[0]};
  }

  /** Counting the names of y is counting y[j]'s name and the names of the others. */
  lemma CountLessTakeOut(y: seq<(Bytes, Field)>, j: nat, f: Bytes)
    requires j < |y|
    ensures CountLess(Names(y), f) == CountLess([y[j].0], f) + CountLess(Names(y[..j] + y[j + 1..]), f)
  {
    assert Names(y) == Names(y[..j]) + [y[j].0] + Names(y[j + 1..]);
    assert Names(y[..j] + y[j + 1..]) == Names(y[..j]) + Names(y[j + 1..]);
    CountLessSplit(Names(y[..j]) + [y[j].0], Names(y[j + 1..]), f);
    CountLessSplit(Names(y[..j]), [y[j].0], f);
    CountLessSplit(Names(y[..j]), Names(y[j + 1..]), f);
  }

  /**
   * The sorted index of a name does not depend on the order in which the
   * fields are ranged over: any reordering of the fields gives it.
   */
  lemma {:induction false} SortedIndexUnordered(x: seq<(Bytes, Field)>, y: seq<(Bytes, Field)>, f: Bytes)
    requires multiset(x) == multiset(y)
    ensures CountLess(Names(x), f) == CountLess(Names(y), f)
    decreases |x|
  {
    if x == [] {
      assert |y| == |multiset(y)| == 0;
    } else {
      assert x[0] in multiset(y);
      var j :| 0 <= j < |y| && y[j] == x[0];
      TakeOut(x, y, j);
      SortedIndexUnordered(x[1..], y[..j] + y[j + 1..], f);
      assert Names(x[1..]) == Names(x)[1..];
      CountLessTakeOut(y, j, f);
    }
  }

  /** The keys of a Go map are distinct. */
  predicate DistinctNames(fields: seq<(Bytes, Field)>)
  {
    forall i, j :: 0 <= i < j < |fields| ==> fields[i].0 != fields[j].0
  }

  /** The wire number of a field: 255 for body, Fid - 1 if Fid is set, else the sorted index as a uint8. */
  function VnoOf(name: Bytes, def: Field, names: seq<Bytes>): (v: byte)
    ensures def.fieldType == TypeBody ==> v == MixedVno
    ensures def.fieldType != TypeBody && def.fid > 0 ==> v == def.fid - 1
    ensures def.fieldType != TypeBody && def.fid == 0 ==> v == CountLess(names, name) % 0x100
  {
    if def.fieldType == TypeBody then MixedVno
    else if def.fid > 0 then def.fid - 1
    else CountLess(names, name) % 0x100
  }

  /** newField applied to every field, in iteration order. */
  function Made(fields: seq<(Bytes, Field)>): (made: seq<FieldMeta>)
    ensures |made| == |fields|
    ensures forall i :: 0 <= i < |fields| ==> made[i] == NewField(fields[i].0, fields[i].1)
  {
    seq(|fields|, i requires 0 <= i < |fields| => NewField(fields[i].0, fields[i].1))
  }

  /** The metadata newSchema stores for a field: newField's result with its wire number set. */
  function MetaOf(made: FieldMeta, name: Bytes, def: Field, names: seq<Bytes>): (m: FieldMeta)
    ensures m == made.(vno := VnoOf(name, def, names))
  {
    made.(vno := VnoOf(name, def, names))
  }

  // The kinds a DuplicateField error names.
  const KindId: Bytes := [0x49, 0x64]     // "Id"
  const KindTitle: Bytes := [0x54, 0x69, 0x74, 0x6C, 0x65]  // "Title"
  const KindBody: Bytes := [0x42, 0x6F, 0x64, 0x79]   // "Body"

  /** The fields of Schema that newSchema fills. */
  datatype SchemaData = SchemaData(
    id: Option<FieldMeta>, title: Option<FieldMeta>, body: Option<FieldMeta>,
    strId: Bytes, fieldMetas: map<Bytes, FieldMeta>, vnoMap: map<byte, Bytes>)

  const EmptySchema: SchemaData := SchemaData(None, None, None, [], map[], map[])

  /**
   * Storing fd, the numbered metadata of field name of type t: the first id,
   * title and body field fill their slot and a second one is an error; then
   * vnoMap records the field under its number.
   */
  function Kept(acc: SchemaData, name: Bytes, t: Bytes, fd: FieldMeta): (r: Result<SchemaData>)
    ensures r.Err? ==> r.error.DuplicateField?
  {
    var kept :=
      if t == TypeId then
        if acc.id.None? then Ok(acc.(fieldMetas := acc.fieldMetas[name := fd], id := Some(fd), strId := name))
        else Err(DuplicateField(KindId, name, acc.id.value.name))
      else if t == TypeTitle then
        if acc.title.None? then Ok(acc.(fieldMetas := acc.fieldMetas[name := fd], title := Some(fd)))
        else Err(DuplicateField(KindTitle, name, acc.title.value.name))
      else if t == TypeBody then
        if acc.body.None? then Ok(acc.(fieldMetas := acc.fieldMetas[name := fd], body := Some(fd)))
        else Err(DuplicateField(KindBody, name, acc.body.value.name))
      else Ok(acc.(fieldMetas := acc.fieldMetas[name := fd]));
    match kept
    case Err(e) => Err(e)
    case Ok(a) => Ok(a.(vnoMap := a.vnoMap[fd.vno := name]))
  }

  /** One iteration of newSchema's field loop, given newField's result made. */
  function SchemaStep(acc: SchemaData, name: Bytes, def: Field, made: FieldMeta, names: seq<Bytes>)
    : (r: Result<SchemaData>)
    ensures r.Err? ==> r.error.DuplicateField?
  {
    Kept(acc, name, def.fieldType, MetaOf(made, name, def, names))
  }

  /** newSchema's loop from field i on, then the check for an id field. */
  function SchemaFrom(fields: seq<(Bytes, Field)>, made: seq<FieldMeta>, names: seq<Bytes>, i: nat, acc: SchemaData)
    : Result<SchemaData>
    requires i <= |fields| == |made|
    decreases |fields| - i
  {
    if i == |fields| then (if acc.id.None? then Err(MissingIdField) else Ok(acc))
    else
      match SchemaStep(acc, fields[i].0, fields[i].1, made[i], names)
      case Err(e) => Err(e)
      case Ok(a) => SchemaFrom(fields, made, names, i + 1, a)
  }

  /** Unfolds one step of SchemaFrom. */
  lemma SchemaFromStep(fields: seq<(Bytes, Field)>, made: seq<FieldMeta>, names: seq<Bytes>, i: nat, acc: SchemaData)
    requires i < |fields| == |made|
    ensures var r := Kept(acc, fields[i].0, fields[i].1.fieldType, MetaOf(made[i], fields[i].0, fields[i].1, names));
      SchemaFrom(fields, made, names, i, acc) == if r.Ok? then SchemaFrom(fields, made, names, i + 1, r.value) else Err(r.error)
  {
  }

  /** newSchema(fields). */
  function SchemaSpec(fields: seq<(Bytes, Field)>): Result<SchemaData>
  {
    SchemaFrom(fields, Made(fields), Names(fields), 0, EmptySchema)
  }

  // ---------------------------------------------------------------------
  // What newSchema promises.

  /** The number of fields from i on whose type is t. */
  function CountType(fields: seq<(Bytes, Field)>, i: nat, t: Bytes): nat
    requires i <= |fields|
    decreases |fields| - i
  {
    if i == |fields| then 0
    else (if fields[i].1.fieldType == t then 1 else 0) + CountType(fields, i + 1, t)
  }

  function Filled(o: Option<FieldMeta>): nat
  {
    if o.Some? then 1 else 0
  }

  lemma {:induction false} SchemaFromOk(
    fields: seq<(Bytes, Field)>, made: seq<FieldMeta>, names: seq<Bytes>, i: nat, acc: SchemaData)
    requires i <= |fields| == |made|
    ensures SchemaFrom(fields, made, names, i, acc).Ok? <==>
      (Filled(acc.id) + CountType(fields, i, TypeId) == 1
       && Filled(acc.title) + CountType(fields, i, TypeTitle) <= 1
       && Filled(acc.body) + CountType(fields, i, TypeBody) <= 1)
    ensures Filled(acc.id) + CountType(fields, i, TypeId) == 0
         && Filled(acc.title) + CountType(fields, i, TypeTitle) <= 1
         && Filled(acc.body) + CountType(fields, i, TypeBody) <= 1
        ==> SchemaFrom(fields, made, names, i, acc) == Err(MissingIdField)
    ensures SchemaFrom(fields, made, names, i, acc).Err? ==>
      SchemaFrom(fields, made, names, i, acc).error.DuplicateField?
      || SchemaFrom(fields, made, names, i, acc).error == MissingIdField
    decreases |fields| - i
  {
    TypeNamesDiffer();
    if i < |fields| {
      var (name, def) := fields[i];
      var r := SchemaStep(acc, name, def, made[i], names);
      if r.Ok? {
        SchemaFromOk(fields, made, names, i + 1, r.value);
      } else {
        if def.fieldType == TypeId {
          assert acc.id.Some?;
        }
        if def.fieldType == TypeTitle {
          assert acc.title.Some?;
        }
        if def.fieldType == TypeBody {
          assert acc.body.Some?;
        }
      }
    }
  }

  /**
   * newSchema succeeds exactly when there is one field of type id and at
   * most one title and one body field; otherwise it reports a duplicate or
   * the missing id field.
   */
  lemma SchemaOk(fields: seq<(Bytes, Field)>)
    ensures SchemaSpec(fields).Ok? <==>
      (CountType(fields, 0, TypeId) == 1 && CountType(fields, 0, TypeTitle) <= 1 && CountType(fields, 0, TypeBody) <= 1)
    ensures SchemaSpec(fields).Err? ==> SchemaSpec(fields).error.DuplicateField? || SchemaSpec(fields).error == MissingIdField
    ensures CountType(fields, 0, TypeId) == 0 && CountType(fields, 0, TypeTitle) <= 1 && CountType(fields, 0, TypeBody) <= 1
        ==> SchemaSpec(fields) == Err(MissingIdField)
  {
    SchemaFromOk(fields, Made(fields), Names(fields), 0, EmptySchema);
  }

  /** What holds of the schema built from the first i fields. */
  ghost predicate Built(fields: seq<(Bytes, Field)>, made: seq<FieldMeta>, names: seq<Bytes>, i: nat, acc: SchemaData)
    requires i <= |fields| == |made|
  {
    (forall n :: n in acc.fieldMetas <==> n in Names(fields)[..i])
    && (forall j :: 0 <= j < i ==> acc.fieldMetas[fields[j].0] == MetaOf(made[j], fields[j].0, fields[j].1, names))
    && IdStored(acc)
    && VnosConsistent(acc.fieldMetas, acc.vnoMap)
  }

  /** Id is the stored metadata of the field StrId names. */
  predicate IdStored(acc: SchemaData)
  {
    acc.id.Some? ==>
      acc.strId in acc.fieldMetas && acc.id == Some(acc.fieldMetas[acc.strId]) && acc.id.value.fieldType == TypeId
  }

  /** Every wire number in vm names a field carrying it, and every field's number is in vm. */
  ghost predicate VnosConsistent(fm: map<Bytes, FieldMeta>, vm: map<byte, Bytes>)
  {
    (forall v :: v in vm ==> vm[v] in fm && fm[vm[v]].vno == v)
    && (forall n :: n in fm ==> fm[n].vno in vm)
  }

  /** What one successful step changes. */
  lemma StepShape(acc: SchemaData, name: Bytes, def: Field, made: FieldMeta, names: seq<Bytes>)
    requires SchemaStep(acc, name, def, made, names).Ok?
    ensures var a := SchemaStep(acc, name, def, made, names).value;
      var fd := MetaOf(made, name, def, names);
      && a.fieldMetas == acc.fieldMetas[name := fd]
      && a.vnoMap == acc.vnoMap[fd.vno := name]
      && (if def.fieldType == TypeId then acc.id.None? && a.id == Some(fd) && a.strId == name
          else a.id == acc.id && a.strId == acc.strId)
  {
  }

  /** One stored field, given by the changes StepShape describes, extends a build by one. */
  lemma StepBuilds(
    fields: seq<(Bytes, Field)>, made: seq<FieldMeta>, names: seq<Bytes>, i: nat, acc: SchemaData, a: SchemaData)
    requires DistinctNames(fields) && i < |fields| == |made| && Built(fields, made, names, i, acc)
    requires made[i].fieldType == fields[i].1.fieldType
    requires var fd := MetaOf(made[i], fields[i].0, fields[i].1, names);
      && a.fieldMetas == acc.fieldMetas[fields[i].0 := fd]
      && a.vnoMap == acc.vnoMap[fd.vno := fields[i].0]
      && (if fields[i].1.fieldType == TypeId then acc.id.None? && a.id == Some(fd) && a.strId == fields[i].0
          else a.id == acc.id && a.strId == acc.strId)
    ensures Built(fields, made, names, i + 1, a)
  {
    var name := fields[i].0;
    var fd := MetaOf(made[i], name, fields[i].1, names);
    StepKeys(fields, i, acc.fieldMetas, a.fieldMetas, fd);
    StepEntries(fields, made, names, i, acc.fieldMetas, a.fieldMetas, fd);
    assert name !in acc.fieldMetas by {
      assert forall n :: n in acc.fieldMetas <==> n in Names(fields)[..i];
      assert forall k :: 0 <= k < i ==> Names(fields)[..i][k] != name;
    }
    assert IdStored(a);
    VnoMapStep(acc.fieldMetas, acc.vnoMap, name, fd);
  }

  /** Storing the i-th field adds its name to the keys. */
  lemma StepKeys(fields: seq<(Bytes, Field)>, i: nat, fm: map<Bytes, FieldMeta>, fm': map<Bytes, FieldMeta>, fd: FieldMeta)
    requires i < |fields| && forall n :: n in fm <==> n in Names(fields)[..i]
    requires fm' == fm[fields[i].0 := fd]
    ensures forall n :: n in fm' <==> n in Names(fields)[..i + 1]
  {
    assert Names(fields)[..i + 1] == Names(fields)[..i] + [fields[i].0];
  }

  /** Storing the i-th field keeps the earlier entries, since the names are distinct. */
  lemma StepEntries(
    fields: seq<(Bytes, Field)>, made: seq<FieldMeta>, names: seq<Bytes>, i: nat,
    fm: map<Bytes, FieldMeta>, fm': map<Bytes, FieldMeta>, fd: FieldMeta)
    requires DistinctNames(fields) && i < |fields| == |made|
    requires forall n :: n in fm <==> n in Names(fields)[..i]
    requires forall j :: 0 <= j < i ==> fm[fields[j].0] == MetaOf(made[j], fields[j].0, fields[j].1, names)
    requires fd == MetaOf(made[i], fields[i].0, fields[i].1, names) && fm' == fm[fields[i].0 := fd]
    ensures forall j :: 0 <= j < i + 1 ==> fields[j].0 in fm' && fm'[fields[j].0] == MetaOf(made[j], fields[j].0, fields[j].1, names)
  {
    forall j | 0 <= j < i + 1
      ensures fields[j].0 in fm' && fm'[fields[j].0] == MetaOf(made[j], fields[j].0, fields[j].1, names)
    {
      if j < i {
        assert Names(fields)[..i][j] == fields[j].0;
        assert fields[j].0 != fields[i].0;
      }
    }
  }

  /** vnoMap keeps pointing at fields that carry each number when one new field is stored. */
  lemma VnoMapStep(fm: map<Bytes, FieldMeta>, vm: map<byte, Bytes>, name: Bytes, fd: FieldMeta)
    requires name !in fm && VnosConsistent(fm, vm)
    ensures VnosConsistent(fm[name := fd], vm[fd.vno := name])
  {
  }

  lemma {:induction false} SchemaFromBuilds(
    fields: seq<(Bytes, Field)>, made: seq<FieldMeta>, names: seq<Bytes>, i: nat, acc: SchemaData)
    requires DistinctNames(fields) && i <= |fields| == |made| && Built(fields, made, names, i, acc)
    requires SchemaFrom(fields, made, names, i, acc).Ok?
    requires forall j :: 0 <= j < |fields| ==> made[j].fieldType == fields[j].1.fieldType
    ensures Built(fields, made, names, |fields|, SchemaFrom(fields, made, names, i, acc).value)
    ensures SchemaFrom(fields, made, names, i, acc).value.id.Some?
    decreases |fields| - i
  {
    if i < |fields| {
      StepShape(acc, fields[i].0, fields[i].1, made[i], names);
      StepBuilds(fields, made, names, i, acc, SchemaStep(acc, fields[i].0, fields[i].1, made[i], names).value);
      SchemaFromBuilds(fields, made, names, i + 1, SchemaStep(acc, fields[i].0, fields[i].1, made[i], names).value);
    }
  }

  /**
   * A schema newSchema builds holds every field with newField's metadata
   * and its wire number, names its id field in StrId, and maps each wire
   * number back to a field carrying it.
   */
  lemma SchemaContents(fields: seq<(Bytes, Field)>)
    requires DistinctNames(fields) && SchemaSpec(fields).Ok?
    ensures var d := SchemaSpec(fields).value;
      && (forall n :: n in d.fieldMetas <==> n in Names(fields))
      && (forall j :: 0 <= j < |fields| ==>
            d.fieldMetas[fields[j].0] == NewField(fields[j].0, fields[j].1).(vno := VnoOf(fields[j].0, fields[j].1, Names(fields))))
      && d.id.Some? && d.strId in d.fieldMetas && d.id == Some(d.fieldMetas[d.strId]) && d.id.value.fieldType == TypeId
      && VnosConsistent(d.fieldMetas, d.vnoMap)
  {
    MadeTypes(fields);
    SchemaFromContents(fields, Made(fields), Names(fields), SchemaSpec(fields).value);
  }

  lemma MadeTypes(fields: seq<(Bytes, Field)>)
    ensures forall j :: 0 <= j < |fields| ==> Made(fields)[j].fieldType == fields[j].1.fieldType
  {
  }

  /** SchemaContents for any precomputed metadata made. */
  lemma SchemaFromContents(fields: seq<(Bytes, Field)>, made: seq<FieldMeta>, names: seq<Bytes>, d: SchemaData)
    requires DistinctNames(fields) && |made| == |fields| && names == Names(fields)
    requires forall j :: 0 <= j < |fields| ==> made[j].fieldType == fields[j].1.fieldType
    requires SchemaFrom(fields, made, names, 0, EmptySchema) == Ok(d)
    ensures forall n :: n in d.fieldMetas <==> n in names
    ensures forall j :: 0 <= j < |fields| ==> d.fieldMetas[fields[j].0] == made[j].(vno := VnoOf(fields[j].0, fields[j].1, names))
    ensures d.id.Some? && d.strId in d.fieldMetas && d.id == Some(d.fieldMetas[d.strId]) && d.id.value.fieldType == TypeId
    ensures VnosConsistent(d.fieldMetas, d.vnoMap)
  {
    BuiltEmpty(fields, made, names);
    SchemaFromBuilds(fields, made, names, 0, EmptySchema);
    BuiltAll(fields, made, names, d);
  }

  lemma BuiltEmpty(fields: seq<(Bytes, Field)>, made: seq<FieldMeta>, names: seq<Bytes>)
    requires |made| == |fields|
    ensures Built(fields, made, names, 0, EmptySchema)
  {
    assert Names(fields)[..0] == [];
  }

  lemma BuiltAll(fields: seq<(Bytes, Field)>, made: seq<FieldMeta>, names: seq<Bytes>, d: SchemaData)
    requires |made| == |fields| && names == Names(fields) && Built(fields, made, names, |fields|, d)
    ensures forall n :: n in d.fieldMetas <==> n in names
    ensures forall j :: 0 <= j < |fields| ==> d.fieldMetas[fields[j].0] == made[j].(vno := VnoOf(fields[j].0, fields[j].1, names))
  {
    assert names[..|fields|] == names;
  }

  /** The wire number each stored field carries. */
  lemma SchemaVnos(fields: seq<(Bytes, Field)>)
    requires DistinctNames(fields) && SchemaSpec(fields).Ok?
    ensures var d := SchemaSpec(fields).value;
      && (forall n :: n in d.fieldMetas <==> n in Names(fields))
      && (forall j :: 0 <= j < |fields| ==> d.fieldMetas[fields[j].0].vno == VnoOf(fields[j].0, fields[j].1, Names(fields)))
  {
    SchemaContents(fields);
  }

  /** The stored names, once stored. */
  lemma StoredKeys(fields: seq<(Bytes, Field)>)
    requires DistinctNames(fields) && SchemaSpec(fields).Ok?
    ensures forall n :: n in SchemaSpec(fields).value.fieldMetas <==> n in Names(fields)
  {
    SchemaVnos(fields);
  }

  /** The wire numbers of all stored fields, for a given result d. */
  lemma StoredVnos(fields: seq<(Bytes, Field)>, d: SchemaData)
    requires DistinctNames(fields) && SchemaSpec(fields) == Ok(d)
    ensures forall j :: 0 <= j < |fields| ==>
      fields[j].0 in d.fieldMetas && d.fieldMetas[fields[j].0].vno == VnoOf(fields[j].0, fields[j].1, Names(fields))
  {
    SchemaVnos(fields);
  }

  /** When the wire numbers are distinct, vnoMap is the exact inverse of the field-to-vno map. */
  lemma VnoMapInverse(fields: seq<(Bytes, Field)>)
    requires DistinctNames(fields) && SchemaSpec(fields).Ok?
    requires var d := SchemaSpec(fields).value;
      forall a, b :: a in d.fieldMetas && b in d.fieldMetas && a != b ==> d.fieldMetas[a].vno != d.fieldMetas[b].vno
    ensures var d := SchemaSpec(fields).value;
      forall n :: n in d.fieldMetas ==> d.fieldMetas[n].vno in d.vnoMap && d.vnoMap[d.fieldMetas[n].vno] == n
  {
    SchemaContents(fields);
  }

  // ---------------------------------------------------------------------
  // The term and index accumulators.

  /** AddTerm: a zero weight counts as 1, and weights of a repeated term add up as a uint8. */
  function TermsAdded(terms: map<Bytes, map<Bytes, byte>>, field: Bytes, term: Bytes, weight: byte)
    : (r: map<Bytes, map<Bytes, byte>>)
    ensures r.Keys == terms.Keys + {field}
    ensures forall f :: f in terms && f != field ==> r[f] == terms[f]
    ensures var w := if weight == 0 then 1 else weight;
      var old_ := if field in terms then terms[field] else map[];
      r[field].Keys == old_.Keys + {term}
      && (forall t :: t in old_ && t != term ==> r[field][t] == old_[t])
      && r[field][term] == (if term in old_ then (old_[term] + w) % 0x100 else w)
  {
    var w := if weight == 0 then 1 else weight;
    var m: map<Bytes, byte> := if field in terms then terms[field] else map[];
    var t: byte := if term in m then (m[term] as int + w as int) % 0x100 else w;
    terms[field := m[term := t]]
  }

  /** AddIndex: empty input is ignored; later indexes are appended after a newline. */
  function IndexAdded(indexes: map<Bytes, Bytes>, field: Bytes, index: Bytes): (r: map<Bytes, Bytes>)
    ensures index == [] ==> r == indexes
    ensures index != [] ==> r.Keys == indexes.Keys + {field}
    ensures index != [] ==> forall f :: f in indexes && f != field ==> r[f] == indexes[f]
    ensures index != [] ==> r[field] == (if field in indexes then indexes[field] + [Newline] + index else index)
  {
    if index == [] then indexes
    else if field in indexes then indexes[field := indexes[field] + [Newline] + index]
    else indexes[field := index]
  }

  /** Adding a term twice with the same weight doubles it, modulo 256. */
  lemma AddTermTwice(field: Bytes, term: Bytes, weight: byte)
    ensures var terms := TermsAdded(TermsAdded(map[], field, term, weight), field, term, weight);
      terms[field][term] == (2 * (if weight == 0 then 1 else weight)) % 0x100
  {
  }

  /** Two indexes for a fresh field are kept one per line. */
  lemma AddIndexTwice(indexes: map<Bytes, Bytes>, field: Bytes, first: Bytes, second: Bytes)
    requires field !in indexes && first != [] && second != []
    ensures IndexAdded(IndexAdded(indexes, field, first), field, second)[field] == first + [Newline] + second
  {
  }

  /** The Schema object. */
  class Schema {
    var id: Option<FieldMeta>
    var title: Option<FieldMeta>
    var body: Option<FieldMeta>
    var strId: Bytes
    var fieldMetas: map<Bytes, FieldMeta>
    var vnoMap: map<byte, Bytes>
    var terms: map<Bytes, map<Bytes, byte>>
    var indexes: map<Bytes, Bytes>

    function Data(): SchemaData
      reads this
    {
      SchemaData(id, title, body, strId, fieldMetas, vnoMap)
    }

    /** The empty schema newSchema starts from. */
    constructor ()
      ensures Data() == EmptySchema && terms == map[] && indexes == map[]
    {
      id, title, body := None, None, None;
      strId := [];
      fieldMetas, vnoMap := map[], map[];
      terms, indexes := map[], map[];
    }

    /** AddTerm(field, term, weight). */
    method AddTerm(field: Bytes, term: Bytes, weight: byte)
      modifies this
      ensures terms == TermsAdded(old(terms), field, term, weight)
      ensures Data() == old(Data()) && indexes == old(indexes)
    {
      var w := weight;
      if w == 0 {
        w := 1;
      }
      var m: map<Bytes, byte> := map[];
      if field in terms {
        m := terms[field];
      }
      if term in m {
        var sum: int := m[term] as int + w as int;
        m := m[term := sum % 0x100];
      } else {
        m := m[term := w];
      }
      terms := terms[field := m];
    }

    /** AddIndex(field, index). */
    method AddIndex(field: Bytes, index: Bytes)
      modifies this
      ensures indexes == IndexAdded(old(indexes), field, index)
      ensures Data() == old(Data()) && terms == old(terms)
    {
      if index == [] {
        return;
      }
      if field !in indexes {
        indexes := indexes[field := index];
      } else {
        indexes := indexes[field := indexes[field] + [Newline] + index];
      }
    }

    /** GetTerms(field): the field's terms, or nil and false. */
    function GetTerms(field: Bytes): (r: Option<map<Bytes, byte>>)
      reads this
      ensures r.Some? <==> field in terms
      ensures r.Some? ==> r.value == terms[field]
    {
      if field in terms then Some(terms[field]) else None
    }

    /** GetIndex(field): the field's index text, or "" and false. */
    function GetIndex(field: Bytes): (r: (Bytes, bool))
      reads this
      ensures r.1 <==> field in indexes
      ensures r.0 == if field in indexes then indexes[field] else []
    {
      if field in indexes then (indexes[field], true) else ([], false)
    }

    function VnoMap(): map<byte, Bytes>
      reads this
    {
      vnoMap
    }

    /** The body of newSchema's field loop once fd is numbered. */
    method Store(name: Bytes, t: Bytes, fd: FieldMeta) returns (err: Option<Error>)
      modifies this
      ensures Kept(old(Data()), name, t, fd).Ok? ==> err.None? && Data() == Kept(old(Data()), name, t, fd).value
      ensures Kept(old(Data()), name, t, fd).Err? ==> err == Some(Kept(old(Data()), name, t, fd).error)
      ensures terms == old(terms) && indexes == old(indexes)
    {
      if t == TypeId {
        if id.None? {
          fieldMetas := fieldMetas[name := fd];
          id := Some(fd);
          strId := name;
        } else {
          return Some(DuplicateField(KindId, name, id.value.name));
        }
      } else if t == TypeTitle {
        if title.None? {
          fieldMetas := fieldMetas[name := fd];
          title := Some(fd);
        } else {
          return Some(DuplicateField(KindTitle, name, title.value.name));
        }
      } else if t == TypeBody {
        if body.None? {
          fieldMetas := fieldMetas[name := fd];
          body := Some(fd);
        } else {
          return Some(DuplicateField(KindBody, name, body.value.name));
        }
      } else {
        fieldMetas := fieldMetas[name := fd];
      }
      vnoMap := vnoMap[fd.vno := name];
      return None;
    }

    /** newSchema's field loop: numbers and stores every field in order, stopping at the first error. */
    method StoreFields(fields: seq<(Bytes, Field)>, fs: seq<Bytes>, nvo: map<Bytes, byte>, ghost made: seq<FieldMeta>)
      returns (err: Option<Error>)
      requires fs == Names(fields)
      requires forall n :: n in nvo <==> n in fs
      requires forall n :: n in nvo ==> nvo[n] == CountLess(fs, n) % 0x100
      requires |made| == |fields| && forall j :: 0 <= j < |fields| ==> made[j] == NewField(fields[j].0, fields[j].1)
      modifies this
      ensures err.None? ==> SchemaFrom(fields, made, fs, 0, old(Data())) == SchemaFrom(fields, made, fs, |fields|, Data())
      ensures err.Some? ==> SchemaFrom(fields, made, fs, 0, old(Data())) == Err(err.value)
      ensures terms == old(terms) && indexes == old(indexes)
    {
      ghost var spec := SchemaFrom(fields, made, fs, 0, Data());
      err := None;
      var i := 0;
      while i < |fields|
        invariant 0 <= i <= |fields| && err.None?
        invariant terms == old(terms) && indexes == old(indexes)
        invariant SchemaFrom(fields, made, fs, i, Data()) == spec
      {
        var (f, v) := fields[i];
        var fd := NewField(f, v);
        var vno := Numbered(f, v, fs, nvo);
        fd := fd.(vno := vno);
        assert fd == MetaOf(made[i], f, v, fs);
        ghost var before := Data();
        err := Store(f, v.fieldType, fd);
        StoreStep(fields, made, fs, i, before, fd, spec, err, Data());
        if err.Some? {
          return;
        }
        i := i + 1;
      }
    }
  }

  /** The sorted index of every name, as newSchema's nvoMap. */
  method SortedIndexes(names: seq<Bytes>) returns (nvo: map<Bytes, byte>)
    ensures forall n :: n in nvo <==> n in names
    ensures forall n :: n in nvo ==> nvo[n] == CountLess(names, n) % 0x100
  {
    nvo := map[];
    var i := 0;
    while i < |names|
      invariant 0 <= i <= |names|
      invariant forall n :: n in nvo <==> n in names[..i]
      invariant forall n :: n in nvo ==> nvo[n] == CountLess(names, n) % 0x100
    {
      assert names[..i + 1] == names[..i] + [names[i]];
      nvo := nvo[names[i] := CountLess(names, names[i]) % 0x100];
      i := i + 1;
    }
    assert names[..i] == names;
  }

  /** The keys of the field map, in iteration order. */
  method Keys(fields: seq<(Bytes, Field)>) returns (fs: seq<Bytes>)
    ensures fs == Names(fields)
  {
    fs := [];
    var k := 0;
    while k < |fields|
      invariant 0 <= k <= |fields| && fs == Names(fields)[..k]
    {
      assert Names(fields)[..k + 1] == Names(fields)[..k] + [fields[k].0];
      fs := fs + [fields[k].0];
      k := k + 1;
    }
    assert fs == Names(fields)[..|fields|];
  }

  /** One pass of newSchema's loop keeps the remaining fold equal to spec. */
  lemma StoreStep(fields: seq<(Bytes, Field)>, made: seq<FieldMeta>, names: seq<Bytes>, i: nat,
                  before: SchemaData, fd: FieldMeta, spec: Result<SchemaData>, err: Option<Error>, after: SchemaData)
    requires i < |fields| == |made| && fd == MetaOf(made[i], fields[i].0, fields[i].1, names)
    requires SchemaFrom(fields, made, names, i, before) == spec
    requires var r := Kept(before, fields[i].0, fields[i].1.fieldType, fd);
      (r.Ok? ==> err.None? && after == r.value) && (r.Err? ==> err == Some(r.error))
    ensures err.None? ==> SchemaFrom(fields, made, names, i + 1, after) == spec
    ensures err.Some? ==> spec == Err(err.value)
  {
    SchemaFromStep(fields, made, names, i, before);
  }

  /** The wire number newSchema gives a field, with nvo the sorted indexes of names. */
  method Numbered(name: Bytes, def: Field, names: seq<Bytes>, nvo: map<Bytes, byte>) returns (vno: byte)
    requires name in names
    requires forall n :: n in nvo <==> n in names
    requires forall n :: n in nvo ==> nvo[n] == CountLess(names, n) % 0x100
    ensures vno == VnoOf(name, def, names)
  {
    if def.fieldType == TypeBody {
      vno := MixedVno;
    } else if def.fid > 0 {
      vno := def.fid - 1;
    } else {
      vno := nvo[name];
    }
  }

  /** newSchema(fields): a fresh schema, or the first error. */
  method NewSchema(fields: seq<(Bytes, Field)>) returns (sc: Schema?, err: Option<Error>)
    ensures SchemaSpec(fields).Ok? ==>
      err.None? && sc != null && fresh(sc) && sc.Data() == SchemaSpec(fields).value
      && sc.terms == map[] && sc.indexes == map[]
    ensures SchemaSpec(fields).Err? ==> sc == null && err == Some(SchemaSpec(fields).error)
  {
    var s := new Schema();
    var fs := Keys(fields);
    var nvoMap := SortedIndexes(fs);
    err := s.StoreFields(fields, fs, nvoMap, Made(fields));
    if err.Some? {
      return null, err;
    }
    if s.id.None? {
      return null, Some(MissingIdField);
    }
    return s, None;
  }
}
