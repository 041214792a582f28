/** The association builders: every record an association builds is
    constructed with the caller's attributes and options, then given the
    association scope's attributes without protection, except those the
    caller set itself; the foreign key always comes from the scope.
    Collections fan out over arrays; `create` refuses an unsaved owner;
    `create!` differs from `create` only in raising on a failed save. */
module Associations {
  import opened Values
  import opened Errors
  import opened Authorization
  import opened ModelClasses
  import opened Assignment
  import opened Construction
  import opened FanOut
  import opened Persistence

  /** An association of an owner: the class it builds, whether the owner is
      saved, the attributes its scope imposes (string keys), the foreign key,
      and the records in memory. */
  datatype Association = Association(
    klass: ModelClass,
    ownerPersisted: bool,
    scope: seq<Entry>,
    foreignKey: string,
    target: seq<Record>)

  datatype AssocOutcome = AssocOutcome(assoc: Association, result: Result<Built>)

  /** `Association#build_record`. */
  function BuildRecord(catalog: Catalog, a: Association, input: Value, opts: Options, fuel: nat): (r: Result<Record>)
    ensures New(catalog, a.klass, input, opts, fuel).Err? ==> r == Err(New(catalog, a.klass, input, opts, fuel).error)
    ensures r.Ok? ==> New(catalog, a.klass, input, opts, fuel).Ok?
                      && r.value.cls == New(catalog, a.klass, input, opts, fuel).value.cls
                      && !r.value.persisted && r.value.options == None
  {
    var rec :- New(catalog, a.klass, input, opts, fuel);
    var scoped := ExceptNames(a.scope, Changed(rec) - {a.foreignKey});
    var o := Assign(rec, Dict(scoped, Plain), WithoutProtection, fuel);
    if o.error.Some? then Err(o.error.value) else Ok(o.rec)
  }

  /** The scope's attributes as `build_record` assigns them to `rec`. */
  function ScopeFor(a: Association, rec: Record): seq<Entry> {
    ExceptNames(a.scope, Changed(rec) - {a.foreignKey})
  }

  /** A scope the builder can apply: string keys, no key twice, each naming
      a column of `cls` that has no custom or nested setter. */
  predicate ScopeAppliesTo(a: Association, cls: ModelClass) {
    && AllText(a.scope) && DistinctKeys(a.scope)
    && forall i :: 0 <= i < |a.scope| ==>
         var n := a.scope[i].key.name;
         !IsMultiparameter(n) && n in cls.columns && n !in cls.setters && n !in cls.nestedSetters
  }

  lemma {:induction false} ExceptNamesKeepsHash(es: seq<Entry>, names: set<string>)
    requires AllText(es) && DistinctKeys(es)
    ensures AllText(ExceptNames(es, names)) && DistinctKeys(ExceptNames(es, names))
    ensures KeySet(ExceptNames(es, names)) <= KeySet(es)
  {
    if es != [] {
      assert AllText(es[1..]) by {
        forall i | 0 <= i < |es[1..]| ensures es[1..][i].key.Text? {
          assert es[1..][i] == es[i + 1];
        }
      }
      ExceptNamesKeepsHash(es[1..], names);
      var r := ExceptNames(es, names);
      if !(es[0].key.Text? && es[0].key.name in names) {
        assert r[1..] == ExceptNames(es[1..], names);
      }
    }
  }

  /** The scope as assigned is a hash of string keys, each naming a plain column. */
  lemma ScopePlain(a: Association, rec: Record)
    requires ScopeAppliesTo(a, rec.cls)
    ensures AllText(ScopeFor(a, rec)) && DistinctKeys(ScopeFor(a, rec))
    ensures forall i :: 0 <= i < |ScopeFor(a, rec)| && !IsMultiparameter(ScopeFor(a, rec)[i].key.name) ==>
              Plainly(rec.cls, ScopeFor(a, rec)[i].key.name)
  {
    var s := ScopeFor(a, rec);
    ExceptNamesKeepsHash(a.scope, Changed(rec) - {a.foreignKey});
    forall i | 0 <= i < |s| && !IsMultiparameter(s[i].key.name) ensures Plainly(rec.cls, s[i].key.name) {
      assert s[i] in a.scope;
      var j :| 0 <= j < |a.scope| && a.scope[j] == s[i];
    }
  }

  /** The scope assignment of `build_record` raises nothing and assigns the
      scope exactly as given. */
  lemma ScopeAssignment(a: Association, rec: Record, fuel: nat)
    requires ScopeAppliesTo(a, rec.cls)
    ensures Assign(rec, Dict(ScopeFor(a, rec), Plain), WithoutProtection, fuel).error == None
    ensures ScopeFor(a, rec) != [] ==>
              Surviving(rec.cls, StringifyKeys(ScopeFor(a, rec)), Plain, WithoutProtection) == Ok(ScopeFor(a, rec))
  {
    var s := ScopeFor(a, rec);
    ScopePlain(a, rec);
    if s != [] {
      StringifyKeysIdentity(s);
      AssignOrder(rec, Dict(s, Plain), WithoutProtection, fuel, s);
    }
  }

  /** With a scope the builder can apply, `build_record` raises only when
      `new` does: the scope assignment itself never raises. */
  lemma BuildRecordSucceeds(catalog: Catalog, a: Association, input: Value, opts: Options, fuel: nat)
    requires New(catalog, a.klass, input, opts, fuel).Ok?
    requires ScopeAppliesTo(a, New(catalog, a.klass, input, opts, fuel).value.cls)
    ensures BuildRecord(catalog, a, input, opts, fuel).Ok?
  {
    ScopeAssignment(a, New(catalog, a.klass, input, opts, fuel).value, fuel);
  }

  /** The foreign key always comes from the scope, whatever the caller
      passed for it and under whatever role. */
  lemma ForeignKeyFromScope(catalog: Catalog, a: Association, input: Value, opts: Options, fuel: nat, v: Value)
    requires New(catalog, a.klass, input, opts, fuel).Ok?
    requires ScopeAppliesTo(a, New(catalog, a.klass, input, opts, fuel).value.cls)
    requires Entry(Text(a.foreignKey), v) in a.scope
    requires a.foreignKey in New(catalog, a.klass, input, opts, fuel).value.values
    ensures BuildRecord(catalog, a, input, opts, fuel).Ok?
    ensures BuildRecord(catalog, a, input, opts, fuel).value.values[a.foreignKey] == v
  {
    var rec := New(catalog, a.klass, input, opts, fuel).value;
    ScopeAssignment(a, rec, fuel);
    ScopeWritesForeignKey(a, rec, fuel, v);
  }

  /** Assigning the scope writes the scope's foreign-key value. */
  lemma ScopeWritesForeignKey(a: Association, rec: Record, fuel: nat, v: Value)
    requires ScopeAppliesTo(a, rec.cls)
    requires Entry(Text(a.foreignKey), v) in a.scope && a.foreignKey in rec.values
    ensures Assign(rec, Dict(ScopeFor(a, rec), Plain), WithoutProtection, fuel).rec.values[a.foreignKey] == v
  {
    var s := ScopeFor(a, rec);
    ScopeAssignment(a, rec, fuel);
    ScopePlain(a, rec);
    var e := Entry(Text(a.foreignKey), v);
    assert e in s;
    var i :| 0 <= i < |a.scope| && a.scope[i] == e;
    AssignWritesSurvivor(rec, Dict(s, Plain), WithoutProtection, fuel, s, e);
  }

  /** Assigning the scope leaves a column the caller changed alone, unless
      it is the foreign key. */
  lemma ScopeKeepsChanged(a: Association, rec: Record, fuel: nat, n: string)
    requires ScopeAppliesTo(a, rec.cls)
    requires n in Changed(rec) && n != a.foreignKey
    ensures Assign(rec, Dict(ScopeFor(a, rec), Plain), WithoutProtection, fuel).rec.values[n] == rec.values[n]
  {
    var s := ScopeFor(a, rec);
    ScopeAssignment(a, rec, fuel);
    ScopePlain(a, rec);
    if s != [] {
      if n in NameSet(s) {
        var e := NameSetWitness(s, n);
        assert false;
      }
      AssignKeepsOthers(rec, Dict(s, Plain), WithoutProtection, fuel, s, n);
    }
  }

  /** A column the caller changed keeps the caller's value, scope or not,
      unless it is the foreign key. */
  lemma CallerChangesKept(catalog: Catalog, a: Association, input: Value, opts: Options, fuel: nat, n: string)
    requires New(catalog, a.klass, input, opts, fuel).Ok?
    requires ScopeAppliesTo(a, New(catalog, a.klass, input, opts, fuel).value.cls)
    requires n in Changed(New(catalog, a.klass, input, opts, fuel).value) && n != a.foreignKey
    ensures BuildRecord(catalog, a, input, opts, fuel).Ok?
    ensures BuildRecord(catalog, a, input, opts, fuel).value.values[n] == New(catalog, a.klass, input, opts, fuel).value.values[n]
  {
    var rec := New(catalog, a.klass, input, opts, fuel).value;
    ScopeAssignment(a, rec, fuel);
    ScopeKeepsChanged(a, rec, fuel, n);
  }

  // ---------------------------------------------------------------------
  // Collection associations

  /** The step `build` takes for one non-array argument. */
  function BuildStep(catalog: Catalog, a: Association, opts: Options, fuel: nat): Value -> Result<Record> {
    x => BuildRecord(catalog, a, x, opts, fuel)
  }

  /** `CollectionAssociation#build`: an array builds each element in turn,
      every other argument builds one record and adds it to the target. */
  function CollectionBuild(catalog: Catalog, a: Association, input: Value, opts: Options, fuel: nat): (o: AssocOutcome)
    ensures o.assoc.klass == a.klass && o.assoc.scope == a.scope && o.assoc.foreignKey == a.foreignKey
    ensures o.assoc.ownerPersisted == a.ownerPersisted
    ensures |a.target| <= |o.assoc.target| && o.assoc.target[..|a.target|] == a.target
    ensures !input.List? ==>
              var b := BuildRecord(catalog, a, input, opts, fuel);
              && (b.Ok? ==> o == AssocOutcome(a.(target := a.target + [b.value]), Ok(One(b.value))))
              && (b.Err? ==> o == AssocOutcome(a, Err(b.error)))
  {
    var f := Each(BuildStep(catalog, a, opts, fuel), a.target, input);
    AssocOutcome(a.(target := f.made), f.result)
  }

  /** On an array of hashes, `build` yields one record per element, in
      order, each the record building that element alone yields with the
      same options, and appends them to the target in that order. */
  lemma BuildArray(catalog: Catalog, a: Association, items: seq<Value>, opts: Options, fuel: nat)
    requires forall k :: 0 <= k < |items| ==> !items[k].List? && BuildRecord(catalog, a, items[k], opts, fuel).Ok?
    ensures var built := Results(BuildStep(catalog, a, opts, fuel), items);
            && |built| == |items|
            && (forall k :: 0 <= k < |items| ==> built[k] == BuildRecord(catalog, a, items[k], opts, fuel).value)
            && CollectionBuild(catalog, a, List(items), opts, fuel) ==
                 AssocOutcome(a.(target := a.target + built), Ok(Many(Ones(built))))
  {
    EachFlat(BuildStep(catalog, a, opts, fuel), a.target, items);
  }

  /** The step `create_record` takes for one non-array argument: build,
      save, and either raise or add the record, saved or not, to the target. */
  function CreateStep(catalog: Catalog, a: Association, opts: Options, raise: bool, valid: Record -> bool, fuel: nat): Value -> Result<Record> {
    x =>
      match BuildRecord(catalog, a, x, opts, fuel)
      case Err(e) => Err(e)
      case Ok(rec) =>
        if !valid(rec) && raise then Err(RecordInvalid) else Ok(Save(rec, valid))
  }

  /** `CollectionAssociation#create_record`: an unsaved owner raises before
      anything is built; otherwise it fans out like `build`, saving each
      record before it joins the target. The source repeats the owner check
      for every element of an array; here it is made once, which gives the
      same outcome since the owner does not change in between. */
  function CreateRecord(catalog: Catalog, a: Association, input: Value, opts: Options, raise: bool,
                        valid: Record -> bool, fuel: nat): (o: AssocOutcome)
    ensures !a.ownerPersisted ==> o == AssocOutcome(a, Err(RecordNotSaved))
    ensures o.assoc.klass == a.klass && o.assoc.scope == a.scope && o.assoc.foreignKey == a.foreignKey
    ensures o.assoc.ownerPersisted == a.ownerPersisted
    ensures |a.target| <= |o.assoc.target| && o.assoc.target[..|a.target|] == a.target
  {
    if !a.ownerPersisted then AssocOutcome(a, Err(RecordNotSaved))
    else
      var f := Each(CreateStep(catalog, a, opts, raise, valid, fuel), a.target, input);
      AssocOutcome(a.(target := f.made), f.result)
  }

  /** `create` and `create!` on a hash: the same record when its save
      succeeds; when it fails, `create` returns it unsaved in the target and
      `create!` raises `RecordInvalid` and leaves the target alone. */
  lemma CreateVersusCreateBang(catalog: Catalog, a: Association, input: Value, opts: Options,
                               valid: Record -> bool, fuel: nat)
    requires a.ownerPersisted && !input.List?
    requires BuildRecord(catalog, a, input, opts, fuel).Ok?
    ensures var rec := BuildRecord(catalog, a, input, opts, fuel).value;
            var soft := CreateRecord(catalog, a, input, opts, false, valid, fuel);
            var hard := CreateRecord(catalog, a, input, opts, true, valid, fuel);
            && (valid(rec) ==> soft == hard && soft.result == Ok(One(rec.(persisted := true))))
            && (!valid(rec) ==> soft.result == Ok(One(rec)) && soft.assoc.target == a.target + [rec]
                                && hard == AssocOutcome(a, Err(RecordInvalid)))
  {
    var rec := BuildRecord(catalog, a, input, opts, fuel).value;
    assert rec.(persisted := false) == rec;
  }

  /** `create!` on an array stops at the first element whose save fails:
      the elements before it are saved and in the target, in order, and
      nothing after it is built. */
  lemma CreateBangArrayStops(catalog: Catalog, a: Association, items: seq<Value>, opts: Options,
                             valid: Record -> bool, fuel: nat, j: nat)
    requires a.ownerPersisted && j < |items|
    requires forall k :: 0 <= k < |items| ==> !items[k].List?
    requires forall k :: 0 <= k < |items| ==> BuildRecord(catalog, a, items[k], opts, fuel).Ok?
    requires forall k :: 0 <= k < j ==> valid(BuildRecord(catalog, a, items[k], opts, fuel).value)
    requires !valid(BuildRecord(catalog, a, items[j], opts, fuel).value)
    ensures var o := CreateRecord(catalog, a, List(items), opts, true, valid, fuel);
            && o.result == Err(RecordInvalid)
            && |o.assoc.target| == |a.target| + j
            && forall k :: 0 <= k < j ==>
                 o.assoc.target[|a.target| + k] == BuildRecord(catalog, a, items[k], opts, fuel).value.(persisted := true)
  {
    var step := CreateStep(catalog, a, opts, true, valid, fuel);
    EachStops(step, a.target, items, j);
  }

  // ---------------------------------------------------------------------
  // Singular associations

  datatype SingularOutcome = SingularOutcome(assoc: Association, result: Result<Record>)

  /** `SingularAssociation#build`: the built record replaces the target. */
  function SingularBuild(catalog: Catalog, a: Association, input: Value, opts: Options, fuel: nat): (o: SingularOutcome)
    ensures o.result.Ok? ==> o.assoc.target == [o.result.value] && o.result == BuildRecord(catalog, a, input, opts, fuel)
    ensures o.result.Err? ==> o.assoc == a && o.result == BuildRecord(catalog, a, input, opts, fuel)
  {
    match BuildRecord(catalog, a, input, opts, fuel)
    case Err(e) => SingularOutcome(a, Err(e))
    case Ok(rec) => SingularOutcome(a.(target := [rec]), Ok(rec))
  }

  /** `SingularAssociation#create_record`: the record is saved and becomes
      the target whether or not the save succeeded; `RecordInvalid` is
      raised exactly when the save failed and `raiseError` is set. */
  function SingularCreate(catalog: Catalog, a: Association, input: Value, opts: Options, raiseError: bool,
                          valid: Record -> bool, fuel: nat): (o: SingularOutcome)
    ensures var b := BuildRecord(catalog, a, input, opts, fuel);
            && (b.Err? ==> o == SingularOutcome(a, Err(b.error)))
            && (b.Ok? ==> o.assoc.target == [b.value.(persisted := valid(b.value))])
            && (b.Ok? ==> (o.result == Err(RecordInvalid) <==> !valid(b.value) && raiseError))
            && (b.Ok? && o.result.Ok? ==> o.result.value == b.value.(persisted := valid(b.value)))
  {
    match BuildRecord(catalog, a, input, opts, fuel)
    case Err(e) => SingularOutcome(a, Err(e))
    case Ok(rec) =>
      var saved := valid(rec);
      var stored := Save(rec, valid);
      if !saved && raiseError then SingularOutcome(a.(target := [stored]), Err(RecordInvalid))
      else SingularOutcome(a.(target := [stored]), Ok(stored))
  }
}
