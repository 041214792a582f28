/** The class-level `create` and the instance-level `update_attributes` /
    `update_attributes!`: each hands the caller's attributes and options to
    the gate unchanged, then saves. Whether a record passes its validations
    is a parameter, `valid`; the block a caller passes to `create` is a
    function on the record, the identity when no block is given. */
module Persistence {
  import opened Values
  import opened Errors
  import opened Authorization
  import opened ModelClasses
  import opened Assignment
  import opened Inheritance
  import opened Construction
  import opened FanOut

  /** `save`: stores the record when its validations pass; a stored record
      stays stored, and nothing else about it changes. */
  function Save(rec: Record, valid: Record -> bool): (r: Record)
    ensures r.persisted <==> rec.persisted || valid(rec)
    ensures r.(persisted := rec.persisted) == rec
  {
    rec.(persisted := rec.persisted || valid(rec))
  }

  /** What `create` does with one non-array argument. */
  function CreateStep(catalog: Catalog, cls: ModelClass, opts: Options, valid: Record -> bool,
                      block: Record -> Record, fuel: nat): Value -> Result<Record> {
    x =>
      match New(catalog, cls, x, opts, fuel)
      case Err(e) => Err(e)
      case Ok(r) => Ok(Save(block(r), valid))
  }

  /** `Model.create(attributes, options, &block)`: an array creates each
      element with the same options and block; anything else is built by
      `new` with the caller's options, saved, and returned whether or not
      the save succeeded. */
  function Create(catalog: Catalog, cls: ModelClass, input: Value, opts: Options, valid: Record -> bool,
                  block: Record -> Record, fuel: nat): (r: Result<Built>)
    ensures !input.List? ==> (r.Err? <==> New(catalog, cls, input, opts, fuel).Err?)
    ensures !input.List? && r.Err? ==> r.error == New(catalog, cls, input, opts, fuel).error
    ensures !input.List? && r.Ok? ==>
              var built := block(New(catalog, cls, input, opts, fuel).value);
              r.value.One? && r.value.record.(persisted := built.persisted) == built
              && (r.value.record.persisted <==> built.persisted || valid(built))
  {
    Each(CreateStep(catalog, cls, opts, valid, block, fuel), [], input).result
  }

  /** On an array of non-arrays that all construct, `create` returns one
      result per element, in order, each what `create` returns for that
      element alone with the same options and block. */
  lemma CreateArray(catalog: Catalog, cls: ModelClass, items: seq<Value>, opts: Options, valid: Record -> bool,
                    block: Record -> Record, fuel: nat)
    requires forall k :: 0 <= k < |items| ==> !items[k].List? && New(catalog, cls, items[k], opts, fuel).Ok?
    ensures var r := Create(catalog, cls, List(items), opts, valid, block, fuel);
            && r.Ok? && r.value.Many? && |r.value.items| == |items|
            && forall k :: 0 <= k < |items| ==>
                 Create(catalog, cls, items[k], opts, valid, block, fuel) == Ok(r.value.items[k])
  {
    var step := CreateStep(catalog, cls, opts, valid, block, fuel);
    EachFlat(step, [], items);
  }

  /** A call to `update_attributes`: the record afterwards and what the call
      returned (the result of the save) or raised. */
  datatype Update = Update(rec: Record, result: Result<bool>)

  /** `update_attributes(attributes, options)`: assigns through the gate with
      the caller's options, then saves; the result is whether the save
      succeeded. An exception of the gate skips the save. */
  function UpdateAttributes(rec: Record, input: Value, opts: Options, valid: Record -> bool, fuel: nat): (u: Update)
    ensures var o := Assign(rec, input, opts, fuel);
            && u.rec.values == o.rec.values && u.rec.effects == o.rec.effects && u.rec.options == rec.options
            && (u.result.Err? <==> o.error.Some?)
            && (u.result.Err? ==> u.result.error == o.error.value && u.rec == o.rec)
            && (u.result.Ok? ==> (u.result.value <==> valid(o.rec)) && (u.rec.persisted <==> rec.persisted || valid(o.rec)))
  {
    var o := Assign(rec, input, opts, fuel);
    if o.error.Some? then Update(o.rec, Err(o.error.value))
    else Update(Save(o.rec, valid), Ok(valid(o.rec)))
  }

  /** `update_attributes!`: the same, but `save!` raises `RecordInvalid`
      instead of returning false. */
  function UpdateAttributesBang(rec: Record, input: Value, opts: Options, valid: Record -> bool, fuel: nat): (u: Update)
    ensures u.result.Ok? ==> u.result.value
    ensures var o := Assign(rec, input, opts, fuel);
            && u.rec.values == o.rec.values && u.rec.effects == o.rec.effects && u.rec.options == rec.options
            && (u.result.Err? ==> u.result.error == o.error.GetOr(RecordInvalid))
  {
    var o := Assign(rec, input, opts, fuel);
    if o.error.Some? then Update(o.rec, Err(o.error.value))
    else if !valid(o.rec) then Update(o.rec, Err(RecordInvalid))
    else Update(Save(o.rec, valid), Ok(true))
  }

  /** The two differ only in how a failed save is reported: the record is
      the same, and `update_attributes!` raises `RecordInvalid` exactly
      where `update_attributes` returns false. */
  lemma UpdateVersusUpdateBang(rec: Record, input: Value, opts: Options, valid: Record -> bool, fuel: nat)
    ensures var soft := UpdateAttributes(rec, input, opts, valid, fuel);
            var hard := UpdateAttributesBang(rec, input, opts, valid, fuel);
            && soft.rec == hard.rec
            && (soft.result == Ok(false) <==> hard.result == Err(RecordInvalid) && soft.result.Ok?)
            && (soft.result != Ok(false) ==> soft.result == hard.result)
  {
    var o := Assign(rec, input, opts, fuel);
    if o.error.None? && !valid(o.rec) {
      assert Save(o.rec, valid) == o.rec by {
        assert Frame(rec, o.rec);
      }
    }
  }

  /** Roles and `without_protection` take effect through `update_attributes`
      and `update_attributes!` alike: a key that reaches a column writer
      lands with its value. */
  lemma UpdateWritesSurvivor(rec: Record, input: Value, opts: Options, valid: Record -> bool, fuel: nat,
                             s: seq<Entry>, e: Entry)
    requires input.Dict? && !Blank(input)
    requires Surviving(rec.cls, StringifyKeys(input.entries), input.permit, opts) == Ok(s)
    requires forall i :: 0 <= i < |s| && !IsMultiparameter(s[i].key.name) ==> Plainly(rec.cls, s[i].key.name)
    requires e in s && !IsMultiparameter(e.key.name) && e.key.name !in rec.cls.nestedSetters && e.key.name in rec.values
    ensures UpdateAttributes(rec, input, opts, valid, fuel).rec.values[e.key.name] == e.value
    ensures UpdateAttributesBang(rec, input, opts, valid, fuel).rec.values[e.key.name] == e.value
  {
    AssignWritesSurvivor(rec, input, opts, fuel, s, e);
  }

  /** For a class with no protection declarations, a hash the
      strong-parameters filter has not permitted makes `create` raise
      `ForbiddenAttributes`, whatever the role, unless `without_protection`
      is set. */
  lemma CreateForbidsUnpermitted(catalog: Catalog, cls: ModelClass, es: seq<Entry>, opts: Options,
                                 valid: Record -> bool, block: Record -> Record, fuel: nat)
    requires !UsesSecurity(cls) && es != [] && '(' !in cls.inheritanceColumn && !opts.withoutProtection
    ensures Create(catalog, cls, Dict(es, Parameters(false)), opts, valid, block, fuel) == Err(ForbiddenAttributes)
  {
    var input := Dict(es, Parameters(false));
    assert cls.inheritanceColumn in ProtectedByDefault(cls);
    assert InstantiatedClass(catalog, cls, input) == Ok(cls);
  }
}
