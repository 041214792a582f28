/** The class-level `create!`: `create` with `save!`, so a record that fails
    its validations raises `RecordInvalid` instead of being returned. */
module Validations {
  import opened Values
  import opened Errors
  import opened Authorization
  import opened ModelClasses
  import opened Assignment
  import opened Construction
  import opened FanOut
  import opened Persistence

  /** What `create!` does with one non-array argument: `new` with the
      caller's options, the block once on the new record, then `save!`. */
  function CreateBangStep(catalog: Catalog, cls: ModelClass, opts: Options, valid: Record -> bool,
                          block: Record -> Record, fuel: nat): Value -> Result<Record> {
    x =>
      match New(catalog, cls, x, opts, fuel)
      case Err(e) => Err(e)
      case Ok(r) =>
        var b := block(r);
        if valid(b) then Ok(Save(b, valid)) else Err(RecordInvalid)
  }

  /** `Model.create!(attributes, options, &block)`: an array creates each
      element with the same options and block and stops at the first
      exception; anything else is built by `new`, given to the block, and
      saved with `save!`, which raises when the validations fail. */
  function CreateBang(catalog: Catalog, cls: ModelClass, input: Value, opts: Options, valid: Record -> bool,
                      block: Record -> Record, fuel: nat): (r: Result<Built>)
    ensures !input.List? && New(catalog, cls, input, opts, fuel).Err? ==> r == Err(New(catalog, cls, input, opts, fuel).error)
    ensures !input.List? && New(catalog, cls, input, opts, fuel).Ok? ==>
              var built := block(New(catalog, cls, input, opts, fuel).value);
              && (r.Err? <==> !valid(built))
              && (r.Err? ==> r.error == RecordInvalid)
              && (r.Ok? ==> r.value.One? && r.value.record == built.(persisted := true))
  {
    Each(CreateBangStep(catalog, cls, opts, valid, block, fuel), [], input).result
  }

  /** `create` and `create!` build the same record from a hash; they agree
      when it is valid, and otherwise `create` returns it unsaved while
      `create!` raises `RecordInvalid`. */
  lemma CreateVersusCreateBang(catalog: Catalog, cls: ModelClass, input: Value, opts: Options, valid: Record -> bool,
                               block: Record -> Record, fuel: nat)
    requires !input.List? && New(catalog, cls, input, opts, fuel).Ok?
    requires !block(New(catalog, cls, input, opts, fuel).value).persisted
    ensures var built := block(New(catalog, cls, input, opts, fuel).value);
            var soft := Create(catalog, cls, input, opts, valid, block, fuel);
            var hard := CreateBang(catalog, cls, input, opts, valid, block, fuel);
            && (valid(built) ==> soft == hard)
            && (!valid(built) ==> soft == Ok(One(built)) && hard == Err(RecordInvalid))
  {
    var built := block(New(catalog, cls, input, opts, fuel).value);
    var soft := Create(catalog, cls, input, opts, valid, block, fuel);
    assert soft.value.record.(persisted := built.persisted) == built;
  }

  /** On an array of non-arrays that all construct and validate, `create!`
      returns one result per element, in order, each what `create!` returns
      for that element alone with the same options and block. */
  lemma CreateBangArray(catalog: Catalog, cls: ModelClass, items: seq<Value>, opts: Options, valid: Record -> bool,
                        block: Record -> Record, fuel: nat)
    requires forall k :: 0 <= k < |items| ==> !items[k].List? && New(catalog, cls, items[k], opts, fuel).Ok?
    requires forall k :: 0 <= k < |items| ==> valid(block(New(catalog, cls, items[k], opts, fuel).value))
    ensures var r := CreateBang(catalog, cls, List(items), opts, valid, block, fuel);
            && r.Ok? && r.value.Many? && |r.value.items| == |items|
            && forall k :: 0 <= k < |items| ==>
                 CreateBang(catalog, cls, items[k], opts, valid, block, fuel) == Ok(r.value.items[k])
  {
    var step := CreateBangStep(catalog, cls, opts, valid, block, fuel);
    EachFlat(step, [], items);
  }

  /** On an array, the first element that fails its validations stops
      `create!` with `RecordInvalid`. */
  lemma CreateBangArrayStops(catalog: Catalog, cls: ModelClass, items: seq<Value>, opts: Options, valid: Record -> bool,
                             block: Record -> Record, fuel: nat, j: nat)
    requires j < |items|
    requires forall k :: 0 <= k < |items| ==> !items[k].List? && New(catalog, cls, items[k], opts, fuel).Ok?
    requires forall k :: 0 <= k < j ==> valid(block(New(catalog, cls, items[k], opts, fuel).value))
    requires !valid(block(New(catalog, cls, items[j], opts, fuel).value))
    ensures CreateBang(catalog, cls, List(items), opts, valid, block, fuel) == Err(RecordInvalid)
  {
    EachStops(CreateBangStep(catalog, cls, opts, valid, block, fuel), [], items, j);
  }

  /** For a class with no protection declarations, a hash the
      strong-parameters filter has not permitted makes `create!` raise
      `ForbiddenAttributes` unless `without_protection` is set. */
  lemma CreateBangForbidsUnpermitted(catalog: Catalog, cls: ModelClass, es: seq<Entry>, opts: Options,
                                     valid: Record -> bool, block: Record -> Record, fuel: nat)
    requires !UsesSecurity(cls) && es != [] && '(' !in cls.inheritanceColumn && !opts.withoutProtection
    ensures CreateBang(catalog, cls, Dict(es, Parameters(false)), opts, valid, block, fuel) == Err(ForbiddenAttributes)
  {
    CreateForbidsUnpermitted(catalog, cls, es, opts, valid, block, fuel);
  }
}
