/** `first_or_create` and `first_or_create!` on a relation: the first record
    the relation finds, if any, is returned as it is; otherwise the call is
    `create` (or `create!`) with the same attributes, options and block.
    The record the query finds is a parameter. */
module Relation {
  import opened Values
  import opened Errors
  import opened ModelClasses
  import opened Assignment
  import opened Construction
  import opened FanOut
  import opened Persistence
  import opened Validations

  /** `first_or_create(attributes, options, &block)`. */
  function FirstOrCreate(first: Option<Record>, catalog: Catalog, cls: ModelClass, input: Value, opts: Options,
                         valid: Record -> bool, block: Record -> Record, fuel: nat): (r: Result<Built>)
    ensures first.Some? ==> r == Ok(One(first.value))
    ensures first.None? ==> r == Create(catalog, cls, input, opts, valid, block, fuel)
  {
    if first.Some? then Ok(One(first.value)) else Create(catalog, cls, input, opts, valid, block, fuel)
  }

  /** `first_or_create!(attributes, options, &block)`. */
  function FirstOrCreateBang(first: Option<Record>, catalog: Catalog, cls: ModelClass, input: Value, opts: Options,
                             valid: Record -> bool, block: Record -> Record, fuel: nat): (r: Result<Built>)
    ensures first.Some? ==> r == Ok(One(first.value))
    ensures first.None? ==> r == CreateBang(catalog, cls, input, opts, valid, block, fuel)
  {
    if first.Some? then Ok(One(first.value)) else CreateBang(catalog, cls, input, opts, valid, block, fuel)
  }

  /** A record found is returned by both variants, never raising, whatever
      the attributes, options or validations. */
  lemma FoundRecordReturned(r: Record, catalog: Catalog, cls: ModelClass, input: Value, opts: Options,
                            valid: Record -> bool, block: Record -> Record, fuel: nat)
    ensures FirstOrCreate(Some(r), catalog, cls, input, opts, valid, block, fuel) == Ok(One(r))
    ensures FirstOrCreateBang(Some(r), catalog, cls, input, opts, valid, block, fuel) == Ok(One(r))
  {
  }

  /** With nothing found, the role of the call reaches the record made: it
      is the record `new` builds from the same attributes and options, saved
      by one variant and raising `RecordInvalid` in the other exactly when
      it fails its validations. */
  lemma NothingFoundCreates(catalog: Catalog, cls: ModelClass, input: Value, opts: Options,
                            valid: Record -> bool, block: Record -> Record, fuel: nat)
    requires !input.List? && New(catalog, cls, input, opts, fuel).Ok?
    requires !block(New(catalog, cls, input, opts, fuel).value).persisted
    ensures var built := block(New(catalog, cls, input, opts, fuel).value);
            var soft := FirstOrCreate(None, catalog, cls, input, opts, valid, block, fuel);
            var hard := FirstOrCreateBang(None, catalog, cls, input, opts, valid, block, fuel);
            && soft == Ok(One(built.(persisted := valid(built))))
            && (hard == Err(RecordInvalid) <==> !valid(built))
            && (valid(built) ==> hard == soft)
  {
    CreateVersusCreateBang(catalog, cls, input, opts, valid, block, fuel);
    var built := block(New(catalog, cls, input, opts, fuel).value);
    var soft := Create(catalog, cls, input, opts, valid, block, fuel);
    assert soft.value.record.(persisted := built.persisted) == built;
  }

  /** For a class with no protection declarations, unpermitted parameters
      fail with `ForbiddenAttributes` through both variants when nothing is
      found. */
  lemma FirstOrCreateForbidsUnpermitted(catalog: Catalog, cls: ModelClass, es: seq<Entry>, opts: Options,
                                        valid: Record -> bool, block: Record -> Record, fuel: nat)
    requires !UsesSecurity(cls) && es != [] && '(' !in cls.inheritanceColumn && !opts.withoutProtection
    ensures FirstOrCreate(None, catalog, cls, Dict(es, Parameters(false)), opts, valid, block, fuel) == Err(ForbiddenAttributes)
    ensures FirstOrCreateBang(None, catalog, cls, Dict(es, Parameters(false)), opts, valid, block, fuel) == Err(ForbiddenAttributes)
  {
    CreateForbidsUnpermitted(catalog, cls, es, opts, valid, block, fuel);
    CreateBangForbidsUnpermitted(catalog, cls, es, opts, valid, block, fuel);
  }
}
