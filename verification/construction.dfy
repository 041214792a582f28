/** `Model.new(attributes, options)`: the class is chosen by the inheritance
    gate when the attributes are a hash, a fresh record of that class is
    built, and a truthy attribute argument goes through the gate with the
    caller's options. */
module Construction {
  import opened Values
  import opened Errors
  import opened Authorization
  import opened ModelClasses
  import opened Assignment
  import opened Inheritance

  /** The classes `new` can dispatch to, each under its own name. */
  type Catalog = map<string, ModelClass>

  /** The class `new` instantiates: the subclass named by an allowed type
      column, else the receiver. A name with no class behind it is not a
      subclass. */
  function InstantiatedClass(catalog: Catalog, cls: ModelClass, input: Value): (r: Result<ModelClass>)
    ensures !input.Dict? ==> r == Ok(cls)
    ensures input.Dict? && SubclassFromAttributes(cls, input.entries) == Ok(None) ==> r == Ok(cls)
    ensures r.Ok? && r.value != cls ==>
              input.Dict? && r.value.name in cls.descendants && SubclassFromAttributes(cls, input.entries) == Ok(Some(r.value.name))
  {
    if !input.Dict? then Ok(cls)
    else
      match SubclassFromAttributes(cls, input.entries)
      case Err(e) => Err(e)
      case Ok(None) => Ok(cls)
      case Ok(Some(s)) =>
        if s in catalog && catalog[s].name == s then Ok(catalog[s]) else Err(SubclassNotFound(s))
  }

  /** `new`: the exception of the gate, if it raises, replaces the record. */
  function New(catalog: Catalog, cls: ModelClass, input: Value, opts: Options, fuel: nat): (r: Result<Record>)
    ensures r.Ok? ==> InstantiatedClass(catalog, cls, input).Ok? && r.value.cls == InstantiatedClass(catalog, cls, input).value
    ensures r.Ok? ==> r.value.options == None && !r.value.persisted && r.value.original == r.value.cls.columns
    ensures !Truthy(input) ==> r == Ok(Fresh(cls))
    ensures InstantiatedClass(catalog, cls, input).Ok? && Truthy(input) ==>
              var o := Assign(Fresh(InstantiatedClass(catalog, cls, input).value), input, opts, fuel);
              (r.Err? <==> o.error.Some?) && (r.Ok? ==> r.value == o.rec) && (r.Err? ==> r.error == o.error.value)
  {
    var target :- InstantiatedClass(catalog, cls, input);
    if !Truthy(input) then Ok(Fresh(target))
    else
      var o := Assign(Fresh(target), input, opts, fuel);
      if o.error.Some? then Err(o.error.value) else Ok(o.rec)
  }
}
