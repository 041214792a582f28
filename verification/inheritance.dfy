/** The single-table-inheritance gate: which subclass `new` instantiates for
    an attribute hash. The base rule reads the inheritance column; the gate
    in front of it ignores the column whenever the `:default` authorizer
    denies it, whatever role the call uses. */
module Inheritance {
  import opened Values
  import opened Errors
  import opened Authorization
  import opened ModelClasses

  /** The base rule of the ORM: a present type name other than the class's
      own must name one of its subclasses. The name is read through an
      indifferent-access view, so `:type` and `'type'` both count. */
  function BaseSubclass(cls: ModelClass, attrs: seq<Entry>): (r: Result<Option<string>>)
    ensures r.Ok? && r.value.Some? ==>
              LastNamed(attrs, cls.inheritanceColumn) == Str(r.value.value)
              && r.value.value in cls.descendants && r.value.value != cls.name
    ensures Blank(LastNamed(attrs, cls.inheritanceColumn)) ==> r == Ok(None)
    ensures LastNamed(attrs, cls.inheritanceColumn) == Str(cls.name) ==> r == Ok(None)
    ensures forall s :: LastNamed(attrs, cls.inheritanceColumn) == Str(s) && Present(Str(s)) && s != cls.name ==>
              (r.Err? <==> s !in cls.descendants) && (r.Err? ==> r.error == SubclassNotFound(s))
  {
    var v := LastNamed(attrs, cls.inheritanceColumn);
    if Blank(v) then Ok(None)
    else match v
      case Str(s) =>
        if s == cls.name then Ok(None)
        else if s in cls.descendants then Ok(Some(s))
        else Err(SubclassNotFound(s))
      case _ => Err(NoMethod("safe_constantize"))
  }

  /** `subclass_from_attributes?`, and `subclass_from_attrs` under its older
      name: nil when the `:default` list denies the inheritance column,
      otherwise the base rule. No other role is consulted. */
  function SubclassFromAttributes(cls: ModelClass, attrs: seq<Entry>): (r: Result<Option<string>>)
    ensures Deny(Authorizer(cls, DefaultRole), cls.inheritanceColumn) ==> r == Ok(None)
    ensures !Deny(Authorizer(cls, DefaultRole), cls.inheritanceColumn) ==> r == BaseSubclass(cls, attrs)
  {
    if Deny(Authorizer(cls, DefaultRole), cls.inheritanceColumn) then Ok(None)
    else BaseSubclass(cls, attrs)
  }

  /** A class checked against a black list (which always holds the
      inheritance column) never switches class, whatever the hash says. */
  lemma BlackListKeepsClass(cls: ModelClass, attrs: seq<Entry>)
    requires ActiveKind(cls.declarations) == BlackList
    requires '(' !in cls.inheritanceColumn
    ensures SubclassFromAttributes(cls, attrs) == Ok(None)
  {
    assert cls.inheritanceColumn in ProtectedByDefault(cls);
  }

  /** Under a white list the type name is honoured exactly when the `:default`
      role lists the inheritance column. */
  lemma WhiteListHonoursListedType(cls: ModelClass, attrs: seq<Entry>)
    requires ActiveKind(cls.declarations) == WhiteList
    requires '(' !in cls.inheritanceColumn
    ensures cls.inheritanceColumn in AccessibleAttributes(cls.declarations, DefaultRole) ==>
              SubclassFromAttributes(cls, attrs) == BaseSubclass(cls, attrs)
    ensures cls.inheritanceColumn !in AccessibleAttributes(cls.declarations, DefaultRole) ==>
              SubclassFromAttributes(cls, attrs) == Ok(None)
  {
  }
}
