/** A persisted-record class as the gate sees it: its schema names, its
    protection declarations (ancestors' first), its setters, its nested
    attribute setters and its subclasses. */
module ModelClasses {
  import opened Values
  import opened Errors
  import opened Authorization

  /** A setter the class defines itself, overriding the column writer. */
  datatype Setter =
    | Raising                            // raises whatever it is given
    | Forward(target: string, field: string)
      // assigns `{ target => { field => value } }` through the gate, no options
    | Reassign                           // assigns its value through the gate, no options

  datatype NestedKind = OneToOne | Collection

  /** The generated `<association>_attributes=` setter, by association name. */
  datatype NestedSetter = NestedSetter(association: string, kind: NestedKind)

  datatype ModelClass = ModelClass(
    name: string,
    primaryKey: string,
    inheritanceColumn: string,
    columns: map<string, Value>,             // attribute name -> default value
    declarations: seq<Declaration>,          // ancestors' first, then the class's own
    policy: RemovalPolicy,
    setters: map<string, Setter>,            // keyed by attribute name
    nestedSetters: map<string, NestedSetter>, // keyed by "<association>_attributes"
    descendants: set<string>)                // names of the subclasses

  /** `attributes_protected_by_default`: the primary key, the inheritance
      column, and the literal `id` when the primary key is named otherwise. */
  function ProtectedByDefault(cls: ModelClass): (r: set<string>)
    ensures cls.primaryKey in r && cls.inheritanceColumn in r && "id" in r
    ensures forall n :: n in r ==> n == cls.primaryKey || n == cls.inheritanceColumn || n == "id"
    ensures |r| == 3 ==> cls.primaryKey != "id"
  {
    var default := {cls.primaryKey, cls.inheritanceColumn};
    if cls.primaryKey == "id" then default else default + {"id"}
  }

  /** The list the class checks `role` against. */
  function Authorizer(cls: ModelClass, role: string): PermissionSet {
    ActiveAuthorizer(cls.declarations, ProtectedByDefault(cls), role)
  }

  /** Whether the class made any protection declaration at all. */
  predicate UsesSecurity(cls: ModelClass) {
    cls.declarations != []
  }

  /** `sanitize_for_mass_assignment`: a class without declarations only
      accepts hashes the strong-parameters filter has permitted, unchanged;
      any other class filters through its list for `role`. */
  function Sanitize(cls: ModelClass, role: string, es: seq<Entry>, permit: Permit): (r: Result<seq<Entry>>)
    ensures !UsesSecurity(cls) ==> (r.Err? <==> permit == Parameters(false))
    ensures !UsesSecurity(cls) && r.Ok? ==> r.value == es
    ensures UsesSecurity(cls) && r.Ok? ==>
              forall e :: e in r.value <==> e in es && !Deny(Authorizer(cls, role), e.key.name)
  {
    if !UsesSecurity(cls) then
      if permit == Parameters(false) then Err(ForbiddenAttributes) else Ok(es)
    else
      SanitizeEntries(cls.policy, Authorizer(cls, role), es)
  }

  /** A class checked against a black list never lets its primary key, its
      inheritance column or `id` through, whatever the role. */
  lemma DefaultsAlwaysProtected(cls: ModelClass, role: string, es: seq<Entry>, e: Entry)
    requires UsesSecurity(cls) && ActiveKind(cls.declarations) == BlackList
    requires e.key.name in {cls.primaryKey, cls.inheritanceColumn, "id"} && '(' !in e.key.name
    requires Sanitize(cls, role, es, Plain).Ok?
    ensures e !in Sanitize(cls, role, es, Plain).value
  {
  }
}
