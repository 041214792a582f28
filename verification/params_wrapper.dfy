/** The controller's parameter-wrapper defaults: unless the caller names the
    keys to wrap (`:include`) or to leave out (`:exclude`), the keys are the
    model's accessible attributes for the role `:as` (`:default` when the
    option is absent), else the model's attribute names. The key lists are
    then normalised to arrays of strings, and `:format` to an array. */
module ParamsWrapper {
  import opened Values
  import opened Authorization

  /** What the wrapped model answers, if there is a model. `accessible` is
      present when the model has `accessible_attributes`; a role it never
      declared has no entry and an empty list. The role key is `None` for a
      nil role. `attributeNames` is present when the model has
      `attribute_names`. */
  datatype WrapModel = WrapModel(
    accessible: Option<map<Option<string>, seq<string>>>,
    attributeNames: Option<seq<string>>)

  /** The options hash: each key may be absent (`None`); a present `:as`
      may be nil (`Some(None)`). */
  datatype WrapperOptions = WrapperOptions(
    includes: Option<Value>,
    excludes: Option<Value>,
    format: Option<Value>,
    role: Option<Option<string>>)

  /** `options[key]`: nil when the key is absent. */
  function Fetch(o: Option<Value>): Value {
    o.GetOr(Nil)
  }

  /** `Array(x)` for the values an option holds: nil is empty, an array is
      itself, anything else is wrapped. */
  function ArrayOf(v: Value): (r: seq<Value>)
    ensures v.List? ==> r == v.items
    ensures v.Nil? ==> r == []
    ensures !v.List? && !v.Nil? ==> r == [v]
  {
    match v
    case Nil => []
    case List(items) => items
    case _ => [v]
  }

  function Strs(names: seq<string>): (r: seq<Value>)
    ensures |r| == |names| && forall k :: 0 <= k < |names| ==> r[k] == Str(names[k])
  {
    seq(|names|, k requires 0 <= k < |names| => Str(names[k]))
  }

  /** An array of strings. */
  predicate IsStringList(v: Value) {
    v.List? && forall k :: 0 <= k < |v.items| ==> v.items[k].Str?
  }

  /** `options[key] = Array(options[key]).collect(&:to_s) if options[key]`. */
  function NormalizeList(o: Option<Value>): (r: Option<Value>)
    ensures Truthy(Fetch(o)) ==> r.Some? && IsStringList(r.value) && |r.value.items| == |ArrayOf(o.value)|
    ensures Truthy(Fetch(o)) ==> forall k :: 0 <= k < |r.value.items| ==> r.value.items[k] == Str(ToS(ArrayOf(o.value)[k]))
    ensures !Truthy(Fetch(o)) ==> r == o
  {
    if Truthy(Fetch(o)) then
      var xs := ArrayOf(o.value);
      Some(List(seq(|xs|, k requires 0 <= k < |xs| => Str(ToS(xs[k])))))
    else o
  }

  /** The accessible list of `role`, empty for a role never declared. */
  function AccessibleFor(lists: map<Option<string>, seq<string>>, role: Option<string>): seq<string> {
    if role in lists then lists[role] else []
  }

  /** `options.fetch(:as, :default)`. */
  function WrapRole(options: WrapperOptions): Option<string> {
    options.role.GetOr(Some(DefaultRole))
  }

  /** The include list the model suggests for `role`, if any: a non-empty
      accessible list first, else non-empty attribute names. */
  function Suggested(model: Option<WrapModel>, role: Option<string>): (r: Option<seq<string>>)
    ensures r.Some? ==> r.value != []
  {
    if model.None? then None
    else
      var m := model.value;
      if m.accessible.Some? && AccessibleFor(m.accessible.value, role) != [] then Some(AccessibleFor(m.accessible.value, role))
      else if m.attributeNames.Some? && m.attributeNames.value != [] then Some(m.attributeNames.value)
      else None
  }

  /** `_set_wrapper_defaults(options, model)`, on a copy of the options. */
  function SetWrapperDefaults(options: WrapperOptions, model: Option<WrapModel>): (r: WrapperOptions)
    ensures r.role == options.role
    ensures r.format.Some? && r.format.value.List? && r.format.value.items == ArrayOf(Fetch(options.format))
    ensures Truthy(Fetch(r.includes)) ==> IsStringList(r.includes.value)
    ensures Truthy(Fetch(r.excludes)) ==> IsStringList(r.excludes.value)
    ensures r.excludes == NormalizeList(options.excludes)
  {
    var derived :=
      if Truthy(Fetch(options.includes)) || Truthy(Fetch(options.excludes)) then options.includes
      else
        match Suggested(model, WrapRole(options))
        case Some(names) => Some(List(Strs(names)))
        case None => options.includes;
    options.(includes := NormalizeList(derived),
             excludes := NormalizeList(options.excludes),
             format := Some(List(ArrayOf(Fetch(options.format)))))
  }

  // ---------------------------------------------------------------------
  // What the derivation promises

  /** An explicit `:include` or `:exclude` switches the derivation off: the
      include list is the caller's, only normalised. */
  lemma ExplicitListsWin(options: WrapperOptions, model: Option<WrapModel>)
    requires Truthy(Fetch(options.includes)) || Truthy(Fetch(options.excludes))
    ensures SetWrapperDefaults(options, model).includes == NormalizeList(options.includes)
  {
  }

  /** Without either, a model whose accessible list for the role is
      non-empty supplies it, in order, as the include list. */
  lemma IncludeFromAccessible(options: WrapperOptions, m: WrapModel)
    requires !Truthy(Fetch(options.includes)) && !Truthy(Fetch(options.excludes))
    requires m.accessible.Some? && AccessibleFor(m.accessible.value, WrapRole(options)) != []
    ensures SetWrapperDefaults(options, Some(m)).includes == Some(List(Strs(AccessibleFor(m.accessible.value, WrapRole(options)))))
  {
    StrsNormal(AccessibleFor(m.accessible.value, WrapRole(options)));
  }

  /** Failing that, non-empty attribute names are the include list. */
  lemma IncludeFromAttributeNames(options: WrapperOptions, m: WrapModel)
    requires !Truthy(Fetch(options.includes)) && !Truthy(Fetch(options.excludes))
    requires m.accessible.None? || AccessibleFor(m.accessible.value, WrapRole(options)) == []
    requires m.attributeNames.Some? && m.attributeNames.value != []
    ensures SetWrapperDefaults(options, Some(m)).includes == Some(List(Strs(m.attributeNames.value)))
  {
    StrsNormal(m.attributeNames.value);
  }

  /** With neither source, the include option is left as the caller had it. */
  lemma NothingToDerive(options: WrapperOptions, model: Option<WrapModel>)
    requires !Truthy(Fetch(options.includes)) && !Truthy(Fetch(options.excludes))
    requires Suggested(model, WrapRole(options)).None?
    ensures SetWrapperDefaults(options, model).includes == options.includes
  {
  }

  /** `fetch(:as, :default)` as the derivation sees it: without `:as` the
      include list is the `:default` role's accessible list; an explicit nil
      `:as` never consults that list, so with no list for the nil role the
      attribute names are used even when `:default` has one. */
  lemma RoleFetch(options: WrapperOptions, m: WrapModel)
    requires !Truthy(Fetch(options.includes)) && !Truthy(Fetch(options.excludes)) && m.accessible.Some?
    ensures options.role.None? && AccessibleFor(m.accessible.value, Some(DefaultRole)) != [] ==>
              SetWrapperDefaults(options, Some(m)).includes == Some(List(Strs(AccessibleFor(m.accessible.value, Some(DefaultRole)))))
    ensures options.role == Some(None) && AccessibleFor(m.accessible.value, None) == []
            && m.attributeNames.Some? && m.attributeNames.value != [] ==>
              SetWrapperDefaults(options, Some(m)).includes == Some(List(Strs(m.attributeNames.value)))
  {
    if options.role.None? && AccessibleFor(m.accessible.value, Some(DefaultRole)) != [] {
      IncludeFromAccessible(options, m);
    }
    if options.role == Some(None) && AccessibleFor(m.accessible.value, None) == []
       && m.attributeNames.Some? && m.attributeNames.value != [] {
      IncludeFromAttributeNames(options, m);
    }
  }

  /** Normalising an array of strings gives it back. */
  lemma StrsNormal(names: seq<string>)
    ensures NormalizeList(Some(List(Strs(names)))) == Some(List(Strs(names)))
  {
    var r := NormalizeList(Some(List(Strs(names))));
    assert r.value.items == Strs(names);
  }

  lemma StringListNormal(v: Value)
    requires IsStringList(v)
    ensures NormalizeList(Some(v)) == Some(v)
  {
    var r := NormalizeList(Some(v));
    assert r.value.items == v.items;
  }

  /** Running the defaults twice gives what running them once does. */
  lemma {:induction false} WrapperIdempotent(options: WrapperOptions, model: Option<WrapModel>)
    ensures SetWrapperDefaults(SetWrapperDefaults(options, model), model) == SetWrapperDefaults(options, model)
  {
    var once := SetWrapperDefaults(options, model);
    var twice := SetWrapperDefaults(once, model);
    if Truthy(Fetch(once.includes)) {
      StringListNormal(once.includes.value);
    } else {
      assert !Truthy(Fetch(options.includes));
      if Truthy(Fetch(options.excludes)) {
        assert Truthy(Fetch(once.excludes));
      } else {
        assert Suggested(model, WrapRole(options)).None?;
      }
    }
    if Truthy(Fetch(once.excludes)) {
      StringListNormal(once.excludes.value);
    }
  }
}
