# protected_attributes: the mass-assignment gate

A Dafny model of the mass-assignment gate of the `protected_attributes`
plugin for Active Record. The gate decides which keys of an untrusted
attribute hash reach a record's setters, under which role, and through
which entry point.

The modules, in dependency order:

- `Values`: Ruby values and ordered hashes, with `blank?` (Unicode white space counts as blank), `to_s`, `stringify_keys` and `except`.
- `Errors`: the exceptions raised, and a `Result` type that carries them.
- `Authorization`: the per-role black and white lists built by `attr_protected` and `attr_accessible`, `deny?`, and the sanitizer.
- `ModelClasses`: a model class: its primary key, inheritance column, columns, declarations, setters and nested setters. Also `attributes_protected_by_default` and `sanitize_for_mass_assignment`, including the strong-parameters fallback.
- `Assignment`: `assign_attributes`.
  - Blank input is a no-op. Otherwise the keys are stringified and the role is resolved.
  - The sanitizer runs unless `without_protection` is set.
  - The survivors are applied in three buckets: plain keys, then hash values, then multiparameter keys.
  - The per-call options are saved and restored.
- `Inheritance`: the single-table-inheritance gate in front of subclass lookup.
- `Construction`: `Model.new(attributes, options)`.
- `FanOut`: the array fan-out shared by every creating entry point.
- `Persistence`: class `create`, `update_attributes`, `update_attributes!`.
- `Validations`: class `create!`.
- `Relation`: `first_or_create`, `first_or_create!`.
- `NestedAttributes`: the one-to-one and collection decisions behind `<association>_attributes=`.
- `Associations`: `build_record`, and collection and singular `build` / `create` / `create!`.
- `ParamsWrapper`: the controller's `_set_wrapper_defaults`.
- `Fixtures`: the `LoosePerson` and `Subscriber` test models, as concrete classes.

What the model takes as parameters:

- A record's validations are a parameter `valid: Record -> bool`.
- A block passed to `create` is a function `block: Record -> Record`.
- The record a relation finds is an `Option<Record>`.
- `association.build` inside a nested collection assignment is a function `build: (attributes, options) -> Record`.
- The ORM's column writers, nested setters and multiparameter assignment are recorded in an effect log on the record.
- Setters that re-enter the gate are bounded by a `fuel` parameter.

## Model

| member | source | states |
|---|---|---|
| Values.StringifyKeys | lib/active_record/mass_assignment_security/attribute_assignment.rb:51 | the result has distinct, all-string keys, one for each name the input spells as a symbol or a string; each name carries the value the last spelling of it gave |
| Values.StringifyDistinctNames | lib/active_record/mass_assignment_security/attribute_assignment.rb:51 | a hash that never spells a name twice keeps its order and values, with every key turned into a string |
| Values.StringifyKeysIdentity | lib/active_record/mass_assignment_security/attribute_assignment.rb:51 | a hash that already has distinct string keys comes back unchanged |
| Values.ExceptNames | lib/active_record/mass_assignment_security/associations.rb:6 | an entry survives `except` exactly when its key is not one of the string names given |
| Authorization.BaseName | test/mass_assignment_security_test.rb:100-105 | a key with no `(` is its own base name, and the base name of a single-line key is a prefix of it |
| Authorization.BaseNameCut | test/mass_assignment_security_test.rb:100-105 | on a single-line key, the base name ends just before the first `(` that has something after it |
| Authorization.BaseNameKeeps | test/mass_assignment_security_test.rb:100-105 | a key is its own base name if and only if none of its `(` is followed by a character other than a line break |
| Authorization.MultiparameterKeysJudgedByName | test/mass_assignment_security_test.rb:100-105 | `name(suffix)` is judged as `name`, for any single-line name without `(` and any non-empty single-line suffix |
| Authorization.MultiparameterDateProtected | test/mass_assignment_security_test.rb:100-105 | a black list naming an attribute drops every date-select key for it (`starting(1i)`, `starting(2i)`, `starting(3i)`), leaving nothing |
| Authorization.ActiveAuthorizer | test/mass_assignment_security_test.rb:66-98 | the list in force has the kind of the latest declaration; a black list always contains the default-protected names |
| Authorization.Kept | test/mass_assignment_security_test.rb:14-19 | an entry is kept exactly when it was in the input and the list does not deny its name; nothing is added |
| Authorization.SanitizeEntries | test/mass_assignment_security_test.rb:107-117 | it raises exactly when the removal policy aborts on the removed names, and the error lists them; otherwise the result is exactly the allowed entries |
| Authorization.KeptIdempotent | test/mass_assignment_security_test.rb:14-19 | sanitizing a second time removes nothing more |
| Authorization.SanitizeIdempotent | test/mass_assignment_security_test.rb:14-19 | a hash that passed the sanitizer passes it again, unchanged |
| Authorization.WhiteListAdmitsListed | test/mass_assignment_security_test.rb:28-50 | under a white list, a key survives if and only if the role's accessible set lists its base name, whether or not that name is protected by default |
| Authorization.BlackListRemovesProtected | test/mass_assignment_security_test.rb:66-71 | under a black list, a key survives if and only if its base name is neither protected by default nor protected for the role |
| Authorization.DeclaredAppend | test/mass_assignment_security_test.rb:73-98 | repeated and inherited declarations union: a longer history declares exactly the union of its parts |
| Authorization.SubclassProtectsMore | test/mass_assignment_security_test.rb:73-98 | a subclass never protects, or makes accessible, less than its parent |
| Authorization.BlackListDeny | test/mass_assignment_security/black_list_test.rb:12-18 | on a black list, `deny?` holds exactly for the listed names |
| ModelClasses.ProtectedByDefault | lib/active_record/mass_assignment_security/attribute_assignment.rb:14-18 | the set holds the primary key, the inheritance column and `id`, and nothing else; it has three members only when the primary key is not `id` |
| ModelClasses.Sanitize | test/mass_assignment_security/strong_parameters_fallback_test.rb:12-36 | a class without declarations raises `ForbiddenAttributes` exactly for unpermitted parameters and otherwise passes the hash unchanged; a declaring class keeps exactly the entries its list for the role allows |
| ModelClasses.DefaultsAlwaysProtected | test/attribute_sanitization_test.rb:84-98 | under a black list the primary key, the inheritance column and `id` never survive, whatever the role |
| Assignment.SplitBuckets | lib/active_record/mass_assignment_security/attribute_assignment.rb:61-69 | the single loop puts each key into the bucket the three filters define, in order; the `(` test comes before the hash test |
| Assignment.BucketsPartition | lib/active_record/mass_assignment_security/attribute_assignment.rb:61-69 | every surviving key lands in exactly one bucket: the three buckets together are a permutation of the survivors |
| Assignment.NilRoleIsDefault | lib/active_record/mass_assignment_security/attribute_assignment.rb:83-85 | a missing or nil `:as` resolves to `:default`, and the sanitizer sees the same list as for an explicit `:default` |
| Assignment.Surviving | lib/active_record/mass_assignment_security/attribute_assignment.rb:57-59 | with `without_protection` every stringified key survives; otherwise the survivors are the sanitizer's verdict for the call's role |
| Assignment.Assign | lib/active_record/mass_assignment_security/attribute_assignment.rb:48-75 | blank input leaves the record untouched. A non-hash input raises `NoMethodError`, and a sanitizer abort (a raising sanitizer, or `ForbiddenAttributes`) raises its error; both leave the record exactly as it was, with nothing written. Whatever happens, including a raise, the class, original values, per-call options and saved state are as before, and the effect log only grows |
| Assignment.RunEntries | lib/active_record/mass_assignment_security/attribute_assignment.rb:61-71 | running the setters in order keeps the record's frame and only extends its effect log |
| Assignment.CallSetter | lib/active_record/mass_assignment_security/attribute_assignment.rb:67 | a single setter call keeps the record's frame, whichever setter answers |
| Assignment.SurvivingDistinct | lib/active_record/mass_assignment_security/attribute_assignment.rb:51-58 | no name reaches a setter twice |
| Assignment.AssignOrder | lib/active_record/mass_assignment_security/attribute_assignment.rb:61-74 | with no re-entrant setter among the survivors, the call raises nothing. Plain keys are written first, then nested setters run with the call's own options, then multiparameter keys go as one batch. The outer options are restored |
| Assignment.AssignWritesSurvivor | lib/active_record/mass_assignment_security/attribute_assignment.rb:57-69 | a surviving key whose setter is the column writer ends with its value |
| Assignment.AssignKeepsOthers | lib/active_record/mass_assignment_security/attribute_assignment.rb:57-69 | a column that no survivor names keeps the value it had |
| Assignment.AssignAsWritten | lib/active_record/mass_assignment_security/attribute_assignment.rb:48-75 | as written, blank or non-hash input resets the per-call options to nil instead of restoring them; on every other path it is `Assign` |
| Assignment.AsWrittenDropsOuterRole | lib/active_record/mass_assignment_security/attribute_assignment.rb:48-75 | a blank re-entrant assignment inside an `:as => :admin` call makes a later nested setter run with empty options, so under `:default`; `Assign` passes the admin options on |
| Inheritance.BaseSubclass | test/attribute_sanitization_test.rb:275-286 | a present type name other than the class's own selects a subclass exactly when it names a descendant, and raises `SubclassNotFound` otherwise; a blank type, or the class's own name, selects nothing |
| Inheritance.SubclassFromAttributes | lib/active_record/mass_assignment_security/inheritance.rb:12-19 | when the `:default` list denies the inheritance column the lookup is nil whatever the hash holds; otherwise it is the base rule. No other role is consulted |
| Inheritance.BlackListKeepsClass | test/attribute_sanitization_test.rb:270-273 | a black-listed class never switches class through `type` |
| Inheritance.WhiteListHonoursListedType | test/attribute_sanitization_test.rb:275-278 | under a white list, `type` is honoured if and only if the `:default` role lists the inheritance column |
| Construction.InstantiatedClass | test/attribute_sanitization_test.rb:270-286 | `new` keeps the receiver unless the gate allows a type name, and any other class it picks is a descendant named by the hash |
| Construction.New | lib/active_record/core.rb:3-13 | a falsy argument gives a fresh record. Otherwise the record is the gate's result, with the caller's options, on a fresh record of the chosen class, and it raises exactly when the gate raises |
| FanOut.Each | lib/active_record/mass_assignment_security/persistence.rb:42-47 | a non-array argument fails exactly when its one step fails; records made earlier are never lost |
| FanOut.EachFlat | lib/active_record/mass_assignment_security/validations.rb:12-13 | on an array of non-arrays whose steps all succeed, the result is one record per element, in order, each what the element makes on its own |
| FanOut.EachStops | lib/active_record/mass_assignment_security/associations.rb:38-39 | on an array, the first failing element stops the walk with its exception, after the records of the elements before it |
| NestedAttributes.UnassignableKeys | lib/active_record/mass_assignment_security/nested_attributes.rb:148-150 | `_destroy` is always stripped; `id` is stripped exactly when the call is protected |
| NestedAttributes.AssignOrMark | lib/active_record/mass_assignment_security/nested_attributes.rb:143-146 | the record is assigned the payload minus the unassignable keys, with the parent's options; it is marked for destruction exactly when the payload carries a true `_destroy` and destruction is allowed |
| NestedAttributes.OneToOne | lib/active_record/mass_assignment_security/nested_attributes.rb:51-70 | a non-hash payload raises, and any assign or build made carries the parent call's options |
| NestedAttributes.OneToOneBranches | lib/active_record/mass_assignment_security/nested_attributes.rb:55-69 | the current record is updated when update-only or a matching non-blank id holds and the payload is not rejected. An unmatched present id raises `RecordNotFound` unless unprotected. Otherwise a new record is built unless the payload is rejected; when no `build_` method exists it raises `ArgumentError` instead |
| NestedAttributes.Normalize | lib/active_record/mass_assignment_security/nested_attributes.rb:94-101 | it raises exactly for a non-hash, non-array argument. A hash with an `id` key, symbol or string, becomes a one-element list; any other hash becomes its values in order |
| NestedAttributes.FindById | lib/active_record/mass_assignment_security/nested_attributes.rb:119 | the record found is one whose id matches as a string; none is found only when no record matches |
| NestedAttributes.FindInTarget | lib/active_record/mass_assignment_security/nested_attributes.rb:123 | a record found in the target is the same record under the ORM's `==`; none is found exactly when no target record is the same |
| NestedAttributes.RawId | lib/active_record/mass_assignment_security/nested_attributes.rb:108 | `a['id'] \|\| a[:id]`: a hash answers its string `id` when truthy, else its symbol `id`. A string or symbol answers `"id"` exactly when it contains it, and raises `TypeError` otherwise. Nil and booleans raise `NoMethodError`; integers and arrays raise `TypeError` |
| NestedAttributes.RawIds | lib/active_record/mass_assignment_security/nested_attributes.rb:108 | the id list exists exactly when no element raises, and holds no nil; otherwise the error is the first raising element's |
| NestedAttributes.RecordsWithIds | lib/active_record/mass_assignment_security/nested_attributes.rb:105-110 | the scope query returns exactly the scope's records whose id matches one of the ids, as strings |
| NestedAttributes.ScopedRecords | lib/active_record/mass_assignment_security/nested_attributes.rb:105-110 | for an unloaded association, it raises exactly when the id extraction raises, with its error; otherwise it returns exactly the scope's records that some extracted id names |
| NestedAttributes.CollectionEntry | lib/active_record/mass_assignment_security/nested_attributes.rb:112-139 | a non-hash entry raises `NoMethodError`, and the only other exception is `RecordNotFound`. Every build or assign made for an entry receives its payload minus the unassignable keys, and the parent's options. A record is added to the target only as the entry's first call, only for an unloaded association, and only when the target holds no record the same as it |
| NestedAttributes.ExistingEntry | lib/active_record/mass_assignment_security/nested_attributes.rb:119-134 | an entry that names an existing record never builds. Any assign goes to that record, or to the target's copy of it, which has the same id. An assign happens exactly when the payload is not rejected, and it carries the assignable payload and the parent's options |
| NestedAttributes.CollectionEntries | lib/active_record/mass_assignment_security/nested_attributes.rb:112-140 | the walk finishes without an exception only when every entry is a hash, and any exception is `NoMethodError` or `RecordNotFound`. A loaded association is never added to |
| NestedAttributes.RunEntries | lib/active_record/mass_assignment_security/nested_attributes.rb:103-110 | on an unloaded association, an id extraction that raises stops everything before any entry runs, with that error |
| NestedAttributes.IdsRaiseBeforeEntries | lib/active_record/mass_assignment_security/nested_attributes.rb:105-112 | on an unloaded association, a nil, boolean, integer or array element makes the run raise `NoMethodError` or `TypeError` with no call made, even when entries before it are valid |
| NestedAttributes.NoRecordAddedTwice | lib/active_record/mass_assignment_security/nested_attributes.rb:120-129 | every record the walk adds to the target is unlike every record the target held before and every record added earlier in the walk |
| NestedAttributes.DuplicateEntryAddedOnce | lib/active_record/mass_assignment_security/nested_attributes.rb:119-134 | on an unloaded association, two entries naming the same stored record add it once and assign to it twice |
| NestedAttributes.BuiltRecordFoundByNextEntry | lib/active_record/mass_assignment_security/nested_attributes.rb:105-136 | on a loaded association without protection, a record built for an unknown id joins the target, so a second entry with that id updates it instead of building again |
| NestedAttributes.Collection | lib/active_record/mass_assignment_security/nested_attributes.rb:72-141 | a non-hash, non-array argument raises `ArgumentError`. A collection of more records than the limit raises `TooManyRecords` before any call |
| NestedAttributes.CollectionAsWritten | lib/active_record/mass_assignment_security/nested_attributes.rb:89-92 | as written, the limit is compared with the raw argument's size, before normalisation |
| NestedAttributes.AllBlankIff | lib/active_record/mass_assignment_security/nested_attributes.rb:8 | `:all_blank` rejects a payload if and only if it does not ask for destruction and every entry is `_destroy` or blank |
| NestedAttributes.CollectionActionsCarryOptions | lib/active_record/mass_assignment_security/nested_attributes.rb:112-139 | every build and assign of a collection carries the parent's options unchanged, and never an unassignable key |
| NestedAttributes.CollectionEntryBranches | lib/active_record/mass_assignment_security/nested_attributes.rb:115-139 | for one entry: a blank id builds unless rejected. An id an existing record carries updates that record, and never builds, unless rejected. Any other id builds without protection and raises `RecordNotFound` under it |
| NestedAttributes.LimitBeforeEntries | lib/active_record/mass_assignment_security/nested_attributes.rb:79-92 | over the limit, nothing is built or assigned and `TooManyRecords` is raised |
| NestedAttributes.LimitCountsKeysAsWritten | lib/active_record/mass_assignment_security/nested_attributes.rb:89-101 | a single hash with an `id` and two more keys, under a limit of two, raises as written and is accepted by `Collection` |
| Associations.BuildRecord | lib/active_record/mass_assignment_security/associations.rb:4-9 | when `new` raises with the caller's attributes and options, it raises the same; it succeeds only when `new` does, and then the record has the class `new` chose, is unsaved, and is outside any call |
| Associations.BuildRecordSucceeds | lib/active_record/mass_assignment_security/associations.rb:4-9 | with a scope the builder can apply, it raises only when `new` raises: the scope assignment itself never raises |
| Associations.ScopePlain | lib/active_record/mass_assignment_security/associations.rb:5-8 | the scope as assigned is a string-keyed hash naming plain columns |
| Associations.ScopeAssignment | lib/active_record/mass_assignment_security/associations.rb:5-8 | the scope is assigned without protection: it raises nothing, and every scope key survives |
| Associations.ForeignKeyFromScope | lib/active_record/mass_assignment_security/associations.rb:6-7 | the foreign key always takes the scope's value, whatever the caller passed, under any role |
| Associations.CallerChangesKept | lib/active_record/mass_assignment_security/associations.rb:6-7 | a column the caller changed, other than the foreign key, keeps the caller's value |
| Associations.CollectionBuild | lib/active_record/mass_assignment_security/associations.rb:15-23 | the association's fields other than its target are unchanged, and the target only grows at the end. A non-array builds one record and appends it, or raises and appends nothing |
| Associations.BuildArray | lib/active_record/mass_assignment_security/associations.rb:16-17 | an array builds one record per element, in order, each with the same options, and appends them in that order |
| Associations.CreateRecord | lib/active_record/mass_assignment_security/associations.rb:33-48 | an unsaved owner raises `RecordNotSaved` before anything is built, even for an array; the target only grows |
| Associations.CreateVersusCreateBang | lib/active_record/mass_assignment_security/associations.rb:25-31 | `create` and `create!` agree when the save succeeds. On a failed save, `create` adds the unsaved record to the target, while `create!` raises `RecordInvalid` and leaves the target alone |
| Associations.CreateBangArrayStops | lib/active_record/mass_assignment_security/associations.rb:38-39 | `create!` on an array stops at the first failed save; the elements before it are saved and in the target, in order |
| Associations.SingularBuild | lib/active_record/mass_assignment_security/associations.rb:97-102 | the built record replaces the target |
| Associations.SingularCreate | lib/active_record/mass_assignment_security/associations.rb:104-111 | the record becomes the target, saved or not. `RecordInvalid` is raised exactly when the save failed and raising was asked for; otherwise the record is returned |
| Persistence.Save | lib/active_record/mass_assignment_security/persistence.rb:46 | a record is stored when it was stored or is valid; nothing else about it changes |
| Persistence.Create | lib/active_record/mass_assignment_security/persistence.rb:41-49 | a non-array raises exactly when `new` raises with the caller's options. Otherwise the block's record is returned, saved exactly when it is valid (or was already stored), and unchanged otherwise |
| Persistence.CreateArray | lib/active_record/mass_assignment_security/persistence.rb:42-43 | on an array, one result per element, in order, each what `create` returns for that element with the same options and block |
| Persistence.UpdateAttributes | lib/active_record/mass_assignment_security/persistence.rb:60-67 | the gate runs with the caller's options; a raise skips the save. Otherwise the result is true exactly when the record is valid, and the record is stored accordingly |
| Persistence.UpdateAttributesBang | lib/active_record/mass_assignment_security/persistence.rb:71-78 | it never returns false: it either returns true or raises the gate's exception or `RecordInvalid` |
| Persistence.UpdateVersusUpdateBang | lib/active_record/mass_assignment_security/persistence.rb:60-78 | the two leave the same record. `update_attributes!` raises `RecordInvalid` exactly where `update_attributes` returns false, and agrees with it everywhere else |
| Persistence.UpdateWritesSurvivor | test/attribute_sanitization_test.rb:288-290 | through either update, roles and `without_protection` take effect: a surviving key lands with its value |
| Persistence.CreateForbidsUnpermitted | test/mass_assignment_security/strong_parameters_fallback_test.rb:12-15 | for a class with no declarations, unpermitted parameters make `create` raise `ForbiddenAttributes` under any role |
| Validations.CreateBang | lib/active_record/mass_assignment_security/validations.rb:11-20 | a non-array raises what `new` raises. Otherwise it raises `RecordInvalid` exactly when the block's record is invalid, and returns that record saved otherwise |
| Validations.CreateVersusCreateBang | lib/active_record/mass_assignment_security/validations.rb:15-18 | `create` and `create!` build the same record and agree when it is valid. When it is not, `create` returns it unsaved and `create!` raises `RecordInvalid` |
| Validations.CreateBangArray | lib/active_record/mass_assignment_security/validations.rb:12-13 | on an array, one result per element, in order, each what `create!` returns for that element alone |
| Validations.CreateBangArrayStops | lib/active_record/mass_assignment_security/validations.rb:12-13 | on an array, the first invalid element stops `create!` with `RecordInvalid` |
| Validations.CreateBangForbidsUnpermitted | test/mass_assignment_security/strong_parameters_fallback_test.rb:12-15 | for a class with no declarations, unpermitted parameters make `create!` raise `ForbiddenAttributes` |
| Relation.FirstOrCreate | lib/active_record/mass_assignment_security/relation.rb:28-30 | a record found is returned as it is; otherwise the result is `create` with the same attributes, options and block |
| Relation.FirstOrCreateBang | lib/active_record/mass_assignment_security/relation.rb:35-37 | a record found is returned as it is; otherwise the result is `create!` with the same arguments |
| Relation.FoundRecordReturned | lib/active_record/mass_assignment_security/relation.rb:29 | a found record is returned by both variants, never raising, whatever the attributes or validations |
| Relation.NothingFoundCreates | lib/active_record/mass_assignment_security/relation.rb:29-36 | with nothing found, the record made is the one `new` builds with the call's options. One variant saves it; the other raises `RecordInvalid` exactly when it is invalid |
| Relation.FirstOrCreateForbidsUnpermitted | test/mass_assignment_security/strong_parameters_fallback_test.rb:18-19 | for a class with no declarations, unpermitted parameters raise `ForbiddenAttributes` through both variants |
| ParamsWrapper.ArrayOf | lib/action_controller/accessible_params_wrapper.rb:30-32 | `Array(x)`: nil is empty, an array is itself, anything else is wrapped |
| ParamsWrapper.NormalizeList | lib/action_controller/accessible_params_wrapper.rb:30-31 | a truthy option becomes an array of strings, element for element its `to_s`; a falsy one is left alone |
| ParamsWrapper.Suggested | lib/action_controller/accessible_params_wrapper.rb:16-20 | a suggested include list is never empty |
| ParamsWrapper.SetWrapperDefaults | lib/action_controller/accessible_params_wrapper.rb:11-35 | the role option is untouched; `:format` is always an array; `:include` and `:exclude` are string arrays whenever they are set |
| ParamsWrapper.ExplicitListsWin | lib/action_controller/accessible_params_wrapper.rb:14 | with `:include` or `:exclude` given, no include list is derived; the caller's is only normalised |
| ParamsWrapper.IncludeFromAccessible | lib/action_controller/accessible_params_wrapper.rb:16-18 | otherwise a non-empty accessible list for the role becomes the include list, in order |
| ParamsWrapper.IncludeFromAttributeNames | lib/action_controller/accessible_params_wrapper.rb:19-20 | failing that, non-empty attribute names become the include list |
| ParamsWrapper.NothingToDerive | lib/action_controller/accessible_params_wrapper.rb:14-22 | with neither source, the include option stays as the caller had it |
| ParamsWrapper.RoleFetch | lib/action_controller/accessible_params_wrapper.rb:16-20 | without `:as`, a non-empty `:default` accessible list becomes the include list. An explicit nil `:as` never consults that list: when the nil role has no accessible names, the attribute names are used even when `:default` has some |
| ParamsWrapper.WrapperIdempotent | lib/action_controller/accessible_params_wrapper.rb:30-32 | applying the defaults twice gives what applying them once gives |
| Fixtures.LooseLists | test/models/person.rb:4-5 | `LoosePerson` protects `id`, `type`, `comments` and both friend ids by default, and only `id` and `type` for `:admin` |
| Fixtures.PersonSanitizedDefault | test/attribute_sanitization_test.rb:116-121 | without a role, the test's person hash loses `id` and `comments` and keeps `first_name` and `gender`, in order |
| Fixtures.PersonSanitizedAdmin | test/attribute_sanitization_test.rb:48-57 | under `:admin`, only `id` is removed |
| Fixtures.PersonSurvivorsDefault | test/attribute_sanitization_test.rb:116-121 | the gate's survivors of the person hash without a role are `first_name` and `gender` |
| Fixtures.PersonSurvivorsAdmin | test/attribute_sanitization_test.rb:48-57 | the survivors under `:admin` are `first_name`, `gender` and `comments` |
| Fixtures.SymbolKeyedPersonHash | test/attribute_sanitization_test.rb:28-35 | the test's symbol-keyed `attributes_hash` stringifies in place. Its survivors are `first_name` and `gender` without a role, plus `comments` under `:admin` |
| Fixtures.LooseWithoutProtection | test/attribute_sanitization_test.rb:123-128 | with `without_protection`, even `id` is assigned, and so is `comments` |
| Fixtures.SubscriberDefaults | test/attribute_sanitization_test.rb:84-98 | with the primary key `nick`, the default-protected set is `nick`, `type` and `id` |

## Left out

- The authorizer and sanitizer of ActiveModel are not part of this model's sources. Their behaviour comes from the test assertions and fixtures:
  - a declaration history per class, unioned per role and kind;
  - the kind of the latest declaration is in force;
  - `deny?` works on the base name of a multiparameter key;
  - logging and raising sanitizers become a removal policy, `LogRemoved` or `RaiseUnless`.
- Mixing `attr_protected` and `attr_accessible` in one hierarchy is not an error here. The code has no such check, and the `Company` / `Corporation` fixtures mix them.
- An undeclared role has no declared names and does not fall back to the `:default` declarations: the code has no fallback. Its black list is still the default-protected names, and its white list is empty.
- `without_protection` skips the whole sanitizer, so default-protected columns such as `id` are assigned too. A white list that names `type` admits it.
- Nested hashes are applied before multiparameter keys, as the code does.
- The ORM primitives are not modelled. This covers `_assign_attribute`, `assign_multiparameter_attributes`, `save` / `save!`, `insert_record`, `add_to_target` callbacks, transactions and rollback, and `association.scope.where`. Column writes, nested setter calls and the multiparameter batch are recorded as effects. Validity is a parameter, and the scope's records are given.
- `UnknownAttributeError` is raised by the model's column-writer fallback. Nothing beyond that is modelled of setters.
- `Construction.New`: `init_attributes` delegates to `assign_attributes` (lib/active_record/mass_assignment_security/core.rb:7-9). `initialize` callbacks and the block given to `new` are not modelled.
- `Persistence.Create` and `Validations.CreateBang` apply the block after `new` returns. In the code, `create` passes the block into `new`, which yields before the initialize callbacks; without callbacks the two agree.
- The blocks given to association `build`, `create` and `create!` are not modelled.
- `CollectionProxy#build/create/create!` (associations.rb:53-65) forward their arguments unchanged. Calls through the proxy are therefore the calls on the association, and are modelled only as those.
- `HasManyThroughAssociation#build_record` inverse wiring (associations.rb:67-86) is ORM reflection and is not modelled.
- `Associations.CreateRecord`: the owner check runs once rather than before each element of an array. The owner cannot change in between, so the outcome is the same.
- `first_or_initialize` (relation.rb:42-44) refers to an `options` it is not given, so no role threading is claimed for it.
- The nested-attribute limit is taken already resolved. Resolving a Symbol or Proc limit (nested_attributes.rb:80-87) is not modelled.
- Not modelled from `accepts_nested_attributes_for`: the dynamic method generation (nested_attributes.rb:27-39), the option-key validation, and the autosave wiring. A nested setter is a table entry by association name.
- `has_destroy_flag?` is read through a fixed list of true values. The version-dependent type-cast table is not modelled.
- `RecordId` equality compares `to_s` spellings. Arrays and hashes get a spelling that no scalar has, not Ruby's `inspect` form.
- `ActionController::Parameters` is treated like a hash when the ids are extracted.
- Object identity in the target (`super` in the ORM's `==`) is equality of record values: two distinct records with equal contents count as the same object.
- An assign to a record does not change it in the target, so a later entry is matched against the ids the records had before the run. An unprotected payload that rewrites `id` can therefore match differently in the source.
- `Relation.FirstOrCreate` and `Relation.FirstOrCreateBang`: a relation's `where` values are written into the new record by the ORM's scoping before the gate runs. The model's `create` receives only the caller's attributes, so those values are not modelled.
- The wrapper's `:name` derivation (accessible_params_wrapper.rb:24-28) relies on string-inflection helpers and is not modelled.
- The wrapper's `Array(...)` of a hash is not modelled: Ruby turns a hash into its pairs, and the model wraps it as one element.
- The wrapper works on a copy of the options: the model's function cannot change its argument.
- Setters that call back into the gate are bounded by `fuel`. Past the bound, the call raises `StackTooDeep` instead of recursing further.
- Plugin wiring (railtie, the `include` plumbing) and the test schema beyond the `LoosePerson` and `Subscriber` fixtures are not modelled.

## Findings

| source | as written | input that shows it | evidently intended | confidence | as-written member | corrected member |
|---|---|---|---|---|---|---|
| lib/active_record/mass_assignment_security/attribute_assignment.rb:48-75 | the early `return` on blank input, and the `stringify_keys` failure on a non-hash, run the `ensure` before `previous_options` is assigned, so `@mass_assignment_options` becomes nil | inside `assign_attributes(..., :as => :admin)`, a custom setter calls `assign_attributes(nil)`; a nested setter later in the same call then sees empty options and assigns under `:default` | the options in force before the call are restored on every exit | medium, not executed | Assignment.AssignAsWritten, Assignment.AsWrittenDropsOuterRole | Assignment.Assign |
| lib/active_record/mass_assignment_security/nested_attributes.rb:89-101 | the limit is compared with `attributes_collection.size` before a hash is normalised, so a single record's hash is counted by its keys | `{ id: 7, team_id: 3, _destroy: '0' }` with `:limit => 2` raises `TooManyRecords` though it names one record | the limit counts the records the collection holds | low, not executed | NestedAttributes.CollectionAsWritten, NestedAttributes.LimitCountsKeysAsWritten | NestedAttributes.Collection, NestedAttributes.LimitBeforeEntries |
