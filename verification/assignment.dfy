/** `assign_attributes`: the pipeline every mass-assignment entry point runs.
    Blank input is a no-op; otherwise keys are stringified, the role is
    resolved, the sanitizer runs unless `without_protection` is set, and the
    surviving keys are applied in three buckets: plain keys at once, hash
    values next, multiparameter keys last. The per-instance options are set
    for the call and restored afterwards, also when the call raises. */
module Assignment {
  import opened Values
  import opened Errors
  import opened Authorization
  import opened ModelClasses

  /** The options hash of one call: `:as` and `:without_protection`. */
  datatype Options = Options(role: Option<string>, withoutProtection: bool)

  const NoOptions: Options := Options(None, false)
  const WithoutProtection: Options := Options(None, true)

  /** `mass_assignment_role`: the `:as` option, `:default` when absent or nil. */
  function RoleOf(opts: Options): string {
    opts.role.GetOr(DefaultRole)
  }

  /** What reached the record, in order. */
  datatype Effect =
    | Wrote(name: string, value: Value)                            // a column writer ran
    | NestedCall(setter: NestedSetter, value: Value, options: Options) // a nested setter ran
    | Multiparameter(pairs: seq<Entry>)                            // handed to the ORM

  datatype Record = Record(
    cls: ModelClass,
    original: map<string, Value>,   // values when built or loaded
    values: map<string, Value>,
    effects: seq<Effect>,
    options: Option<Options>,       // `@mass_assignment_options`
    persisted: bool)

  function Fresh(cls: ModelClass): (r: Record)
    ensures r.values == r.original == cls.columns && r.effects == [] && r.options == None && !r.persisted
  {
    Record(cls, cls.columns, cls.columns, [], None, false)
  }

  /** `mass_assignment_options`: the options of the call in progress, an
      empty options hash outside any call. */
  function CurrentOptions(rec: Record): Options {
    rec.options.GetOr(NoOptions)
  }

  /** `record.changed`: the attributes whose value differs from the original. */
  function Changed(rec: Record): set<string> {
    set k | k in rec.values && (k !in rec.original || rec.values[k] != rec.original[k])
  }

  /** A record after a call, and the exception the call raised, if any. */
  datatype Outcome = Outcome(rec: Record, error: Option<Error>)

  // ---------------------------------------------------------------------
  // Buckets

  predicate IsMultiparameter(name: string) {
    '(' in name
  }

  /** Keys set at once: neither multiparameter nor hash-valued. */
  function DirectOf(es: seq<Entry>): (r: seq<Entry>)
    ensures forall e :: e in r <==> e in es && !IsMultiparameter(e.key.name) && !e.value.Dict?
  {
    if es == [] then []
    else if !IsMultiparameter(es[0].key.name) && !es[0].value.Dict? then [es[0]] + DirectOf(es[1..])
    else DirectOf(es[1..])
  }

  /** Keys deferred as nested: hash-valued and not multiparameter. */
  function NestedOf(es: seq<Entry>): (r: seq<Entry>)
    ensures forall e :: e in r <==> e in es && !IsMultiparameter(e.key.name) && e.value.Dict?
  {
    if es == [] then []
    else if !IsMultiparameter(es[0].key.name) && es[0].value.Dict? then [es[0]] + NestedOf(es[1..])
    else NestedOf(es[1..])
  }

  /** Keys deferred as multiparameter; the `(` test runs before the hash test. */
  function MultiparameterOf(es: seq<Entry>): (r: seq<Entry>)
    ensures forall e :: e in r <==> e in es && IsMultiparameter(e.key.name)
  {
    if es == [] then []
    else if IsMultiparameter(es[0].key.name) then [es[0]] + MultiparameterOf(es[1..])
    else MultiparameterOf(es[1..])
  }

  /** The one pass over the surviving keys: it sorts each key into exactly
      the bucket the three filters describe, keeping order within each. */
  method SplitBuckets(es: seq<Entry>) returns (direct: seq<Entry>, nested: seq<Entry>, multi: seq<Entry>)
    ensures direct == DirectOf(es) && nested == NestedOf(es) && multi == MultiparameterOf(es)
  {
    direct, nested, multi := [], [], [];
    var i := 0;
    while i < |es|
      invariant 0 <= i <= |es|
      invariant direct == DirectOf(es[..i])
      invariant nested == NestedOf(es[..i])
      invariant multi == MultiparameterOf(es[..i])
    {
      var e := es[i];
      BucketsSnoc(es[..i], e);
      assert es[..i + 1] == es[..i] + [e];
      if IsMultiparameter(e.key.name) {
        multi := multi + [e];
      } else if e.value.Dict? {
        nested := nested + [e];
      } else {
        direct := direct + [e];
      }
      i := i + 1;
    }
    assert es[..i] == es;
  }

  lemma {:induction false} BucketsSnoc(es: seq<Entry>, e: Entry)
    ensures DirectOf(es + [e]) == DirectOf(es) + (if !IsMultiparameter(e.key.name) && !e.value.Dict? then [e] else [])
    ensures NestedOf(es + [e]) == NestedOf(es) + (if !IsMultiparameter(e.key.name) && e.value.Dict? then [e] else [])
    ensures MultiparameterOf(es + [e]) == MultiparameterOf(es) + (if IsMultiparameter(e.key.name) then [e] else [])
  {
    if es != [] {
      assert (es + [e])[1..] == es[1..] + [e];
      BucketsSnoc(es[1..], e);
    } else {
      assert [] + [e] == [e];
    }
  }

  /** Every surviving key lands in exactly one bucket. */
  lemma {:induction false} BucketsPartition(es: seq<Entry>)
    ensures multiset(DirectOf(es)) + multiset(NestedOf(es)) + multiset(MultiparameterOf(es)) == multiset(es)
  {
    if es != [] {
      BucketsPartition(es[1..]);
      assert es == [es[0]] + es[1..];
    }
  }

  // ---------------------------------------------------------------------
  // The pipeline

  /** The keys that reach a setter: all of them under `without_protection`,
      otherwise those the sanitizer keeps for the call's role. */
  function Surviving(cls: ModelClass, attrs: seq<Entry>, permit: Permit, opts: Options): (r: Result<seq<Entry>>)
    ensures opts.withoutProtection ==> r == Ok(attrs)
    ensures !opts.withoutProtection ==> r == Sanitize(cls, RoleOf(opts), attrs, permit)
  {
    if opts.withoutProtection then Ok(attrs) else Sanitize(cls, RoleOf(opts), attrs, permit)
  }

  /** A nil or absent `:as` is the `:default` role: the sanitizer checks the
      call against the same list either way. */
  lemma NilRoleIsDefault(cls: ModelClass, attrs: seq<Entry>, permit: Permit, withoutProtection: bool)
    ensures RoleOf(Options(None, withoutProtection)) == DefaultRole
    ensures Surviving(cls, attrs, permit, Options(None, withoutProtection))
            == Surviving(cls, attrs, permit, Options(Some(DefaultRole), withoutProtection))
  {
  }

  /** The parts of a record a call never changes, and its append-only effect log. */
  predicate Frame(before: Record, after: Record) {
    && after.cls == before.cls
    && after.original == before.original
    && after.options == before.options
    && after.persisted == before.persisted
    && before.values.Keys <= after.values.Keys
    && |before.effects| <= |after.effects|
    && after.effects[..|before.effects|] == before.effects
  }

  /** `assign_attributes(input, opts)` on `rec`. `fuel` bounds how deep
      setters may re-enter the pipeline. */
  function Assign(rec: Record, input: Value, opts: Options, fuel: nat): (o: Outcome)
    ensures Frame(rec, o.rec)
    ensures Blank(input) ==> o == Outcome(rec, None)
    ensures !Blank(input) && !input.Dict? ==> o == Outcome(rec, Some(NoMethod("stringify_keys")))
    ensures input.Dict? && !Blank(input) && Surviving(rec.cls, StringifyKeys(input.entries), input.permit, opts).Err? ==>
              o == Outcome(rec, Some(Surviving(rec.cls, StringifyKeys(input.entries), input.permit, opts).error))
    decreases fuel, 2, 0
  {
    if Blank(input) then Outcome(rec, None)
    else if !input.Dict? then Outcome(rec, Some(NoMethod("stringify_keys")))
    else
      var attrs := StringifyKeys(input.entries);
      var inCall := rec.(options := Some(opts));
      var surviving := Surviving(rec.cls, attrs, input.permit, opts);
      if surviving.Err? then Outcome(rec, Some(surviving.error))
      else
        var d := RunEntries(inCall, DirectOf(surviving.value), fuel);
        if d.error.Some? then Outcome(d.rec.(options := rec.options), d.error)
        else
          var n := RunEntries(d.rec, NestedOf(surviving.value), fuel);
          if n.error.Some? then Outcome(n.rec.(options := rec.options), n.error)
          else
            var multi := MultiparameterOf(surviving.value);
            var done := if multi == [] then n.rec else n.rec.(effects := n.rec.effects + [Multiparameter(multi)]);
            Outcome(done.(options := rec.options), None)
  }

  /** Calls the setter of each entry in order, stopping at the first raise. */
  function RunEntries(rec: Record, es: seq<Entry>, fuel: nat): (o: Outcome)
    ensures Frame(rec, o.rec)
    decreases fuel, 1, |es|
  {
    if es == [] then Outcome(rec, None)
    else
      var s := CallSetter(rec, es[0].key.name, es[0].value, fuel);
      if s.error.Some? then s else RunEntries(s.rec, es[1..], fuel)
  }

  /** `send("#{name}=", value)`: a custom setter, else the generated nested
      setter (which reads the options of the call in progress), else the
      column writer, else `UnknownAttributeError`. */
  function CallSetter(rec: Record, name: string, v: Value, fuel: nat): (o: Outcome)
    ensures Frame(rec, o.rec)
    decreases fuel, 0, 0
  {
    if name in rec.cls.setters then
      match rec.cls.setters[name]
      case Raising => Outcome(rec, Some(SetterRaised(name)))
      case Forward(target, field) =>
        if fuel == 0 then Outcome(rec, Some(StackTooDeep))
        else Assign(rec, Dict([Entry(Sym(target), Dict([Entry(Sym(field), v)], Plain))], Plain), NoOptions, fuel - 1)
      case Reassign =>
        if fuel == 0 then Outcome(rec, Some(StackTooDeep))
        else Assign(rec, v, NoOptions, fuel - 1)
    else if name in rec.cls.nestedSetters then
      Outcome(rec.(effects := rec.effects + [NestedCall(rec.cls.nestedSetters[name], v, CurrentOptions(rec))]), None)
    else if name in rec.cls.columns then
      Outcome(rec.(values := rec.values[name := v], effects := rec.effects + [Wrote(name, v)]), None)
    else
      Outcome(rec, Some(UnknownAttribute(name)))
  }

  // ---------------------------------------------------------------------
  // What a call does when no setter re-enters the gate

  /** A name whose setter is the generated nested setter or the column writer. */
  predicate Plainly(cls: ModelClass, name: string) {
    name !in cls.setters && (name in cls.nestedSetters || name in cls.columns)
  }

  /** The effect the setter for `e` leaves, under the options of the call. */
  function EffectOf(cls: ModelClass, e: Entry, opts: Options): Effect {
    if e.key.name in cls.nestedSetters then NestedCall(cls.nestedSetters[e.key.name], e.value, opts)
    else Wrote(e.key.name, e.value)
  }

  function EffectsOf(cls: ModelClass, es: seq<Entry>, opts: Options): (r: seq<Effect>)
    ensures |r| == |es|
  {
    if es == [] then [] else [EffectOf(cls, es[0], opts)] + EffectsOf(cls, es[1..], opts)
  }

  /** The column values after the column writers for `es` ran in order. */
  function WriteAll(cls: ModelClass, vals: map<string, Value>, es: seq<Entry>): (r: map<string, Value>)
    ensures vals.Keys <= r.Keys
    decreases |es|
  {
    if es == [] then vals
    else if es[0].key.name in cls.nestedSetters then WriteAll(cls, vals, es[1..])
    else WriteAll(cls, vals[es[0].key.name := es[0].value], es[1..])
  }

  lemma {:induction false} RunEntriesPlain(rec: Record, es: seq<Entry>, fuel: nat)
    requires forall i :: 0 <= i < |es| ==> Plainly(rec.cls, es[i].key.name)
    ensures RunEntries(rec, es, fuel).error == None
    ensures RunEntries(rec, es, fuel).rec.effects == rec.effects + EffectsOf(rec.cls, es, CurrentOptions(rec))
    ensures RunEntries(rec, es, fuel).rec.values == WriteAll(rec.cls, rec.values, es)
    decreases |es|
  {
    if es != [] {
      var s := CallSetter(rec, es[0].key.name, es[0].value, fuel);
      assert s.error == None;
      assert s.rec.effects == rec.effects + [EffectOf(rec.cls, es[0], CurrentOptions(rec))];
      RunEntriesPlain(s.rec, es[1..], fuel);
      assert CurrentOptions(s.rec) == CurrentOptions(rec);
    }
  }

  /** A column writer's value survives the rest of the writes when its name
      does not occur again; a name that never occurs keeps its value. */
  lemma {:induction false} WriteAllValue(cls: ModelClass, vals: map<string, Value>, es: seq<Entry>, n: string)
    requires DistinctNames(es)
    ensures n !in NameSet(es) ==> (n in WriteAll(cls, vals, es) <==> n in vals)
    ensures n !in NameSet(es) && n in vals ==> WriteAll(cls, vals, es)[n] == vals[n]
    ensures forall e :: e in es && e.key.name == n && n !in cls.nestedSetters ==>
              n in WriteAll(cls, vals, es) && WriteAll(cls, vals, es)[n] == e.value
    decreases |es|
  {
    if es != [] {
      var vals' := if es[0].key.name in cls.nestedSetters then vals else vals[es[0].key.name := es[0].value];
      WriteAllValue(cls, vals', es[1..], n);
      forall e | e in es && e.key.name == n && n !in cls.nestedSetters
        ensures n in WriteAll(cls, vals, es) && WriteAll(cls, vals, es)[n] == e.value
      {
        if e != es[0] {
          assert e in es[1..];
          NameSetMember(es[1..], e);
          if es[0].key.name == n {
            assert false;
          }
        }
      }
    }
  }

  lemma {:induction false} FiltersKeepNames(es: seq<Entry>, p: PermissionSet)
    ensures NameSet(DirectOf(es)) <= NameSet(es) && NameSet(NestedOf(es)) <= NameSet(es)
    ensures NameSet(Kept(es, p)) <= NameSet(es)
    ensures DistinctNames(es) ==> DistinctNames(DirectOf(es)) && DistinctNames(NestedOf(es)) && DistinctNames(Kept(es, p))
  {
    if es != [] {
      FiltersKeepNames(es[1..], p);
    }
  }

  /** Distinct string keys are distinct names. */
  lemma {:induction false} TextDistinctNames(es: seq<Entry>)
    requires DistinctKeys(es) && AllText(es)
    ensures DistinctNames(es)
    ensures NameSet(es) == set k | k in KeySet(es) :: k.name
    ensures forall k :: k in KeySet(es) ==> k.Text?
  {
    if es != [] {
      assert AllText(es[1..]) by {
        forall i | 0 <= i < |es[1..]| ensures es[1..][i].key.Text? {
          assert es[1..][i] == es[i + 1];
        }
      }
      TextDistinctNames(es[1..]);
      if es[0].key.name in NameSet(es[1..]) {
        assert false;
      }
    }
  }

  /** The keys that reach a setter never name anything twice. */
  lemma SurvivingDistinct(cls: ModelClass, input: seq<Entry>, permit: Permit, opts: Options)
    requires Surviving(cls, StringifyKeys(input), permit, opts).Ok?
    ensures DistinctNames(Surviving(cls, StringifyKeys(input), permit, opts).value)
  {
    var attrs := StringifyKeys(input);
    TextDistinctNames(attrs);
    if !opts.withoutProtection && UsesSecurity(cls) {
      FiltersKeepNames(attrs, Authorizer(cls, RoleOf(opts)));
    }
  }

  /** The order promise: when no surviving key names a custom setter, the
      direct keys reach their setters first, then the nested ones with the
      call's own options, then the multiparameter keys in one batch; the
      call raises nothing and leaves the outer options in place. */
  lemma AssignOrder(rec: Record, input: Value, opts: Options, fuel: nat, s: seq<Entry>)
    requires input.Dict? && !Blank(input)
    requires Surviving(rec.cls, StringifyKeys(input.entries), input.permit, opts) == Ok(s)
    requires forall i :: 0 <= i < |s| && !IsMultiparameter(s[i].key.name) ==> Plainly(rec.cls, s[i].key.name)
    ensures Assign(rec, input, opts, fuel).error == None
    ensures Assign(rec, input, opts, fuel).rec.effects ==
              rec.effects + EffectsOf(rec.cls, DirectOf(s), opts) + EffectsOf(rec.cls, NestedOf(s), opts)
              + (if MultiparameterOf(s) == [] then [] else [Multiparameter(MultiparameterOf(s))])
    ensures Assign(rec, input, opts, fuel).rec.values ==
              WriteAll(rec.cls, WriteAll(rec.cls, rec.values, DirectOf(s)), NestedOf(s))
    ensures Assign(rec, input, opts, fuel).rec.options == rec.options
  {
    var inCall := rec.(options := Some(opts));
    BucketsPlain(rec.cls, s);
    RunEntriesPlain(inCall, DirectOf(s), fuel);
    var d := RunEntries(inCall, DirectOf(s), fuel);
    RunEntriesPlain(d.rec, NestedOf(s), fuel);
  }

  lemma BucketsPlain(cls: ModelClass, s: seq<Entry>)
    requires forall i :: 0 <= i < |s| && !IsMultiparameter(s[i].key.name) ==> Plainly(cls, s[i].key.name)
    ensures forall i :: 0 <= i < |DirectOf(s)| ==> Plainly(cls, DirectOf(s)[i].key.name)
    ensures forall i :: 0 <= i < |NestedOf(s)| ==> Plainly(cls, NestedOf(s)[i].key.name)
  {
    var direct, nested := DirectOf(s), NestedOf(s);
    forall i | 0 <= i < |direct| ensures Plainly(cls, direct[i].key.name) {
      assert direct[i] in direct;
      var j :| 0 <= j < |s| && s[j] == direct[i];
    }
    forall i | 0 <= i < |nested| ensures Plainly(cls, nested[i].key.name) {
      assert nested[i] in nested;
      var j :| 0 <= j < |s| && s[j] == nested[i];
    }
  }

  /** The two write phases over one list with distinct names: a key written
      in either phase ends with its value. */
  lemma TwoPhaseWritten(cls: ModelClass, vals: map<string, Value>, s: seq<Entry>, e: Entry)
    requires DistinctNames(s) && e in s && e.key.name in vals
    requires e.key.name !in cls.nestedSetters && !IsMultiparameter(e.key.name)
    ensures WriteAll(cls, WriteAll(cls, vals, DirectOf(s)), NestedOf(s))[e.key.name] == e.value
  {
    var n := e.key.name;
    FiltersKeepNames(s, PermissionSet(BlackList, {}));
    var direct, nested := DirectOf(s), NestedOf(s);
    var mid := WriteAll(cls, vals, direct);
    WriteAllValue(cls, mid, nested, n);
    if !e.value.Dict? {
      WriteAllValue(cls, vals, direct, n);
      if n in NameSet(nested) {
        var e' := NameSetWitness(nested, n);
        DistinctNamesUnique(s, e, e');
        assert false;
      }
    }
  }

  /** A name neither phase writes keeps its value. */
  lemma TwoPhaseUntouched(cls: ModelClass, vals: map<string, Value>, s: seq<Entry>, n: string)
    requires DistinctNames(s) && n in vals && n !in NameSet(s)
    ensures WriteAll(cls, WriteAll(cls, vals, DirectOf(s)), NestedOf(s))[n] == vals[n]
  {
    FiltersKeepNames(s, PermissionSet(BlackList, {}));
    var mid := WriteAll(cls, vals, DirectOf(s));
    WriteAllValue(cls, vals, DirectOf(s), n);
    WriteAllValue(cls, mid, NestedOf(s), n);
  }

  /** What the promise means per key: a surviving key whose setter is the
      column writer ends with its value ... */
  lemma AssignWritesSurvivor(rec: Record, input: Value, opts: Options, fuel: nat, s: seq<Entry>, e: Entry)
    requires input.Dict? && !Blank(input)
    requires Surviving(rec.cls, StringifyKeys(input.entries), input.permit, opts) == Ok(s)
    requires forall i :: 0 <= i < |s| && !IsMultiparameter(s[i].key.name) ==> Plainly(rec.cls, s[i].key.name)
    requires e in s && !IsMultiparameter(e.key.name) && e.key.name !in rec.cls.nestedSetters && e.key.name in rec.values
    ensures Assign(rec, input, opts, fuel).rec.values[e.key.name] == e.value
  {
    AssignOrder(rec, input, opts, fuel, s);
    SurvivingDistinct(rec.cls, input.entries, input.permit, opts);
    TwoPhaseWritten(rec.cls, rec.values, s, e);
  }

  /** ... and a column no surviving key names keeps the value it had. */
  lemma AssignKeepsOthers(rec: Record, input: Value, opts: Options, fuel: nat, s: seq<Entry>, n: string)
    requires input.Dict? && !Blank(input)
    requires Surviving(rec.cls, StringifyKeys(input.entries), input.permit, opts) == Ok(s)
    requires forall i :: 0 <= i < |s| && !IsMultiparameter(s[i].key.name) ==> Plainly(rec.cls, s[i].key.name)
    requires n in rec.values && n !in NameSet(s)
    ensures Assign(rec, input, opts, fuel).rec.values[n] == rec.values[n]
  {
    AssignOrder(rec, input, opts, fuel, s);
    SurvivingDistinct(rec.cls, input.entries, input.permit, opts);
    TwoPhaseUntouched(rec.cls, rec.values, s, n);
  }

  lemma {:induction false} NameSetWitness(es: seq<Entry>, n: string) returns (e: Entry)
    requires n in NameSet(es)
    ensures e in es && e.key.name == n
  {
    if es[0].key.name == n {
      e := es[0];
    } else {
      e := NameSetWitness(es[1..], n);
    }
  }

  /** Two entries of a list with distinct names are equal when their names are. */
  lemma {:induction false} DistinctNamesUnique(es: seq<Entry>, a: Entry, b: Entry)
    requires DistinctNames(es) && a in es && b in es && a.key.name == b.key.name
    ensures a == b
  {
    if a != es[0] && b != es[0] {
      DistinctNamesUnique(es[1..], a, b);
    } else if a != es[0] {
      NameSetMember(es[1..], a);
    } else if b != es[0] {
      NameSetMember(es[1..], b);
    }
  }

  // ---------------------------------------------------------------------
  // The early exits as written

  /** `assign_attributes` as the source spells it. The early `return` on
      blank input and the `stringify_keys` that fails on a non-hash both
      leave through the `ensure` before `previous_options` has been read, so
      the options are reset to nil rather than restored. Every other path is
      `Assign`'s. */
  function AssignAsWritten(rec: Record, input: Value, opts: Options, fuel: nat): (o: Outcome)
    ensures Blank(input) || !input.Dict? ==> o.rec == rec.(options := None)
    ensures !Blank(input) && !input.Dict? ==> o.error == Some(NoMethod("stringify_keys"))
    ensures input.Dict? && !Blank(input) ==> o == Assign(rec, input, opts, fuel)
  {
    if Blank(input) then Outcome(rec.(options := None), None)
    else if !input.Dict? then Outcome(rec.(options := None), Some(NoMethod("stringify_keys")))
    else Assign(rec, input, opts, fuel)
  }

  /** A setter that re-enters the gate with a blank value, run while an
      `:as => :admin` call is in progress, wipes the admin options as
      written: a nested setter that runs afterwards in the same outer call
      receives the empty options, so its records are assigned under the
      `:default` role. `Assign` keeps the admin options. */
  lemma AsWrittenDropsOuterRole()
    ensures var cls := ModelClass("Person", "id", "type", map["name" := Nil], [], LogRemoved, map[],
                                  map["friend_attributes" := NestedSetter("friend", OneToOne)], {});
            var admin := Options(Some("admin"), false);
            var inCall := Fresh(cls).(options := Some(admin));
            var friend := Dict([Entry(Sym("name"), Str("Bob"))], Plain);
            && CallSetter(AssignAsWritten(inCall, Nil, NoOptions, 0).rec, "friend_attributes", friend, 0).rec.effects
               == [NestedCall(NestedSetter("friend", OneToOne), friend, NoOptions)]
            && CallSetter(Assign(inCall, Nil, NoOptions, 0).rec, "friend_attributes", friend, 0).rec.effects
               == [NestedCall(NestedSetter("friend", OneToOne), friend, admin)]
            && RoleOf(NoOptions) == DefaultRole != RoleOf(admin)
  {
  }
}
