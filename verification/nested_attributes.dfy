/** The decisions behind the generated `<association>_attributes=` setters:
    for a one-to-one association, whether the payload updates the current
    record, raises, builds a new one or is dropped; for a collection, the
    input's shape and size, and the same choice per entry. Each decision
    yields the calls it makes on the association, with the attributes it
    passes and the parent call's options. */
module NestedAttributes {
  import opened Values
  import opened Errors
  import opened Authorization
  import opened ModelClasses
  import opened Assignment

  /** The `:reject_if` option: none, `:all_blank`, or a caller's predicate. */
  datatype RejectIf = NoRejectIf | AllBlank | Custom(rejects: seq<Entry> -> bool)

  /** `nested_attributes_options[association]`; `limit` is already resolved. */
  datatype NestedOptions = NestedOptions(allowDestroy: bool, updateOnly: bool, rejectIf: RejectIf, limit: Option<nat>)

  /** A call the decision makes on the association. */
  datatype NestedAction =
    | Build(attributes: seq<Entry>, options: Options)
    | Update(record: Record, attributes: seq<Entry>, options: Options, markForDestruction: bool)
    | AddToTarget(record: Record)

  /** The calls made before the decision stopped, and the exception that stopped it. */
  datatype NestedRun = NestedRun(actions: seq<NestedAction>, error: Option<Error>)

  /** The identifier of a record: its primary key value. */
  function RecordId(rec: Record): Value {
    if rec.cls.primaryKey in rec.values then rec.values[rec.cls.primaryKey] else Nil
  }

  /** The values the column type casts to true. */
  const TrueValues: seq<Value> := [Bool(true), Int(1), Str("1"), Str("t"), Str("T"), Str("true"), Str("TRUE")]

  /** `has_destroy_flag?` on an indifferent-access payload. */
  predicate HasDestroyFlag(a: seq<Entry>) {
    Lookup(a, Text("_destroy")) in TrueValues
  }

  /** `REJECT_ALL_BLANK_PROC`: every entry is `_destroy` or has a blank value. */
  predicate AllBlankRejects(a: seq<Entry>) {
    forall i :: 0 <= i < |a| ==> a[i].key.name == "_destroy" || Blank(a[i].value)
  }

  /** `call_reject_if`: never rejects a payload flagged for destruction. */
  predicate CallRejectIf(nopts: NestedOptions, a: seq<Entry>) {
    !HasDestroyFlag(a) &&
    match nopts.rejectIf
    case NoRejectIf => false
    case AllBlank => AllBlankRejects(a)
    case Custom(p) => p(a)
  }

  /** `reject_new_record?`: a payload flagged for destruction, or rejected. */
  predicate RejectNewRecord(nopts: NestedOptions, a: seq<Entry>) {
    HasDestroyFlag(a) || CallRejectIf(nopts, a)
  }

  /** `unassignable_keys`: `id` may only pass without protection. */
  function UnassignableKeys(opts: Options): (r: set<string>)
    ensures "_destroy" in r
    ensures "id" in r <==> !opts.withoutProtection
    ensures r <= {"id", "_destroy"}
  {
    if opts.withoutProtection then {"_destroy"} else {"id", "_destroy"}
  }

  /** The payload handed on to a build or an assign. */
  function Assignable(a: seq<Entry>, opts: Options): seq<Entry> {
    ExceptNames(a, UnassignableKeys(opts))
  }

  /** `assign_to_or_mark_for_destruction`. */
  function AssignOrMark(rec: Record, a: seq<Entry>, allowDestroy: bool, opts: Options): (r: NestedAction)
    ensures r.Update? && r.record == rec && r.options == opts
    ensures r.markForDestruction <==> HasDestroyFlag(a) && allowDestroy
    ensures forall e :: e in r.attributes <==> e in a && !(e.key.Text? && e.key.name in UnassignableKeys(opts))
  {
    Update(rec, Assignable(a, opts), opts, HasDestroyFlag(a) && allowDestroy)
  }

  // ---------------------------------------------------------------------
  // One-to-one

  /** `assign_nested_attributes_for_one_to_one_association`. `current` is the
      associated record, if any; `buildable` says whether a `build_`
      method exists (not for polymorphic `belongs_to`). */
  function OneToOne(association: string, nopts: NestedOptions, current: Option<Record>, buildable: bool,
                    payload: Value, opts: Options): (r: Result<Option<NestedAction>>)
    ensures !payload.Dict? ==> r.Err?
    ensures r.Ok? && r.value.Some? ==> !r.value.value.AddToTarget? && r.value.value.options == opts
  {
    if !payload.Dict? then Err(NoMethod("with_indifferent_access"))
    else
      var a := StringifyKeys(payload.entries);
      var id := Lookup(a, Text("id"));
      if (nopts.updateOnly || !Blank(id)) && current.Some?
         && (nopts.updateOnly || ToS(RecordId(current.value)) == ToS(id)) then
        if CallRejectIf(nopts, a) then Ok(None)
        else Ok(Some(AssignOrMark(current.value, a, nopts.allowDestroy, opts)))
      else if Present(id) && !opts.withoutProtection then
        Err(RecordNotFound(association, id))
      else if !RejectNewRecord(nopts, a) then
        if buildable then Ok(Some(Build(Assignable(a, opts), opts)))
        else Err(ArgumentError("Cannot build association"))
      else Ok(None)
  }

  /** The one-to-one decision, read branch by branch from the payload. */
  lemma OneToOneBranches(association: string, nopts: NestedOptions, current: Option<Record>, buildable: bool,
                         payload: Value, opts: Options)
    requires payload.Dict?
    ensures var a := StringifyKeys(payload.entries);
            var id := Lookup(a, Text("id"));
            var r := OneToOne(association, nopts, current, buildable, payload, opts);
            var matches := (nopts.updateOnly || Present(id)) && current.Some?
                           && (nopts.updateOnly || ToS(RecordId(current.value)) == ToS(id));
            && (matches && !CallRejectIf(nopts, a) ==>
                  r == Ok(Some(Update(current.value, Assignable(a, opts), opts, HasDestroyFlag(a) && nopts.allowDestroy))))
            && (matches && CallRejectIf(nopts, a) ==> r == Ok(None))
            && (!matches && Present(id) && !opts.withoutProtection ==> r == Err(RecordNotFound(association, id)))
            && (!matches && (Blank(id) || opts.withoutProtection) ==>
                  (RejectNewRecord(nopts, a) ==> r == Ok(None))
                  && (!RejectNewRecord(nopts, a) && buildable ==> r == Ok(Some(Build(Assignable(a, opts), opts))))
                  && (!RejectNewRecord(nopts, a) && !buildable ==> r == Err(ArgumentError("Cannot build association"))))
  {
  }

  // ---------------------------------------------------------------------
  // Collections

  /** Ruby's `size` of the raw collection argument. */
  function RawSize(input: Value): nat {
    match input
    case Dict(es, _) => |es|
    case List(items) => |items|
    case _ => 0
  }

  /** A hash becomes a one-element list when it carries an `id` key, else the
      list of its values in order; an array is kept; anything else raises. */
  function Normalize(input: Value): (r: Result<seq<Value>>)
    ensures r.Err? <==> !(input.Dict? || input.List?)
    ensures input.List? ==> r == Ok(input.items)
    ensures input.Dict? && (Text("id") in KeySet(input.entries) || Sym("id") in KeySet(input.entries)) ==> r == Ok([input])
    ensures input.Dict? && !(Text("id") in KeySet(input.entries) || Sym("id") in KeySet(input.entries)) ==>
              r == Ok(ValuesOf(input.entries))
  {
    match input
    case Dict(es, _) =>
      if Text("id") in KeySet(es) || Sym("id") in KeySet(es) then Ok([input]) else Ok(ValuesOf(es))
    case List(items) => Ok(items)
    case _ => Err(ArgumentError("Hash or Array expected"))
  }

  /** The association as the decision sees it. */
  datatype CollectionState = CollectionState(
    loaded: bool,
    target: seq<Record>,   // records already in memory
    scoped: seq<Record>)   // records the association scope finds in storage

  /** `association.build(attributes, options)`: the record it makes, which
      the association also appends to its target. */
  type Builder = (seq<Entry>, Options) -> Record

  predicate OccursAt(s: string, t: string, i: int) {
    0 <= i <= |s| - |t| && s[i..i + |t|] == t
  }

  predicate Contains(s: string, t: string) {
    exists i :: 0 <= i <= |s| - |t| && OccursAt(s, t, i)
  }

  /** `a['id'] || a[:id]` on one raw element of the collection. A hash
      answers its `id`; a string or symbol answers the substring `"id"` when
      it has one and otherwise raises on `[:id]`; nil and booleans have no
      `[]`; integers and arrays index by integers only. */
  function RawId(v: Value): (r: Result<Value>)
    ensures v.Dict? ==> r.Ok?
    ensures v.Dict? && Truthy(Lookup(v.entries, Text("id"))) ==> r.value == Lookup(v.entries, Text("id"))
    ensures v.Dict? && !Truthy(Lookup(v.entries, Text("id"))) ==> r.value == Lookup(v.entries, Sym("id"))
    ensures v.Str? ==> (r.Ok? <==> Contains(v.s, "id"))
    ensures v.Symbol? ==> (r.Ok? <==> Contains(v.name, "id"))
    ensures r.Ok? && !v.Dict? ==> r.value == Str("id")
    ensures v.Nil? || v.Bool? ==> r == Err(NoMethod("[]"))
    ensures v.Int? || v.List? ==> r.Err? && r.error.TypeError?
    ensures r.Err? ==> r.error.NoMethod? || r.error.TypeError?
  {
    match v
    case Dict(es, _) =>
      if Truthy(Lookup(es, Text("id"))) then Ok(Lookup(es, Text("id"))) else Ok(Lookup(es, Sym("id")))
    case Str(s) =>
      if Contains(s, "id") then Ok(Str("id")) else Err(TypeError("no implicit conversion of Symbol into Integer"))
    case Symbol(n) =>
      if Contains(n, "id") then Ok(Str("id")) else Err(TypeError("no implicit conversion of Symbol into Integer"))
    case Nil => Err(NoMethod("[]"))
    case Bool(_) => Err(NoMethod("[]"))
    case Int(_) => Err(TypeError("no implicit conversion of String into Integer"))
    case List(_) => Err(TypeError("no implicit conversion of String into Integer"))
  }

  /** `attributes_collection.map { |a| a['id'] || a[:id] }.compact`: the
      ids in order with nils dropped; the first element that raises stops
      the map with its exception. */
  function RawIds(items: seq<Value>): (r: Result<seq<Value>>)
    ensures r.Ok? <==> forall i :: 0 <= i < |items| ==> RawId(items[i]).Ok?
    ensures r.Err? ==> exists i :: 0 <= i < |items| && RawId(items[i]) == Err(r.error)
                                   && forall j :: 0 <= j < i ==> RawId(items[j]).Ok?
    ensures r.Ok? ==> |r.value| <= |items| && forall x :: x in r.value ==> !x.Nil?
  {
    if items == [] then Ok([])
    else
      assert forall i :: 1 <= i < |items| ==> items[i] == items[1..][i - 1];
      match RawId(items[0])
      case Err(e) => Err(e)
      case Ok(id) =>
        match RawIds(items[1..])
        case Err(e) =>
          var k :| 0 <= k < |items[1..]| && RawId(items[1..][k]) == Err(e)
                   && forall j :: 0 <= j < k ==> RawId(items[1..][j]).Ok?;
          assert RawId(items[k + 1]) == Err(e);
          Err(e)
        case Ok(rest) => Ok((if id.Nil? then [] else [id]) + rest)
  }

  function RecordsWithIds(records: seq<Record>, ids: seq<Value>): (r: seq<Record>)
    ensures forall x :: x in r <==> x in records && exists i :: 0 <= i < |ids| && ToS(ids[i]) == ToS(RecordId(x))
  {
    if records == [] then []
    else
      (if exists i :: 0 <= i < |ids| && ToS(ids[i]) == ToS(RecordId(records[0])) then [records[0]] else [])
      + RecordsWithIds(records[1..], ids)
  }

  /** The records the scope of an unloaded association finds for the ids
      the entries name, fetched once before the entries run: none when no
      entry names an id. */
  function ScopedRecords(scoped: seq<Record>, items: seq<Value>): (r: Result<seq<Record>>)
    ensures r.Err? <==> RawIds(items).Err?
    ensures r.Err? ==> r.error == RawIds(items).error
    ensures r.Ok? ==> forall x :: x in r.value <==>
              x in scoped && exists i :: 0 <= i < |RawIds(items).value| && ToS(RawIds(items).value[i]) == ToS(RecordId(x))
  {
    var ids :- RawIds(items);
    if ids == [] then Ok([]) else Ok(RecordsWithIds(scoped, ids))
  }

  /** `detect { |record| record.id.to_s == id.to_s }`. */
  function FindById(records: seq<Record>, id: Value): (r: Option<Record>)
    ensures r.Some? ==> r.value in records && ToS(RecordId(r.value)) == ToS(id)
    ensures r.None? ==> forall x :: x in records ==> ToS(RecordId(x)) != ToS(id)
  {
    if records == [] then None
    else if ToS(RecordId(records[0])) == ToS(id) then Some(records[0])
    else FindById(records[1..], id)
  }

  /** Record equality of the ORM: the same object, or the same class and the
      same present id. Object identity is equality of values here. */
  predicate SameRecord(a: Record, b: Record) {
    a == b || (a.cls.name == b.cls.name && Present(RecordId(a)) && RecordId(a) == RecordId(b))
  }

  /** `association.target.detect { |record| record == existing_record }`. */
  function FindInTarget(target: seq<Record>, rec: Record): (r: Option<Record>)
    ensures r.Some? ==> r.value in target && SameRecord(r.value, rec)
    ensures r.None? <==> forall y :: y in target ==> !SameRecord(y, rec)
  {
    if target == [] then None
    else if SameRecord(target[0], rec) then Some(target[0])
    else FindInTarget(target[1..], rec)
  }

  /** The calls made for an entry whose `id` names `found`: unless the
      association is loaded, `found` is added to the target (or the target's
      copy of it is used), then assigned or marked unless rejected. */
  function ExistingEntry(nopts: NestedOptions, state: CollectionState, found: Record,
                         a: seq<Entry>, opts: Options): (r: seq<NestedAction>)
    ensures forall act :: act in r ==> !act.Build?
    ensures forall act :: act in r && act.Update? ==> RecordId(act.record) == RecordId(found)
    ensures (exists act :: act in r && act.Update?) <==> !CallRejectIf(nopts, a)
    ensures forall i :: 0 <= i < |r| && !r[i].AddToTarget? ==>
              r[i].options == opts && r[i].attributes == Assignable(a, opts)
    ensures forall i :: 0 <= i < |r| && r[i].AddToTarget? ==>
              i == 0 && !state.loaded && r[i].record == found && FindInTarget(state.target, found).None?
  {
    var inTarget := FindInTarget(state.target, found);
    var rec := if !state.loaded && !CallRejectIf(nopts, a) && inTarget.Some? then inTarget.value else found;
    var add := if state.loaded || CallRejectIf(nopts, a) || inTarget.Some? then [] else [AddToTarget(found)];
    var r := add + (if CallRejectIf(nopts, a) then [] else [AssignOrMark(rec, a, nopts.allowDestroy, opts)]);
    assert !CallRejectIf(nopts, a) ==> r[|r| - 1] in r && r[|r| - 1].Update?;
    r
  }

  /** The calls made for one entry of the collection; `existing` is where
      its `id` is looked up. */
  function CollectionEntry(association: string, nopts: NestedOptions, state: CollectionState,
                           existing: seq<Record>, item: Value, opts: Options): (r: Result<seq<NestedAction>>)
    ensures !item.Dict? ==> r == Err(NoMethod("with_indifferent_access"))
    ensures r.Err? ==> r.error.NoMethod? || r.error.RecordNotFound?
    ensures r.Ok? ==> forall i :: 0 <= i < |r.value| && !r.value[i].AddToTarget? ==>
              r.value[i].options == opts && r.value[i].attributes == Assignable(StringifyKeys(item.entries), opts)
    ensures r.Ok? ==> forall i :: 0 <= i < |r.value| && r.value[i].AddToTarget? ==>
              i == 0 && !state.loaded && FindInTarget(state.target, r.value[i].record).None?
  {
    if !item.Dict? then Err(NoMethod("with_indifferent_access"))
    else
      var a := StringifyKeys(item.entries);
      var id := Lookup(a, Text("id"));
      if Blank(id) then
        Ok(if RejectNewRecord(nopts, a) then [] else [Build(Assignable(a, opts), opts)])
      else match FindById(existing, id)
        case Some(found) => Ok(ExistingEntry(nopts, state, found, a, opts))
        case None =>
          if opts.withoutProtection then Ok([Build(Assignable(a, opts), opts)])
          else Err(RecordNotFound(association, id))
  }

  /** The records the calls append to the association's target: each record
      added, and each record built. */
  function Added(acts: seq<NestedAction>, build: Builder): (r: seq<Record>)
    ensures forall i :: 0 <= i < |acts| && acts[i].AddToTarget? ==> acts[i].record in r
    ensures forall i :: 0 <= i < |acts| && acts[i].Build? ==> build(acts[i].attributes, acts[i].options) in r
    ensures (forall i :: 0 <= i < |acts| ==> acts[i].Update?) ==> r == []
  {
    if acts == [] then []
    else
      var first := match acts[0]
        case AddToTarget(rec) => [rec]
        case Build(a, o) => [build(a, o)]
        case Update(_, _, _, _) => [];
      assert forall i :: 1 <= i < |acts| ==> acts[i] == acts[1..][i - 1];
      first + Added(acts[1..], build)
  }

  /** The association after an entry's calls: what they add or build joins
      its target. */
  function AfterEntry(state: CollectionState, acts: seq<NestedAction>, build: Builder): (s: CollectionState)
    ensures s.loaded == state.loaded && s.scoped == state.scoped
    ensures forall y :: y in state.target ==> y in s.target
    ensures forall i :: 0 <= i < |acts| && acts[i].AddToTarget? ==> acts[i].record in s.target
  {
    state.(target := state.target + Added(acts, build))
  }

  /** Where an entry's `id` is looked up: the live target of a loaded
      association, else the records the scope found before the run. */
  function IdScope(state: CollectionState, fixed: seq<Record>): seq<Record> {
    if state.loaded then state.target else fixed
  }

  /** Runs the entries in order, stopping at the first exception. Each
      entry's `id` is looked up in the live target when the association is
      loaded, and in `fixed`, the records the scope found, when it is not;
      whatever an entry adds or builds is in the target the next entries see. */
  function CollectionEntries(association: string, nopts: NestedOptions, state: CollectionState, fixed: seq<Record>,
                             build: Builder, items: seq<Value>, opts: Options): (r: NestedRun)
    ensures r.error.None? ==> forall i :: 0 <= i < |items| ==> items[i].Dict?
    ensures r.error.Some? ==> r.error.value.NoMethod? || r.error.value.RecordNotFound?
    ensures state.loaded ==> forall act :: act in r.actions ==> !act.AddToTarget?
    decreases |items|
  {
    if items == [] then NestedRun([], None)
    else
      match CollectionEntry(association, nopts, state, IdScope(state, fixed), items[0], opts)
      case Err(e) => NestedRun([], Some(e))
      case Ok(acts) =>
        var rest := CollectionEntries(association, nopts, AfterEntry(state, acts, build), fixed, build, items[1..], opts);
        assert forall i :: 1 <= i < |items| ==> items[i] == items[1..][i - 1];
        assert forall act :: act in acts + rest.actions ==> act in acts || act in rest.actions;
        NestedRun(acts + rest.actions, rest.error)
  }

  /** Lines 103-140: the records an `id` can name, then the entries. The ids
      are extracted only when the association is not loaded. */
  function RunEntries(association: string, nopts: NestedOptions, state: CollectionState, build: Builder,
                      items: seq<Value>, opts: Options): (r: NestedRun)
    ensures !state.loaded && RawIds(items).Err? ==> r == NestedRun([], Some(RawIds(items).error))
  {
    if state.loaded then CollectionEntries(association, nopts, state, [], build, items, opts)
    else match ScopedRecords(state.scoped, items)
      case Err(e) => NestedRun([], Some(e))
      case Ok(fixed) => CollectionEntries(association, nopts, state, fixed, build, items, opts)
  }

  /** `assign_nested_attributes_for_collection_association`, with the limit
      compared against the number of entries the collection holds. */
  function Collection(association: string, nopts: NestedOptions, state: CollectionState, build: Builder,
                      input: Value, opts: Options): (r: NestedRun)
    ensures !(input.Dict? || input.List?) ==> r == NestedRun([], Some(ArgumentError("Hash or Array expected")))
    ensures (input.Dict? || input.List?) && nopts.limit.Some? && |Normalize(input).value| > nopts.limit.value ==>
              r == NestedRun([], Some(TooManyRecords(nopts.limit.value, |Normalize(input).value|)))
  {
    match Normalize(input)
    case Err(e) => NestedRun([], Some(e))
    case Ok(items) =>
      if nopts.limit.Some? && |items| > nopts.limit.value then
        NestedRun([], Some(TooManyRecords(nopts.limit.value, |items|)))
      else
        RunEntries(association, nopts, state, build, items, opts)
  }

  /** The same, with the limit compared against the size of the raw
      argument, as the source does it: a single hash carrying an `id` counts
      its keys. */
  function CollectionAsWritten(association: string, nopts: NestedOptions, state: CollectionState, build: Builder,
                               input: Value, opts: Options): (r: NestedRun)
    ensures (input.Dict? || input.List?) && nopts.limit.Some? && RawSize(input) > nopts.limit.value ==>
              r == NestedRun([], Some(TooManyRecords(nopts.limit.value, RawSize(input))))
  {
    if !(input.Dict? || input.List?) then NestedRun([], Some(ArgumentError("Hash or Array expected")))
    else if nopts.limit.Some? && RawSize(input) > nopts.limit.value then
      NestedRun([], Some(TooManyRecords(nopts.limit.value, RawSize(input))))
    else
      RunEntries(association, nopts, state, build, Normalize(input).value, opts)
  }

  // ---------------------------------------------------------------------
  // Properties

  /** `:all_blank` rejects exactly the payloads whose every entry is
      `_destroy` or blank, unless the payload asks for destruction. */
  lemma AllBlankIff(a: seq<Entry>)
    ensures CallRejectIf(NestedOptions(false, false, AllBlank, None), a) <==>
              !HasDestroyFlag(a) && forall e :: e in a ==> e.key.name == "_destroy" || Blank(e.value)
  {
    if forall e :: e in a ==> e.key.name == "_destroy" || Blank(e.value) {
      forall i | 0 <= i < |a| ensures a[i].key.name == "_destroy" || Blank(a[i].value) {
        assert a[i] in a;
      }
    }
  }

  /** What every build or assign of a collection receives: the entry's
      payload minus `id` (unless unprotected) and `_destroy`, and the parent
      call's options unchanged. */
  lemma {:induction false} CollectionActionsCarryOptions(association: string, nopts: NestedOptions, state: CollectionState,
                                                         fixed: seq<Record>, build: Builder, items: seq<Value>, opts: Options)
    ensures var r := CollectionEntries(association, nopts, state, fixed, build, items, opts);
            forall act :: act in r.actions && !act.AddToTarget? ==>
              act.options == opts
              && !(exists e :: e in act.attributes && e.key.Text? && e.key.name in UnassignableKeys(opts))
    decreases |items|
  {
    if items != [] {
      var first := CollectionEntry(association, nopts, state, IdScope(state, fixed), items[0], opts);
      if first.Ok? {
        CollectionActionsCarryOptions(association, nopts, AfterEntry(state, first.value, build), fixed, build, items[1..], opts);
        forall act | act in first.value && !act.AddToTarget?
          ensures act.options == opts
          ensures !(exists e :: e in act.attributes && e.key.Text? && e.key.name in UnassignableKeys(opts))
        {
          var i :| 0 <= i < |first.value| && first.value[i] == act;
        }
      }
    }
  }

  /** One step of the walk: an entry that succeeds contributes its calls,
      and the rest run against the target it leaves. */
  lemma UnfoldEntries(association: string, nopts: NestedOptions, state: CollectionState, fixed: seq<Record>,
                      build: Builder, items: seq<Value>, opts: Options)
    requires items != []
    requires CollectionEntry(association, nopts, state, IdScope(state, fixed), items[0], opts).Ok?
    ensures var acts := CollectionEntry(association, nopts, state, IdScope(state, fixed), items[0], opts).value;
            var rest := CollectionEntries(association, nopts, AfterEntry(state, acts, build), fixed, build, items[1..], opts);
            CollectionEntries(association, nopts, state, fixed, build, items, opts) == NestedRun(acts + rest.actions, rest.error)
  {
  }

  /** No record is added to the target twice, nor added when the target
      already holds it: each record an entry adds is unlike every record in
      the target before the run and every record added before it. */
  lemma {:induction false} NoRecordAddedTwice(association: string, nopts: NestedOptions, state: CollectionState,
                                              fixed: seq<Record>, build: Builder, items: seq<Value>, opts: Options)
    ensures var acts := CollectionEntries(association, nopts, state, fixed, build, items, opts).actions;
            && (forall i :: 0 <= i < |acts| && acts[i].AddToTarget? ==>
                  forall y :: y in state.target ==> !SameRecord(y, acts[i].record))
            && (forall i, j :: 0 <= i < j < |acts| && acts[i].AddToTarget? && acts[j].AddToTarget? ==>
                  !SameRecord(acts[i].record, acts[j].record))
    decreases |items|
  {
    if items != [] {
      var first := CollectionEntry(association, nopts, state, IdScope(state, fixed), items[0], opts);
      if first.Ok? {
        var next := AfterEntry(state, first.value, build);
        NoRecordAddedTwice(association, nopts, next, fixed, build, items[1..], opts);
        var rest := CollectionEntries(association, nopts, next, fixed, build, items[1..], opts).actions;
        UnfoldEntries(association, nopts, state, fixed, build, items, opts);
        AddedAfterFirst(state, next, first.value, rest);
      }
    }
  }

  /** The step of `NoRecordAddedTwice`: the first entry's additions are new
      to the target, and the next entries' additions are new to the target
      that holds them. */
  lemma AddedAfterFirst(state: CollectionState, next: CollectionState, first: seq<NestedAction>, rest: seq<NestedAction>)
    requires forall i :: 0 <= i < |first| && first[i].AddToTarget? ==>
               i == 0 && FindInTarget(state.target, first[i].record).None?
    requires forall y :: y in state.target ==> y in next.target
    requires forall i :: 0 <= i < |first| && first[i].AddToTarget? ==> first[i].record in next.target
    requires forall i :: 0 <= i < |rest| && rest[i].AddToTarget? ==>
               forall y :: y in next.target ==> !SameRecord(y, rest[i].record)
    requires forall i, j :: 0 <= i < j < |rest| && rest[i].AddToTarget? && rest[j].AddToTarget? ==>
               !SameRecord(rest[i].record, rest[j].record)
    ensures var acts := first + rest;
            && (forall i :: 0 <= i < |acts| && acts[i].AddToTarget? ==>
                  forall y :: y in state.target ==> !SameRecord(y, acts[i].record))
            && (forall i, j :: 0 <= i < j < |acts| && acts[i].AddToTarget? && acts[j].AddToTarget? ==>
                  !SameRecord(acts[i].record, acts[j].record))
  {
    var acts := first + rest;
    forall i | 0 <= i < |acts| && acts[i].AddToTarget?
      ensures forall y :: y in state.target ==> !SameRecord(y, acts[i].record)
    {
      if i >= |first| { assert acts[i] == rest[i - |first|]; }
    }
    forall i, j | 0 <= i < j < |acts| && acts[i].AddToTarget? && acts[j].AddToTarget?
      ensures !SameRecord(acts[i].record, acts[j].record)
    {
      assert acts[j] == rest[j - |first|] by { assert i == 0 || i >= |first|; }
      if i < |first| {
        assert acts[i].record in next.target;
      } else {
        assert acts[i] == rest[i - |first|];
      }
    }
  }

  /** The three-way choice for one collection entry: a blank `id` builds
      unless rejected; an `id` some existing record carries updates that
      record unless rejected; any other `id` builds without protection and
      raises under it. */
  lemma CollectionEntryBranches(association: string, nopts: NestedOptions, state: CollectionState,
                                existing: seq<Record>, item: Value, opts: Options)
    requires item.Dict?
    ensures var a := StringifyKeys(item.entries);
            var id := Lookup(a, Text("id"));
            var r := CollectionEntry(association, nopts, state, existing, item, opts);
            && (Blank(id) ==> r == Ok(if RejectNewRecord(nopts, a) then [] else [Build(Assignable(a, opts), opts)]))
            && (Present(id) && (exists x :: x in existing && ToS(RecordId(x)) == ToS(id)) ==>
                  r.Ok?
                  && (forall act :: act in r.value ==> !act.Build?)
                  && (forall act :: act in r.value && act.Update? ==> ToS(RecordId(act.record)) == ToS(id))
                  && ((exists act :: act in r.value && act.Update?) <==> !CallRejectIf(nopts, a)))
            && (Present(id) && !(exists x :: x in existing && ToS(RecordId(x)) == ToS(id)) ==>
                  (opts.withoutProtection ==> r == Ok([Build(Assignable(a, opts), opts)]))
                  && (!opts.withoutProtection ==> r == Err(RecordNotFound(association, id))))
  {
    var a := StringifyKeys(item.entries);
    var id := Lookup(a, Text("id"));
    if Present(id) && exists x :: x in existing && ToS(RecordId(x)) == ToS(id) {
      EntryMatched(association, nopts, state, existing, item, opts, a, id);
    }
  }

  /** An entry whose `id` an existing record carries never builds, and
      assigns to that record exactly when the payload is not rejected. */
  lemma EntryMatched(association: string, nopts: NestedOptions, state: CollectionState,
                     existing: seq<Record>, item: Value, opts: Options, a: seq<Entry>, id: Value)
    requires item.Dict? && a == StringifyKeys(item.entries) && id == Lookup(a, Text("id"))
    requires Present(id) && exists x :: x in existing && ToS(RecordId(x)) == ToS(id)
    ensures var r := CollectionEntry(association, nopts, state, existing, item, opts);
            && r.Ok?
            && (forall act :: act in r.value ==> !act.Build?)
            && (forall act :: act in r.value && act.Update? ==> ToS(RecordId(act.record)) == ToS(id))
            && ((exists act :: act in r.value && act.Update?) <==> !CallRejectIf(nopts, a))
  {
    var found := FindById(existing, id);
    assert found.Some?;
  }

  /** A collection over the limit raises before any entry is looked at. */
  lemma LimitBeforeEntries(association: string, nopts: NestedOptions, state: CollectionState, build: Builder,
                           input: Value, opts: Options)
    requires nopts.limit.Some? && Normalize(input).Ok? && |Normalize(input).value| > nopts.limit.value
    ensures Collection(association, nopts, state, build, input, opts).actions == []
    ensures Collection(association, nopts, state, build, input, opts).error.Some?
    ensures Collection(association, nopts, state, build, input, opts).error.value.TooManyRecords?
  {
  }

  /** On an association that is not loaded, an element whose `['id']`
      raises stops the run before any entry is built or assigned. */
  lemma IdsRaiseBeforeEntries(association: string, nopts: NestedOptions, state: CollectionState, build: Builder,
                              items: seq<Value>, opts: Options, k: nat)
    requires !state.loaded && k < |items| && (items[k].Nil? || items[k].Bool? || items[k].Int? || items[k].List?)
    ensures var r := RunEntries(association, nopts, state, build, items, opts);
            r.actions == [] && r.error.Some? && (r.error.value.NoMethod? || r.error.value.TypeError?)
  {
    assert RawId(items[k]).Err?;
  }

  /** An entry whose present `id` no record of the target carries, whose
      payload is not rejected, and for which `build` makes a record carrying
      that `id`. */
  predicate NamesUnheld(nopts: NestedOptions, state: CollectionState, build: Builder, item: Value, opts: Options) {
    item.Dict? &&
    var a := StringifyKeys(item.entries);
    var id := Lookup(a, Text("id"));
    && Present(id) && !CallRejectIf(nopts, a)
    && (forall x :: x in state.target ==> ToS(RecordId(x)) != ToS(id))
    && ToS(RecordId(build(Assignable(a, opts), opts))) == ToS(id)
  }

  /** Under a loaded association, a record built without protection for an
      `id` nobody holds joins the target, so a second entry with that `id`
      updates the built record instead of building another. */
  lemma BuiltRecordFoundByNextEntry(association: string, nopts: NestedOptions, state: CollectionState,
                                    build: Builder, item: Value, opts: Options)
    requires state.loaded && opts.withoutProtection && NamesUnheld(nopts, state, build, item, opts)
    ensures var a := StringifyKeys(item.entries);
            var built := build(Assignable(a, opts), opts);
            CollectionEntries(association, nopts, state, [], build, [item, item], opts)
              == NestedRun([Build(Assignable(a, opts), opts), AssignOrMark(built, a, nopts.allowDestroy, opts)], None)
  {
    UnknownIdBuilds(association, nopts, state, build, item, opts);
    UnfoldEntries(association, nopts, state, [], build, [item, item], opts);
    assert [item, item][1..] == [item];
    BuiltIdFound(association, nopts, state, build, item, opts);
  }

  lemma UnknownIdBuilds(association: string, nopts: NestedOptions, state: CollectionState, build: Builder,
                        item: Value, opts: Options)
    requires state.loaded && opts.withoutProtection && NamesUnheld(nopts, state, build, item, opts)
    ensures var a := StringifyKeys(item.entries);
            CollectionEntry(association, nopts, state, state.target, item, opts) == Ok([Build(Assignable(a, opts), opts)])
  {
    var id := Lookup(StringifyKeys(item.entries), Text("id"));
    assert FindById(state.target, id).None?;
  }

  lemma BuiltIdFound(association: string, nopts: NestedOptions, state: CollectionState, build: Builder,
                     item: Value, opts: Options)
    requires state.loaded && opts.withoutProtection && NamesUnheld(nopts, state, build, item, opts)
    ensures var a := StringifyKeys(item.entries);
            var built := build(Assignable(a, opts), opts);
            var next := AfterEntry(state, [Build(Assignable(a, opts), opts)], build);
            CollectionEntries(association, nopts, next, [], build, [item], opts)
              == NestedRun([AssignOrMark(built, a, nopts.allowDestroy, opts)], None)
  {
    var a := StringifyKeys(item.entries);
    var id := Lookup(a, Text("id"));
    var built := build(Assignable(a, opts), opts);
    var acts := [Build(Assignable(a, opts), opts)];
    var next := AfterEntry(state, acts, build);
    assert Added(acts, build) == [built] by {
      assert acts[1..] == [];
    }
    assert FindById(state.target, id).None?;
    FindByIdAppended(state.target, built, id);
    assert NamesStored(nopts, next.target, item, built);
    LoadedRecordUpdated(association, nopts, next, item, opts, built);
    UnfoldEntries(association, nopts, next, [], build, [item], opts);
    assert [item][1..] == [];
  }

  /** An entry whose present `id` names `found` among `fixed` and whose
      payload is not rejected. */
  predicate NamesStored(nopts: NestedOptions, fixed: seq<Record>, item: Value, found: Record) {
    item.Dict? &&
    var a := StringifyKeys(item.entries);
    var id := Lookup(a, Text("id"));
    Present(id) && !CallRejectIf(nopts, a) && FindById(fixed, id) == Some(found)
  }

  /** On an association that is not loaded, two entries naming the same
      stored record add it to the target once and assign to it twice. */
  lemma DuplicateEntryAddedOnce(association: string, nopts: NestedOptions, state: CollectionState, fixed: seq<Record>,
                                build: Builder, item: Value, opts: Options, found: Record)
    requires !state.loaded && NamesStored(nopts, fixed, item, found) && FindInTarget(state.target, found).None?
    ensures var a := StringifyKeys(item.entries);
            var update := AssignOrMark(found, a, nopts.allowDestroy, opts);
            CollectionEntries(association, nopts, state, fixed, build, [item, item], opts)
              == NestedRun([AddToTarget(found), update, update], None)
  {
    var a := StringifyKeys(item.entries);
    var update := AssignOrMark(found, a, nopts.allowDestroy, opts);
    var acts := [AddToTarget(found), update];
    StoredRecordAdded(association, nopts, state, fixed, item, opts, found);
    UnfoldEntries(association, nopts, state, fixed, build, [item, item], opts);
    assert [item, item][1..] == [item];
    SecondEntryUpdates(association, nopts, state, fixed, build, item, opts, found);
    assert acts + [update] == [AddToTarget(found), update, update];
  }

  lemma SecondEntryUpdates(association: string, nopts: NestedOptions, state: CollectionState, fixed: seq<Record>,
                           build: Builder, item: Value, opts: Options, found: Record)
    requires !state.loaded && NamesStored(nopts, fixed, item, found) && FindInTarget(state.target, found).None?
    ensures var a := StringifyKeys(item.entries);
            var update := AssignOrMark(found, a, nopts.allowDestroy, opts);
            var next := AfterEntry(state, [AddToTarget(found), update], build);
            CollectionEntries(association, nopts, next, fixed, build, [item], opts) == NestedRun([update], None)
  {
    var a := StringifyKeys(item.entries);
    var update := AssignOrMark(found, a, nopts.allowDestroy, opts);
    var acts := [AddToTarget(found), update];
    var next := AfterEntry(state, acts, build);
    assert Added(acts, build) == [found] by {
      assert acts[1..] == [update];
      assert Added([update], build) == [];
    }
    FindInTargetAppended(state.target, found);
    StoredRecordInTarget(association, nopts, next, fixed, item, opts, found);
    UnfoldEntries(association, nopts, next, fixed, build, [item], opts);
    assert [item][1..] == [];
  }

  lemma LoadedRecordUpdated(association: string, nopts: NestedOptions, state: CollectionState,
                            item: Value, opts: Options, found: Record)
    requires state.loaded && NamesStored(nopts, state.target, item, found)
    ensures var a := StringifyKeys(item.entries);
            CollectionEntry(association, nopts, state, state.target, item, opts)
              == Ok([AssignOrMark(found, a, nopts.allowDestroy, opts)])
  {
    var a := StringifyKeys(item.entries);
    var u := AssignOrMark(found, a, nopts.allowDestroy, opts);
    assert CollectionEntry(association, nopts, state, state.target, item, opts) == Ok(ExistingEntry(nopts, state, found, a, opts));
    assert ExistingEntry(nopts, state, found, a, opts) == [] + [u];
    assert [] + [u] == [u];
  }

  lemma StoredRecordAdded(association: string, nopts: NestedOptions, state: CollectionState, fixed: seq<Record>,
                          item: Value, opts: Options, found: Record)
    requires !state.loaded && NamesStored(nopts, fixed, item, found) && FindInTarget(state.target, found).None?
    ensures var a := StringifyKeys(item.entries);
            CollectionEntry(association, nopts, state, fixed, item, opts)
              == Ok([AddToTarget(found), AssignOrMark(found, a, nopts.allowDestroy, opts)])
  {
    var a := StringifyKeys(item.entries);
    var u := AssignOrMark(found, a, nopts.allowDestroy, opts);
    assert CollectionEntry(association, nopts, state, fixed, item, opts) == Ok(ExistingEntry(nopts, state, found, a, opts));
    assert ExistingEntry(nopts, state, found, a, opts) == [AddToTarget(found)] + [u];
    assert [AddToTarget(found)] + [u] == [AddToTarget(found), u];
  }

  lemma StoredRecordInTarget(association: string, nopts: NestedOptions, state: CollectionState, fixed: seq<Record>,
                             item: Value, opts: Options, found: Record)
    requires !state.loaded && NamesStored(nopts, fixed, item, found) && FindInTarget(state.target, found) == Some(found)
    ensures var a := StringifyKeys(item.entries);
            CollectionEntry(association, nopts, state, fixed, item, opts) == Ok([AssignOrMark(found, a, nopts.allowDestroy, opts)])
  {
    var a := StringifyKeys(item.entries);
    var u := AssignOrMark(found, a, nopts.allowDestroy, opts);
    assert CollectionEntry(association, nopts, state, fixed, item, opts) == Ok(ExistingEntry(nopts, state, found, a, opts));
    assert ExistingEntry(nopts, state, found, a, opts) == [] + [u];
    assert [] + [u] == [u];
  }

  lemma {:induction false} FindInTargetAppended(target: seq<Record>, rec: Record)
    requires FindInTarget(target, rec).None?
    ensures FindInTarget(target + [rec], rec) == Some(rec)
  {
    if target != [] {
      assert (target + [rec])[1..] == target[1..] + [rec];
      FindInTargetAppended(target[1..], rec);
    }
  }

  lemma {:induction false} FindByIdAppended(records: seq<Record>, rec: Record, id: Value)
    requires FindById(records, id).None? && ToS(RecordId(rec)) == ToS(id)
    ensures FindById(records + [rec], id) == Some(rec)
  {
    if records != [] {
      assert (records + [rec])[1..] == records[1..] + [rec];
      FindByIdAppended(records[1..], rec, id);
    }
  }

  /** An input hash of one record with its `id` and two more keys, under a
      limit of two records: the source raises, the corrected check updates
      the record. */
  lemma LimitCountsKeysAsWritten(build: Builder)
    ensures var rec := Record(BattleClass(), BattleRow(), BattleRow(), [], None, true);
            var state := CollectionState(true, [rec], []);
            && CollectionAsWritten("battles", LimitTwo(), state, build, OneBattle(), NoOptions).error == Some(TooManyRecords(2, 3))
            && Collection("battles", LimitTwo(), state, build, OneBattle(), NoOptions).error == None
  {
    var rec := Record(BattleClass(), BattleRow(), BattleRow(), [], None, true);
    OneBattleAccepted(rec, CollectionState(true, [rec], []), build);
  }

  lemma OneBattleAccepted(rec: Record, state: CollectionState, build: Builder)
    requires rec == Record(BattleClass(), BattleRow(), BattleRow(), [], None, true)
    requires state == CollectionState(true, [rec], [])
    ensures Collection("battles", LimitTwo(), state, build, OneBattle(), NoOptions).error == None
  {
    var input := OneBattle();
    assert Sym("id") in KeySet(input.entries);
    assert Normalize(input) == Ok([input]);
    OneBattleRun(rec, state, build);
  }

  lemma OneBattleRun(rec: Record, state: CollectionState, build: Builder)
    requires rec == Record(BattleClass(), BattleRow(), BattleRow(), [], None, true)
    requires state == CollectionState(true, [rec], [])
    ensures CollectionEntries("battles", LimitTwo(), state, [], build, [OneBattle()], NoOptions).error == None
  {
    OneBattleEntry(rec, state);
    UnfoldEntries("battles", LimitTwo(), state, [], build, [OneBattle()], NoOptions);
    assert [OneBattle()][1..] == [];
  }

  lemma OneBattleEntry(rec: Record, state: CollectionState)
    requires rec == Record(BattleClass(), BattleRow(), BattleRow(), [], None, true)
    requires state == CollectionState(true, [rec], [])
    ensures CollectionEntry("battles", LimitTwo(), state, [rec], OneBattle(), NoOptions).Ok?
  {
    OneBattlePayload();
    assert RecordId(rec) == Int(7);
    assert FindById([rec], Int(7)) == Some(rec);
  }

  lemma OneBattlePayload()
    ensures Lookup(StringifyKeys(OneBattle().entries), Text("id")) == Int(7)
    ensures !HasDestroyFlag(StringifyKeys(OneBattle().entries))
  {
    var es := OneBattle().entries;
    assert es[1..][1..][1..] == [];
    assert NameSet(es[1..][1..]) == {"_destroy"};
    assert NameSet(es[1..]) == {"team_id", "_destroy"};
    assert LastNamed(es, "id") == Int(7);
    assert LastNamed(es, "_destroy") == Str("0");
  }

  function BattleClass(): ModelClass {
    ModelClass("Battle", "id", "type", BattleRow(), [], LogRemoved, map[], map[], {})
  }

  function BattleRow(): map<string, Value> {
    map["id" := Int(7), "team_id" := Nil]
  }

  function LimitTwo(): NestedOptions {
    NestedOptions(false, false, NoRejectIf, Some(2))
  }

  function OneBattle(): Value {
    Dict([Entry(Sym("id"), Int(7)), Entry(Sym("team_id"), Int(3)), Entry(Sym("_destroy"), Str("0"))], Plain)
  }
}
