/** The array fan-out every creating entry point shares: an array argument
    is mapped element by element (`attributes.collect { |attr| ... }`), so
    nested arrays give nested lists, and anything else makes one record.
    The first exception stops the walk; the records made before it stay
    made. */
module FanOut {
  import opened Values
  import opened Errors
  import opened Assignment

  /** What a call returned: a record per non-array argument, a list per array. */
  datatype Built = One(record: Record) | Many(items: seq<Built>)

  /** The records made so far, in order, and the call's result. */
  datatype Fan = Fan(made: seq<Record>, result: Result<Built>)

  /** Applies `step` to `input`, or to every element of it when it is an array. */
  function Each(step: Value -> Result<Record>, made: seq<Record>, input: Value): (f: Fan)
    ensures |made| <= |f.made| && f.made[..|made|] == made
    ensures !input.List? ==> (f.result.Err? <==> step(input).Err?)
    decreases input, 1, 0
  {
    if input.List? then EachFrom(step, made, input.items, 0, [])
    else
      match step(input)
      case Err(e) => Fan(made, Err(e))
      case Ok(r) => Fan(made + [r], Ok(One(r)))
  }

  function EachFrom(step: Value -> Result<Record>, made: seq<Record>, items: seq<Value>, i: nat, done: seq<Built>): (f: Fan)
    requires i <= |items|
    ensures |made| <= |f.made| && f.made[..|made|] == made
    decreases List(items), 0, |items| - i
  {
    if i == |items| then Fan(made, Ok(Many(done)))
    else
      assert items[i] in items;
      var f := Each(step, made, items[i]);
      if f.result.Err? then f
      else EachFrom(step, f.made, items, i + 1, done + [f.result.value])
  }

  function Ones(rs: seq<Record>): (r: seq<Built>)
    ensures |r| == |rs| && forall k :: 0 <= k < |rs| ==> r[k] == One(rs[k])
  {
    seq(|rs|, k requires 0 <= k < |rs| => One(rs[k]))
  }

  /** The record `step` makes from each element on its own. */
  function Results(step: Value -> Result<Record>, items: seq<Value>): (r: seq<Record>)
    requires forall k :: 0 <= k < |items| ==> step(items[k]).Ok?
    ensures |r| == |items| && forall k :: 0 <= k < |items| ==> r[k] == step(items[k]).value
  {
    seq(|items|, k requires 0 <= k < |items| => step(items[k]).value)
  }

  lemma {:induction false} EachFromFlat(step: Value -> Result<Record>, made: seq<Record>, items: seq<Value>, i: nat, done: seq<Built>)
    requires i <= |items|
    requires forall k :: 0 <= k < |items| ==> !items[k].List? && step(items[k]).Ok?
    ensures EachFrom(step, made, items, i, done) ==
              Fan(made + Results(step, items)[i..], Ok(Many(done + Ones(Results(step, items)[i..]))))
    decreases |items| - i
  {
    var all := Results(step, items);
    if i < |items| {
      var rec := all[i];
      var rest := all[i + 1..];
      assert all[i..] == [rec] + rest;
      assert Ones(all[i..]) == [One(rec)] + Ones(rest);
      assert done + Ones(all[i..]) == (done + [One(rec)]) + Ones(rest);
      assert made + all[i..] == (made + [rec]) + rest;
      assert Each(step, made, items[i]) == Fan(made + [rec], Ok(One(rec)));
      EachFromFlat(step, made + [rec], items, i + 1, done + [One(rec)]);
    } else {
      assert Ones(all[i..]) == [];
      assert done + Ones(all[i..]) == done;
      assert made + all[i..] == made;
    }
  }

  /** On an array of non-arrays on which `step` succeeds, the call returns
      one record per element, in order, each the record that element makes
      on its own, and makes them in that order. */
  lemma EachFlat(step: Value -> Result<Record>, made: seq<Record>, items: seq<Value>)
    requires forall k :: 0 <= k < |items| ==> !items[k].List? && step(items[k]).Ok?
    ensures Each(step, made, List(items)) == Fan(made + Results(step, items), Ok(Many(Ones(Results(step, items)))))
  {
    EachFromFlat(step, made, items, 0, []);
    assert Results(step, items)[0..] == Results(step, items);
    assert [] + Ones(Results(step, items)) == Ones(Results(step, items));
  }

  lemma {:induction false} EachFromStops(step: Value -> Result<Record>, made: seq<Record>, items: seq<Value>, i: nat,
                                         done: seq<Built>, j: nat)
    requires i <= j < |items|
    requires forall k :: 0 <= k < |items| ==> !items[k].List?
    requires forall k :: 0 <= k < j ==> step(items[k]).Ok?
    requires step(items[j]).Err?
    ensures EachFrom(step, made, items, i, done) ==
              Fan(made + Results(step, items[..j])[i..], Err(step(items[j]).error))
    decreases |items| - i
  {
    var prefix := Results(step, items[..j]);
    if i < j {
      var rec := step(items[i]).value;
      assert prefix[i] == rec;
      assert prefix[i..] == [rec] + prefix[i + 1..];
      assert made + prefix[i..] == (made + [rec]) + prefix[i + 1..];
      EachFromStops(step, made + [rec], items, i + 1, done + [One(rec)], j);
    } else {
      assert prefix[i..] == [];
      assert made + prefix[i..] == made;
    }
  }

  /** On an array of non-arrays, the first element `step` fails on stops the
      call with its exception; the elements before it have made their records. */
  lemma EachStops(step: Value -> Result<Record>, made: seq<Record>, items: seq<Value>, j: nat)
    requires j < |items|
    requires forall k :: 0 <= k < |items| ==> !items[k].List?
    requires forall k :: 0 <= k < j ==> step(items[k]).Ok?
    requires step(items[j]).Err?
    ensures Each(step, made, List(items)) == Fan(made + Results(step, items[..j]), Err(step(items[j]).error))
  {
    EachFromStops(step, made, items, 0, [], j);
    assert Results(step, items[..j])[0..] == Results(step, items[..j]);
  }
}
