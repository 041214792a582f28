/** Ruby values as the mass-assignment gate sees them: scalars, arrays, and
    ordered hashes whose keys are symbols or strings. A Ruby Hash remembers
    insertion order, so a hash is an association list of entries. */
module Values {

  datatype Option<+T> = None | Some(value: T) {
    function GetOr(default: T): T {
      match this
      case Some(v) => v
      case None => default
    }
  }

  /** A hash key as Ruby code writes it: `:name` or `'name'`. */
  datatype Key = Sym(name: string) | Text(name: string)

  /** Plain hashes, and the strong-parameters hash with its permitted flag. */
  datatype Permit = Plain | Parameters(permitted: bool)

  datatype Value =
    | Nil
    | Bool(b: bool)
    | Int(i: int)
    | Str(s: string)
    | Symbol(name: string)
    | List(items: seq<Value>)
    | Dict(entries: seq<Entry>, permit: Permit)

  datatype Entry = Entry(key: Key, value: Value)

  /** `[[:space:]]` on a Unicode string: the characters with the Unicode
      White_Space property. */
  predicate IsSpace(c: char) {
    || ('\U{9}' <= c <= '\U{D}') || c == ' ' || c == '\U{85}' || c == '\U{A0}' || c == '\U{1680}'
    || ('\U{2000}' <= c <= '\U{200A}') || c == '\U{2028}' || c == '\U{2029}' || c == '\U{202F}'
    || c == '\U{205F}' || c == '\U{3000}'
  }

  /** `blank?`: nil, false, whitespace-only strings and empty collections. */
  predicate Blank(v: Value) {
    match v
    case Nil => true
    case Bool(b) => !b
    case Int(_) => false
    case Str(s) => forall i :: 0 <= i < |s| ==> IsSpace(s[i])
    case Symbol(n) => n == ""
    case List(items) => items == []
    case Dict(es, _) => es == []
  }

  predicate Present(v: Value) {
    !Blank(v)
  }

  /** Ruby truthiness: everything but nil and false. */
  predicate Truthy(v: Value) {
    !(v.Nil? || v == Bool(false))
  }

  function DigitChar(d: nat): char
    requires d < 10
  {
    "0123456789"[d]
  }

  function NatToString(n: nat): (s: string)
    ensures |s| > 0
    decreases n
  {
    if n < 10 then [DigitChar(n)] else NatToString(n / 10) + [DigitChar(n % 10)]
  }

  /** `to_s` of the values an identifier can hold. Arrays and hashes have no
      identifier spelling; they are given one that no scalar spells. */
  function ToS(v: Value): string {
    match v
    case Nil => ""
    case Bool(b) => if b then "true" else "false"
    case Int(i) => if i < 0 then "-" + NatToString(-i) else NatToString(i)
    case Str(s) => s
    case Symbol(n) => n
    case List(_) => "\U{0}[]"
    case Dict(_, _) => "\U{0}{}"
  }

  // ---------------------------------------------------------------------
  // Hash operations

  function KeySet(es: seq<Entry>): set<Key> {
    if es == [] then {} else {es[0].key} + KeySet(es[1..])
  }

  function NameSet(es: seq<Entry>): set<string> {
    if es == [] then {} else {es[0].key.name} + NameSet(es[1..])
  }

  /** The keys `stringify_keys` produces: the string spelling of every name. */
  function TextKeys(es: seq<Entry>): set<Key> {
    if es == [] then {} else {Text(es[0].key.name)} + TextKeys(es[1..])
  }

  /** The Ruby Hash invariant: no key occurs twice. */
  predicate DistinctKeys(es: seq<Entry>) {
    es == [] || (es[0].key !in KeySet(es[1..]) && DistinctKeys(es[1..]))
  }

  predicate AllText(es: seq<Entry>) {
    forall i :: 0 <= i < |es| ==> es[i].key.Text?
  }

  lemma {:induction false} KeySetMember(es: seq<Entry>, k: Key)
    ensures k in KeySet(es) <==> exists i :: 0 <= i < |es| && es[i].key == k
  {
    if es != [] {
      KeySetMember(es[1..], k);
      if k in KeySet(es[1..]) {
        var i :| 0 <= i < |es[1..]| && es[1..][i].key == k;
        assert es[i + 1].key == k;
      }
      if exists i :: 0 <= i < |es| && es[i].key == k {
        var i :| 0 <= i < |es| && es[i].key == k;
        if i > 0 { assert es[1..][i - 1].key == k; }
      }
    }
  }

  /** `hash[key]`: the value stored under `k`, nil when absent. */
  function Lookup(es: seq<Entry>, k: Key): (v: Value)
    ensures k !in KeySet(es) ==> v == Nil
  {
    if es == [] then Nil
    else if es[0].key == k then es[0].value
    else Lookup(es[1..], k)
  }

  /** `hash[key] = value`: an existing key keeps its position and takes the
      new value; a new key is appended. */
  function Put(es: seq<Entry>, k: Key, v: Value): (r: seq<Entry>)
    ensures KeySet(r) == KeySet(es) + {k}
    ensures k !in KeySet(es) ==> r == es + [Entry(k, v)]
    ensures AllText(es) && k.Text? ==> AllText(r)
  {
    if es == [] then [Entry(k, v)]
    else if es[0].key == k then
      var r := [Entry(k, v)] + es[1..];
      assert r[1..] == es[1..];
      r
    else
      var r := [es[0]] + Put(es[1..], k, v);
      assert r[1..] == Put(es[1..], k, v);
      r
  }

  /** On a hash with distinct keys, `Put` keeps keys distinct, stores `v`
      under `k`, and leaves every other key's value alone. */
  lemma {:induction false} PutLookup(es: seq<Entry>, k: Key, v: Value)
    requires DistinctKeys(es)
    ensures DistinctKeys(Put(es, k, v))
    ensures Lookup(Put(es, k, v), k) == v
    ensures forall k' :: k' != k ==> Lookup(Put(es, k, v), k') == Lookup(es, k')
  {
    if es != [] && es[0].key != k {
      PutLookup(es[1..], k, v);
      var r := Put(es, k, v);
      assert r[1..] == Put(es[1..], k, v);
    } else if es != [] {
      var r := Put(es, k, v);
      assert r[1..] == es[1..];
    }
  }

  /** The value an indifferent-access view reads for `name`: the last entry
      spelled `name`, as symbol or string; nil when none is. */
  function LastNamed(es: seq<Entry>, name: string): Value {
    if es == [] then Nil
    else if name in NameSet(es[1..]) then LastNamed(es[1..], name)
    else if es[0].key.name == name then es[0].value
    else Nil
  }

  /** `stringify_keys`: every key turned into its string spelling, inserted
      in order into a fresh hash, so a later spelling of the same name
      overwrites the earlier value in the earlier position. */
  function StringifyKeys(es: seq<Entry>): (r: seq<Entry>)
    ensures DistinctKeys(r) && AllText(r)
    ensures KeySet(r) == TextKeys(es)
    ensures forall n :: Lookup(r, Text(n)) == LastNamed(es, n)
  {
    StringifyInto([], es)
  }

  function StringifyInto(acc: seq<Entry>, es: seq<Entry>): (r: seq<Entry>)
    requires DistinctKeys(acc) && AllText(acc)
    ensures DistinctKeys(r) && AllText(r)
    ensures KeySet(r) == KeySet(acc) + TextKeys(es)
    ensures forall n :: Lookup(r, Text(n)) == if n in NameSet(es) then LastNamed(es, n) else Lookup(acc, Text(n))
    decreases |es|
  {
    if es == [] then acc
    else
      var k := Text(es[0].key.name);
      PutLookup(acc, k, es[0].value);
      StringifyInto(Put(acc, k, es[0].value), es[1..])
  }

  /** A hash that already has distinct string keys is its own stringification. */
  lemma StringifyKeysIdentity(es: seq<Entry>)
    requires AllText(es) && DistinctKeys(es)
    ensures StringifyKeys(es) == es
  {
    StringifyIntoAppends([], es);
  }

  lemma {:induction false} StringifyIntoAppends(acc: seq<Entry>, es: seq<Entry>)
    requires DistinctKeys(acc) && AllText(acc)
    requires AllText(es) && DistinctKeys(es)
    requires KeySet(acc) !! KeySet(es)
    ensures StringifyInto(acc, es) == acc + es
    decreases |es|
  {
    if es != [] {
      AppendStep(acc, es);
      UnfoldStringifyInto(acc, es);
      StringifyIntoAppends(acc + [es[0]], es[1..]);
    }
  }

  /** One step of `StringifyIntoAppends`: a fresh string key is appended. */
  lemma AppendStep(acc: seq<Entry>, es: seq<Entry>)
    requires es != [] && DistinctKeys(acc) && AllText(acc)
    requires AllText(es) && DistinctKeys(es)
    requires KeySet(acc) !! KeySet(es)
    ensures Put(acc, Text(es[0].key.name), es[0].value) == acc + [es[0]]
    ensures AllText(es[1..]) && DistinctKeys(es[1..])
    ensures KeySet(acc + [es[0]]) !! KeySet(es[1..])
    ensures acc + [es[0]] + es[1..] == acc + es
  {
    var k := Text(es[0].key.name);
    assert k == es[0].key by { assert es[0].key.Text?; }
    assert KeySet(es) == {k} + KeySet(es[1..]);
    assert KeySet(Put(acc, k, es[0].value)) == KeySet(acc) + {k};
    AllTextTail(es);
    ConsTail(acc, es);
  }

  lemma ConsTail<T>(acc: seq<T>, es: seq<T>)
    requires es != []
    ensures acc + [es[0]] + es[1..] == acc + es
  {
    assert [es[0]] + es[1..] == es;
  }

  lemma UnfoldStringifyInto(acc: seq<Entry>, es: seq<Entry>)
    requires es != [] && DistinctKeys(acc) && AllText(acc)
    requires Put(acc, Text(es[0].key.name), es[0].value) == acc + [es[0]]
    ensures DistinctKeys(acc + [es[0]]) && AllText(acc + [es[0]])
    ensures StringifyInto(acc, es) == StringifyInto(acc + [es[0]], es[1..])
  {
    PutLookup(acc, Text(es[0].key.name), es[0].value);
  }

  lemma AllTextTail(es: seq<Entry>)
    requires es != [] && AllText(es)
    ensures AllText(es[1..])
  {
    forall i | 0 <= i < |es[1..]| ensures es[1..][i].key.Text? {
      assert es[1..][i] == es[i + 1];
    }
  }

  /** No name occurs twice, whatever its spelling. */
  predicate DistinctNames(es: seq<Entry>) {
    es == [] || (es[0].key.name !in NameSet(es[1..]) && DistinctNames(es[1..]))
  }

  lemma {:induction false} NameSetMember(es: seq<Entry>, e: Entry)
    requires e in es
    ensures e.key.name in NameSet(es)
  {
    if es[0] != e {
      NameSetMember(es[1..], e);
    }
  }

  /** The entries with every key spelled as a string. */
  function AsText(es: seq<Entry>): (r: seq<Entry>)
    ensures |r| == |es|
    ensures forall i :: 0 <= i < |es| ==> r[i] == Entry(Text(es[i].key.name), es[i].value)
  {
    seq(|es|, i requires 0 <= i < |es| => Entry(Text(es[i].key.name), es[i].value))
  }

  /** A hash that never spells a name twice is stringified in place: same
      order, same values, string keys. */
  lemma StringifyDistinctNames(es: seq<Entry>)
    requires DistinctNames(es)
    ensures StringifyKeys(es) == AsText(es)
  {
    StringifyIntoFresh([], es);
  }

  lemma {:induction false} StringifyIntoFresh(acc: seq<Entry>, es: seq<Entry>)
    requires DistinctKeys(acc) && AllText(acc) && DistinctNames(es)
    requires forall i :: 0 <= i < |es| ==> Text(es[i].key.name) !in KeySet(acc)
    ensures StringifyInto(acc, es) == acc + AsText(es)
    decreases |es|
  {
    if es != [] {
      var e := Entry(Text(es[0].key.name), es[0].value);
      FreshStep(acc, es);
      StringifyIntoFresh(acc + [e], es[1..]);
      AsTextCons(acc, es);
    }
  }

  lemma AsTextCons(acc: seq<Entry>, es: seq<Entry>)
    requires es != []
    ensures acc + [Entry(Text(es[0].key.name), es[0].value)] + AsText(es[1..]) == acc + AsText(es)
  {
    assert AsText(es) == [Entry(Text(es[0].key.name), es[0].value)] + AsText(es[1..]);
  }

  /** One step of `StringifyIntoFresh`: the first name is appended, and the
      rest stay fresh. */
  lemma FreshStep(acc: seq<Entry>, es: seq<Entry>)
    requires es != [] && DistinctKeys(acc) && AllText(acc) && DistinctNames(es)
    requires forall i :: 0 <= i < |es| ==> Text(es[i].key.name) !in KeySet(acc)
    ensures var e := Entry(Text(es[0].key.name), es[0].value);
            && DistinctKeys(acc + [e]) && AllText(acc + [e]) && DistinctNames(es[1..])
            && StringifyInto(acc, es) == StringifyInto(acc + [e], es[1..])
            && forall i :: 0 <= i < |es[1..]| ==> Text(es[1..][i].key.name) !in KeySet(acc + [e])
  {
    FreshHead(acc, es[0].key.name, es[0].value);
    UnfoldStringifyFresh(acc, es);
    FreshRest(acc, es);
  }

  lemma FreshHead(acc: seq<Entry>, n: string, v: Value)
    requires DistinctKeys(acc) && AllText(acc) && Text(n) !in KeySet(acc)
    ensures Put(acc, Text(n), v) == acc + [Entry(Text(n), v)]
    ensures DistinctKeys(acc + [Entry(Text(n), v)]) && AllText(acc + [Entry(Text(n), v)])
    ensures KeySet(acc + [Entry(Text(n), v)]) == KeySet(acc) + {Text(n)}
  {
    PutLookup(acc, Text(n), v);
  }

  lemma UnfoldStringifyFresh(acc: seq<Entry>, es: seq<Entry>)
    requires es != [] && DistinctKeys(acc) && AllText(acc)
    requires Put(acc, Text(es[0].key.name), es[0].value) == acc + [Entry(Text(es[0].key.name), es[0].value)]
    requires DistinctKeys(acc + [Entry(Text(es[0].key.name), es[0].value)])
    requires AllText(acc + [Entry(Text(es[0].key.name), es[0].value)])
    ensures StringifyInto(acc, es) == StringifyInto(acc + [Entry(Text(es[0].key.name), es[0].value)], es[1..])
  {
  }

  lemma FreshRest(acc: seq<Entry>, es: seq<Entry>)
    requires es != [] && DistinctNames(es)
    requires forall i :: 0 <= i < |es| ==> Text(es[i].key.name) !in KeySet(acc)
    ensures DistinctNames(es[1..])
    ensures forall i :: 0 <= i < |es[1..]| ==> Text(es[1..][i].key.name) !in KeySet(acc) + {Text(es[0].key.name)}
  {
    forall i | 0 <= i < |es[1..]| ensures Text(es[1..][i].key.name) !in KeySet(acc) + {Text(es[0].key.name)} {
      assert es[1..][i] == es[i + 1];
      NameSetMember(es[1..], es[1..][i]);
    }
  }

  /** `hash.except(*names)` on a string-keyed hash. */
  function ExceptNames(es: seq<Entry>, names: set<string>): (r: seq<Entry>)
    ensures forall e :: e in r <==> e in es && !(e.key.Text? && e.key.name in names)
    ensures |r| <= |es|
  {
    if es == [] then []
    else if es[0].key.Text? && es[0].key.name in names then ExceptNames(es[1..], names)
    else [es[0]] + ExceptNames(es[1..], names)
  }

  function ValuesOf(es: seq<Entry>): (r: seq<Value>)
    ensures |r| == |es|
    ensures forall i :: 0 <= i < |es| ==> r[i] == es[i].value
  {
    if es == [] then [] else [es[0].value] + ValuesOf(es[1..])
  }
}
