/** The per-class, per-role authorizer the gate consults: black lists
    (`attr_protected`) and white lists (`attr_accessible`) built up by
    declarations, and the sanitizer that filters a hash through one of them.
    The authorizer is ActiveModel's; its behaviour here is the one its
    fixtures and assertions pin down. */
module Authorization {
  import opened Values
  import opened Errors

  datatype ListKind = BlackList | WhiteList

  /** One `attr_protected` (BlackList) or `attr_accessible` (WhiteList) call:
      the roles named by its `:as` option (`:default` when absent) and its
      attribute names, nil names dropped. */
  datatype Declaration = Declaration(kind: ListKind, roles: seq<string>, names: seq<string>)

  /** The list one role of one class is checked against. */
  datatype PermissionSet = PermissionSet(kind: ListKind, names: set<string>)

  /** What happens to the keys the list removes: logged and dropped, or an
      exception unless every removed key is tolerated. */
  datatype RemovalPolicy = LogRemoved | RaiseUnless(tolerated: set<string>)

  const DefaultRole: string := "default"

  /** A `(` followed by a character other than a line break: where the
      pattern `\(.+` can start to match. */
  predicate Cuttable(key: string, i: int) {
    0 <= i < |key| - 1 && key[i] == '(' && key[i + 1] != '\n'
  }

  /** What is left of a line once `.+` has matched to its end: the text from
      the first line break on. */
  function RestOfLine(s: string): (r: string)
    ensures |r| <= |s| && r == s[|s| - |r|..]
    ensures r == [] || r[0] == '\n'
    ensures '\n' !in s ==> r == []
  {
    if s == [] || s[0] == '\n' then s else RestOfLine(s[1..])
  }

  /** The name a key is judged by: `key.gsub(/\(.+/, '')`, so the
      multiparameter key `starting(1i)` is judged as `starting`. Each match
      runs from a `(` to the end of its line. */
  function BaseName(key: string): (b: string)
    ensures '(' !in key ==> b == key
    ensures |b| <= |key|
    ensures '\n' !in key ==> b == key[..|b|]
    decreases |key|
  {
    if key == [] then []
    else if Cuttable(key, 0) then BaseName(RestOfLine(key[1..]))
    else [key[0]] + BaseName(key[1..])
  }

  /** On a single-line key the cut falls at the first `(` that has
      something after it. */
  lemma {:induction false} BaseNameCut(key: string, i: nat)
    requires '\n' !in key && Cuttable(key, i) && '(' !in key[..i]
    ensures BaseName(key) == key[..i]
    decreases i
  {
    if i > 0 {
      assert key[0] != '(' by { assert key[0] == key[..i][0]; }
      assert '\n' !in key[1..] by { assert forall j :: 0 <= j < |key[1..]| ==> key[1..][j] == key[j + 1]; }
      assert '(' !in key[1..][..i - 1] by { assert key[1..][..i - 1] == key[..i][1..]; }
      assert Cuttable(key[1..], i - 1);
      BaseNameCut(key[1..], i - 1);
      assert key[..i] == [key[0]] + key[1..][..i - 1];
    }
  }

  /** A key is its own base name exactly when no `(` in it has a character
      other than a line break after it. */
  lemma BaseNameKeeps(key: string)
    ensures BaseName(key) == key <==> forall i :: 0 <= i < |key| ==> !Cuttable(key, i)
  {
    if forall i :: 0 <= i < |key| ==> !Cuttable(key, i) {
      BaseNameWhole(key);
    } else {
      var i :| 0 <= i < |key| && Cuttable(key, i);
      BaseNameShrinks(key, i);
    }
  }

  lemma {:induction false} BaseNameWhole(key: string)
    requires forall i :: 0 <= i < |key| ==> !Cuttable(key, i)
    ensures BaseName(key) == key
    decreases |key|
  {
    if key != [] {
      assert !Cuttable(key, 0);
      forall i | 0 <= i < |key[1..]| ensures !Cuttable(key[1..], i) {
        assert !Cuttable(key, i + 1);
      }
      BaseNameWhole(key[1..]);
    }
  }

  lemma {:induction false} BaseNameShrinks(key: string, i: nat)
    requires Cuttable(key, i)
    ensures |BaseName(key)| < |key|
    decreases i
  {
    if i > 0 && !Cuttable(key, 0) {
      assert Cuttable(key[1..], i - 1);
      BaseNameShrinks(key[1..], i - 1);
    }
  }

  /** The multiparameter keys of a date are judged by the attribute name
      they share. */
  lemma MultiparameterKeysJudgedByName(name: string, suffix: string)
    requires '(' !in name && '\n' !in name && suffix != [] && '\n' !in suffix
    ensures BaseName(name + "(" + suffix) == name
  {
    var tail := "(" + suffix;
    var key := name + tail;
    assert name + "(" + suffix == key;
    assert '\n' !in tail;
    assert key[..|name|] == name;
    assert key[|name|] == '(' && key[|name| + 1] == suffix[0];
    BaseNameCut(key, |name|);
  }

  predicate Deny(p: PermissionSet, key: string) {
    match p.kind
    case BlackList => BaseName(key) in p.names
    case WhiteList => BaseName(key) !in p.names
  }

  /** The keys a date select posts for one attribute (`starting(1i)`,
      `starting(2i)`, `starting(3i)`) are all dropped by a black list that
      names the attribute. */
  lemma MultiparameterDateProtected(names: set<string>, name: string, parts: seq<string>, vs: seq<Value>)
    requires name in names && '(' !in name && '\n' !in name
    requires |vs| == |parts|
    requires forall i :: 0 <= i < |parts| ==> parts[i] != [] && '\n' !in parts[i]
    ensures Kept(DateKeys(name, parts, vs), PermissionSet(BlackList, names)) == []
  {
    var es := DateKeys(name, parts, vs);
    forall i | 0 <= i < |es| ensures Deny(PermissionSet(BlackList, names), es[i].key.name) {
      MultiparameterKeysJudgedByName(name, parts[i]);
    }
    KeptAllDenied(es, PermissionSet(BlackList, names));
  }

  /** The entries `name(part) => value`, one per part. */
  function DateKeys(name: string, parts: seq<string>, vs: seq<Value>): (es: seq<Entry>)
    requires |vs| == |parts|
    ensures |es| == |parts|
    ensures forall i :: 0 <= i < |parts| ==> es[i] == Entry(Text(name + "(" + parts[i]), vs[i])
  {
    seq(|parts|, i requires 0 <= i < |parts| => Entry(Text(name + "(" + parts[i]), vs[i]))
  }

  lemma KeptAllDenied(es: seq<Entry>, p: PermissionSet)
    requires forall i :: 0 <= i < |es| ==> Deny(p, es[i].key.name)
    ensures Kept(es, p) == []
  {
    if Kept(es, p) != [] {
      assert Kept(es, p)[0] in Kept(es, p);
    }
  }

  /** The names declared with `kind` for `role` across a declaration history;
      every declaration adds, none replaces. */
  function Declared(decls: seq<Declaration>, kind: ListKind, role: string): set<string> {
    if decls == [] then {}
    else
      var d := decls[0];
      (if d.kind == kind && role in d.roles then set n | n in d.names else {})
      + Declared(decls[1..], kind, role)
  }

  /** The list kind in force: the kind of the most recent declaration; a class
      that declared nothing is checked against its default black list. */
  function ActiveKind(decls: seq<Declaration>): ListKind {
    if decls == [] then BlackList else decls[|decls| - 1].kind
  }

  /** `protected_attributes(role)`: the default-protected names plus every
      black-listed name for the role. */
  function ProtectedAttributes(decls: seq<Declaration>, defaults: set<string>, role: string): set<string> {
    defaults + Declared(decls, BlackList, role)
  }

  /** `accessible_attributes(role)`: every white-listed name for the role. */
  function AccessibleAttributes(decls: seq<Declaration>, role: string): set<string> {
    Declared(decls, WhiteList, role)
  }

  /** `active_authorizer[role]`. */
  function ActiveAuthorizer(decls: seq<Declaration>, defaults: set<string>, role: string): (p: PermissionSet)
    ensures p.kind == ActiveKind(decls)
    ensures p.kind == BlackList ==> defaults <= p.names
  {
    match ActiveKind(decls)
    case BlackList => PermissionSet(BlackList, ProtectedAttributes(decls, defaults, role))
    case WhiteList => PermissionSet(WhiteList, AccessibleAttributes(decls, role))
  }

  /** Whether the removal policy aborts for this list of removed names. */
  predicate Aborts(policy: RemovalPolicy, removed: seq<string>) {
    match policy
    case LogRemoved => false
    case RaiseUnless(tolerated) => exists i :: 0 <= i < |removed| && removed[i] !in tolerated
  }

  // ---------------------------------------------------------------------
  // The sanitizer

  /** The entries the list lets through, in their order. */
  function Kept(es: seq<Entry>, p: PermissionSet): (r: seq<Entry>)
    ensures forall e :: e in r <==> e in es && !Deny(p, e.key.name)
    ensures |r| <= |es|
  {
    if es == [] then []
    else if Deny(p, es[0].key.name) then Kept(es[1..], p)
    else [es[0]] + Kept(es[1..], p)
  }

  /** The names of the entries the list removes, in their order. */
  function RemovedNames(es: seq<Entry>, p: PermissionSet): (r: seq<string>)
    ensures forall n :: n in r <==> exists e :: e in es && Deny(p, e.key.name) && e.key.name == n
  {
    if es == [] then []
    else if Deny(p, es[0].key.name) then [es[0].key.name] + RemovedNames(es[1..], p)
    else RemovedNames(es[1..], p)
  }

  /** Filters `es` through `p`, then lets the policy see what was removed. */
  function SanitizeEntries(policy: RemovalPolicy, p: PermissionSet, es: seq<Entry>): (r: Result<seq<Entry>>)
    ensures r.Ok? ==> forall e :: e in r.value <==> e in es && !Deny(p, e.key.name)
    ensures r.Err? <==> Aborts(policy, RemovedNames(es, p))
    ensures r.Err? ==> r.error == MassAssignmentError(RemovedNames(es, p))
  {
    var removed := RemovedNames(es, p);
    if removed != [] && Aborts(policy, removed) then Err(MassAssignmentError(removed))
    else Ok(Kept(es, p))
  }

  // ---------------------------------------------------------------------
  // Properties

  /** Sanitizing twice removes nothing more, and a second pass never aborts. */
  lemma {:induction false} KeptIdempotent(es: seq<Entry>, p: PermissionSet)
    ensures Kept(Kept(es, p), p) == Kept(es, p)
    ensures RemovedNames(Kept(es, p), p) == []
  {
    if es != [] {
      KeptIdempotent(es[1..], p);
      if !Deny(p, es[0].key.name) {
        var r := Kept(es, p);
        assert r == [es[0]] + Kept(es[1..], p);
        assert r[1..] == Kept(es[1..], p);
      }
    }
  }

  lemma SanitizeIdempotent(policy: RemovalPolicy, p: PermissionSet, es: seq<Entry>)
    requires SanitizeEntries(policy, p, es).Ok?
    ensures SanitizeEntries(policy, p, SanitizeEntries(policy, p, es).value) == SanitizeEntries(policy, p, es)
  {
    KeptIdempotent(es, p);
  }

  /** Under a white list a key survives exactly when its base name is listed;
      listing a default-protected name admits it. */
  lemma WhiteListAdmitsListed(es: seq<Entry>, decls: seq<Declaration>, defaults: set<string>, role: string, e: Entry)
    requires ActiveKind(decls) == WhiteList
    ensures e in Kept(es, ActiveAuthorizer(decls, defaults, role)) <==>
              e in es && BaseName(e.key.name) in AccessibleAttributes(decls, role)
  {
  }

  /** Under a black list a key survives exactly when its base name is neither
      default-protected nor protected for the role. */
  lemma BlackListRemovesProtected(es: seq<Entry>, decls: seq<Declaration>, defaults: set<string>, role: string, e: Entry)
    requires ActiveKind(decls) == BlackList
    ensures e in Kept(es, ActiveAuthorizer(decls, defaults, role)) <==>
              e in es && BaseName(e.key.name) !in defaults && BaseName(e.key.name) !in Declared(decls, BlackList, role)
  {
  }

  /** Declarations accumulate: a later history (repeated or in a subclass)
      declares exactly the union of the two parts. */
  lemma {:induction false} DeclaredAppend(d1: seq<Declaration>, d2: seq<Declaration>, kind: ListKind, role: string)
    ensures Declared(d1 + d2, kind, role) == Declared(d1, kind, role) + Declared(d2, kind, role)
  {
    if d1 != [] {
      assert (d1 + d2)[1..] == d1[1..] + d2;
      DeclaredAppend(d1[1..], d2, kind, role);
    } else {
      assert d1 + d2 == d2;
    }
  }

  /** A subclass never protects less than its parent under the same kind. */
  lemma SubclassProtectsMore(parent: seq<Declaration>, own: seq<Declaration>, defaults: set<string>, role: string)
    ensures ProtectedAttributes(parent, defaults, role) <= ProtectedAttributes(parent + own, defaults, role)
    ensures AccessibleAttributes(parent, role) <= AccessibleAttributes(parent + own, role)
  {
    DeclaredAppend(parent, own, BlackList, role);
    DeclaredAppend(parent, own, WhiteList, role);
  }

  /** `deny?` on a black list is true exactly for the listed names. */
  lemma BlackListDeny(names: set<string>, key: string)
    requires '(' !in key
    ensures Deny(PermissionSet(BlackList, names), key) <==> key in names
  {
  }
}
