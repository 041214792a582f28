/** The people and subscribers of the test schema as concrete classes, and
    the outcomes their tests assert, derived from the general lemmas. */
module Fixtures {
  import opened Values
  import opened Errors
  import opened Authorization
  import opened ModelClasses
  import opened Assignment

  const PeopleColumns: map<string, Value> :=
    map["id" := Nil, "first_name" := Nil, "gender" := Nil, "comments" := Nil,
        "best_friend_id" := Nil, "best_friend_of_id" := Nil]

  /** `attr_protected :comments, :best_friend_id, :best_friend_of_id` and an
      empty `attr_protected :as => :admin`. Its nested-attribute setters
      play no part in these fixtures and are not declared. */
  const LoosePerson: ModelClass :=
    ModelClass("LoosePerson", "id", "type", PeopleColumns,
               [Declaration(BlackList, [DefaultRole], ["comments", "best_friend_id", "best_friend_of_id"]),
                Declaration(BlackList, ["admin"], [])],
               LogRemoved, map[], map[], {})

  /** `attr_accessible(nil)` with the primary key `nick`. */
  const Subscriber: ModelClass :=
    ModelClass("Subscriber", "nick", "type", map["nick" := Nil, "name" := Nil],
               [Declaration(WhiteList, [DefaultRole], [])], LogRemoved, map[], map[], {})

  const LooseDefaultProtected: set<string> := {"id", "type", "comments", "best_friend_id", "best_friend_of_id"}
  const LooseAdminProtected: set<string> := {"id", "type"}

  lemma LooseLists()
    ensures Authorizer(LoosePerson, DefaultRole) == PermissionSet(BlackList, LooseDefaultProtected)
    ensures Authorizer(LoosePerson, "admin") == PermissionSet(BlackList, LooseAdminProtected)
  {
    LooseDefaultList();
    LooseAdminList();
  }

  lemma LooseDefaultList()
    ensures Authorizer(LoosePerson, DefaultRole) == PermissionSet(BlackList, LooseDefaultProtected)
  {
    var decls := LoosePerson.declarations;
    assert Declared(decls[1..][1..], BlackList, DefaultRole) == {};
    assert Declared(decls[1..], BlackList, DefaultRole) == {};
    assert (set n | n in decls[0].names) == {"comments", "best_friend_id", "best_friend_of_id"};
    assert ProtectedByDefault(LoosePerson) == {"id", "type"};
  }

  lemma LooseAdminList()
    ensures Authorizer(LoosePerson, "admin") == PermissionSet(BlackList, LooseAdminProtected)
  {
    var decls := LoosePerson.declarations;
    assert Declared(decls[1..][1..], BlackList, "admin") == {};
    assert Declared(decls[1..], BlackList, "admin") == {};
    assert Declared(decls, BlackList, "admin") == {};
    assert ProtectedByDefault(LoosePerson) == {"id", "type"};
  }

  lemma DefaultProtectedNames()
    ensures "id" in LooseDefaultProtected && "comments" in LooseDefaultProtected
    ensures "first_name" !in LooseDefaultProtected && "gender" !in LooseDefaultProtected
  {
    assert |"first_name"| == 10 && |"gender"| == 6;
  }

  lemma Listed(names: set<string>, n: string)
    requires '(' !in n
    ensures Deny(PermissionSet(BlackList, names), n) <==> n in names
  {
  }

  /** `id` is on both of LoosePerson's lists. */
  lemma IdDenied(names: set<string>)
    requires "id" in names
    ensures Deny(PermissionSet(BlackList, names), "id")
  {
    Listed(names, "id");
  }

  /** `comments` is on the default list only. */
  lemma CommentsListed(names: set<string>)
    ensures Deny(PermissionSet(BlackList, names), "comments") <==> "comments" in names
  {
    Listed(names, "comments");
  }

  /** Neither list names `first_name` or `gender`. */
  lemma FirstNameAllowed(names: set<string>)
    requires "first_name" !in names
    ensures !Deny(PermissionSet(BlackList, names), "first_name")
  {
    Listed(names, "first_name");
  }

  lemma GenderAllowed(names: set<string>)
    requires "gender" !in names
    ensures !Deny(PermissionSet(BlackList, names), "gender")
  {
    Listed(names, "gender");
  }

  /** Without a role, a person hash loses `id` and `comments`. */
  lemma PersonSanitizedDefault(cls: ModelClass, id: Entry, first: Entry, gender: Entry, comments: Entry)
    requires cls == LoosePerson && PersonHash(id, first, gender, comments)
    ensures Sanitize(cls, DefaultRole, [id, first, gender, comments], Plain) == Ok([first, gender])
  {
    var es, p := [id, first, gender, comments], Authorizer(cls, DefaultRole);
    LooseLists();
    DefaultProtectedNames();
    IdDenied(LooseDefaultProtected);
    CommentsListed(LooseDefaultProtected);
    FirstNameAllowed(LooseDefaultProtected);
    GenderAllowed(LooseDefaultProtected);
    SanitizeLogged(cls, DefaultRole, es);
    KeptMiddle(es, p);
  }

  /** With the `:admin` role only `id` is removed. */
  lemma PersonSanitizedAdmin(cls: ModelClass, id: Entry, first: Entry, gender: Entry, comments: Entry)
    requires cls == LoosePerson && PersonHash(id, first, gender, comments)
    ensures Sanitize(cls, "admin", [id, first, gender, comments], Plain) == Ok([first, gender, comments])
  {
    var es, p := [id, first, gender, comments], Authorizer(cls, "admin");
    LooseLists();
    IdDenied(LooseAdminProtected);
    CommentsListed(LooseAdminProtected);
    FirstNameAllowed(LooseAdminProtected);
    GenderAllowed(LooseAdminProtected);
    SanitizeLogged(cls, "admin", es);
    KeptTail(es, p);
    assert es[1..] == [first, gender, comments];
  }

  /** A class that logs what it removes never aborts: the sanitizer keeps
      what the role's list allows. */
  lemma SanitizeLogged(cls: ModelClass, role: string, es: seq<Entry>)
    requires UsesSecurity(cls) && cls.policy == LogRemoved
    ensures Sanitize(cls, role, es, Plain) == Ok(Kept(es, Authorizer(cls, role)))
  {
  }

  /** Four entries of which the first and last are denied. */
  lemma KeptMiddle(es: seq<Entry>, p: PermissionSet)
    requires |es| == 4 && Deny(p, es[0].key.name) && !Deny(p, es[1].key.name)
    requires !Deny(p, es[2].key.name) && Deny(p, es[3].key.name)
    ensures Kept(es, p) == [es[1], es[2]]
  {
    var t1 := es[1..];
    var t2 := t1[1..];
    var t3 := t2[1..];
    assert t3[1..] == [];
    KeptHead(es, p);
    KeptHead(t1, p);
    KeptHead(t2, p);
    KeptHead(t3, p);
    assert [t1[0]] + ([t2[0]] + []) == [es[1], es[2]];
  }

  /** Four entries of which only the first is denied. */
  lemma KeptTail(es: seq<Entry>, p: PermissionSet)
    requires |es| == 4 && Deny(p, es[0].key.name) && !Deny(p, es[1].key.name)
    requires !Deny(p, es[2].key.name) && !Deny(p, es[3].key.name)
    ensures Kept(es, p) == es[1..]
  {
    var t1 := es[1..];
    var t2 := t1[1..];
    var t3 := t2[1..];
    assert t3[1..] == [];
    KeptHead(es, p);
    KeptHead(t1, p);
    KeptHead(t2, p);
    KeptHead(t3, p);
    assert [t1[0]] + ([t2[0]] + ([t3[0]] + [])) == t1;
  }

  /** One step of the sanitizer: the first entry is dropped or kept. */
  lemma KeptHead(es: seq<Entry>, p: PermissionSet)
    requires es != []
    ensures Kept(es, p) == if Deny(p, es[0].key.name) then Kept(es[1..], p) else [es[0]] + Kept(es[1..], p)
  {
  }

  /** Four entries keyed `id`, `first_name`, `gender`, `comments`. */
  predicate PersonHash(id: Entry, first: Entry, gender: Entry, comments: Entry) {
    && id.key == Text("id") && first.key == Text("first_name")
    && gender.key == Text("gender") && comments.key == Text("comments")
  }

  lemma PersonHashStringified(id: Entry, first: Entry, gender: Entry, comments: Entry)
    requires PersonHash(id, first, gender, comments)
    ensures StringifyKeys([id, first, gender, comments]) == [id, first, gender, comments]
  {
    var es := [id, first, gender, comments];
    DistinctFour(es);
    StringifyKeysIdentity(es);
  }

  lemma DistinctFour(es: seq<Entry>)
    requires |es| == 4 && forall i, j :: 0 <= i < j < 4 ==> es[i].key != es[j].key
    ensures DistinctKeys(es)
  {
    var a, b, c := es[1..], es[2..], es[3..];
    assert a[1..] == b && b[1..] == c && c[1..] == [];
    assert KeySet(c) == {es[3].key} && DistinctKeys(c);
    assert KeySet(b) == {es[2].key, es[3].key} && DistinctKeys(b);
    assert KeySet(a) == {es[1].key, es[2].key, es[3].key} && DistinctKeys(a);
  }

  /** Every key of a person hash is a column of the people table. */
  lemma PeopleColumnNames()
    ensures "id" in PeopleColumns && "first_name" in PeopleColumns
    ensures "gender" in PeopleColumns && "comments" in PeopleColumns
    ensures !IsMultiparameter("first_name") && !IsMultiparameter("comments")
    ensures !IsMultiparameter("id") && !IsMultiparameter("gender")
  {
  }

  lemma PersonPlain(s: seq<Entry>)
    requires forall i :: 0 <= i < |s| ==> s[i].key.name in PeopleColumns
    ensures forall i :: 0 <= i < |s| && !IsMultiparameter(s[i].key.name) ==> Plainly(LoosePerson, s[i].key.name)
  {
  }

  /** The default role's survivors of a person hash, as the gate sees them. */
  lemma PersonSurvivorsDefault(id: Entry, first: Entry, gender: Entry, comments: Entry)
    requires PersonHash(id, first, gender, comments)
    ensures Surviving(LoosePerson, StringifyKeys([id, first, gender, comments]), Plain, NoOptions) == Ok([first, gender])
  {
    PersonHashStringified(id, first, gender, comments);
    PersonSanitizedDefault(LoosePerson, id, first, gender, comments);
  }

  /** The `:admin` role's survivors of a person hash. */
  lemma PersonSurvivorsAdmin(id: Entry, first: Entry, gender: Entry, comments: Entry)
    requires PersonHash(id, first, gender, comments)
    ensures Surviving(LoosePerson, StringifyKeys([id, first, gender, comments]), Plain, Options(Some("admin"), false))
            == Ok([first, gender, comments])
  {
    PersonHashStringified(id, first, gender, comments);
    PersonSanitizedAdmin(LoosePerson, id, first, gender, comments);
  }

  /** The test's `attributes_hash` is written with symbol keys; the gate
      stringifies it in place, so it sees a person hash. */
  lemma SymbolKeyedPersonHash(id: Value, first: Value, gender: Value, comments: Value)
    ensures var sym := [Entry(Sym("id"), id), Entry(Sym("first_name"), first),
                        Entry(Sym("gender"), gender), Entry(Sym("comments"), comments)];
            var text := [Entry(Text("id"), id), Entry(Text("first_name"), first),
                         Entry(Text("gender"), gender), Entry(Text("comments"), comments)];
            && StringifyKeys(sym) == text
            && Surviving(LoosePerson, StringifyKeys(sym), Plain, NoOptions) == Ok([text[1], text[2]])
            && Surviving(LoosePerson, StringifyKeys(sym), Plain, Options(Some("admin"), false)) == Ok([text[1], text[2], text[3]])
  {
    var text := [Entry(Text("id"), id), Entry(Text("first_name"), first),
                 Entry(Text("gender"), gender), Entry(Text("comments"), comments)];
    SymbolPersonStringified(id, first, gender, comments);
    PersonHashStringified(text[0], text[1], text[2], text[3]);
    PersonSurvivorsDefault(text[0], text[1], text[2], text[3]);
    PersonSurvivorsAdmin(text[0], text[1], text[2], text[3]);
  }

  lemma SymbolPersonStringified(id: Value, first: Value, gender: Value, comments: Value)
    ensures StringifyKeys([Entry(Sym("id"), id), Entry(Sym("first_name"), first),
                           Entry(Sym("gender"), gender), Entry(Sym("comments"), comments)])
            == [Entry(Text("id"), id), Entry(Text("first_name"), first),
                Entry(Text("gender"), gender), Entry(Text("comments"), comments)]
  {
    var sym := [Entry(Sym("id"), id), Entry(Sym("first_name"), first),
                Entry(Sym("gender"), gender), Entry(Sym("comments"), comments)];
    DistinctFourNames(sym);
    StringifyDistinctNames(sym);
  }

  lemma DistinctFourNames(es: seq<Entry>)
    requires |es| == 4 && forall i, j :: 0 <= i < j < 4 ==> es[i].key.name != es[j].key.name
    ensures DistinctNames(es)
  {
    var a, b, c := es[1..], es[2..], es[3..];
    assert a[1..] == b && b[1..] == c && c[1..] == [];
    assert NameSet(c) == {es[3].key.name} && DistinctNames(c);
    assert NameSet(b) == {es[2].key.name, es[3].key.name} && DistinctNames(b);
    assert NameSet(a) == {es[1].key.name, es[2].key.name, es[3].key.name} && DistinctNames(a);
  }

  /** `without_protection` skips the sanitizer: even `id` is assigned. */
  lemma LooseWithoutProtection(rec: Record, id: Entry, first: Entry, gender: Entry, comments: Entry)
    requires rec == Fresh(LoosePerson) && PersonHash(id, first, gender, comments)
    ensures var o := Assign(rec, Dict([id, first, gender, comments], Plain), WithoutProtection, 0);
            && o.error == None
            && o.rec.values["id"] == id.value && o.rec.values["comments"] == comments.value
  {
    var es := [id, first, gender, comments];
    var input := Dict(es, Plain);
    PersonHashStringified(id, first, gender, comments);
    PeopleColumnNames();
    PersonPlain(es);
    AssignOrder(rec, input, WithoutProtection, 0, es);
    AssignWritesSurvivor(rec, input, WithoutProtection, 0, es, id);
    AssignWritesSurvivor(rec, input, WithoutProtection, 0, es, comments);
  }

  /** A custom primary key is protected, and so is `id`. */
  lemma SubscriberDefaults()
    ensures ProtectedByDefault(Subscriber) == {"nick", "type", "id"}
  {
  }
}
