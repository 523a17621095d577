/** The three ways the code decides whether a caller has the asked rights
    (lib/query/query.go): the compiled query, the direct check and the result's permissions. */
module RightsQuery {
  import opened Model
  import opened QueryAst

  function UsersField(l: Letter): string {
    match l
    case Admin => "admin_users"
    case Read => "read_users"
    case Write => "write_users"
    case Execute => "execute_users"
  }

  function GroupsField(l: Letter): string {
    match l
    case Admin => "admin_groups"
    case Read => "read_groups"
    case Write => "write_groups"
    case Execute => "execute_groups"
  }

  /** The document is how OpenSearch holds the entry's permission lists and resource id. */
  ghost predicate Indexes(doc: Indexed, e: Doc) {
    && (forall l :: ValuesOf(doc, UsersField(l)) == Texts(e.users.Of(l)))
    && (forall l :: ValuesOf(doc, GroupsField(l)) == Texts(e.groups.Of(l)))
    && ValuesOf(doc, "resource") == [Text(e.resource)]
  }

  function Asked(rights: string): string {
    if rights == "" then "r" else rights
  }

  /** Holding a right through the user id or through one of the groups. */
  predicate Grants(e: Doc, user: string, groups: seq<string>, l: Letter) {
    e.users.Holds(user, l) || exists g | g in groups :: e.groups.Holds(g, l)
  }

  /** Every asked letter is granted; characters that are no letter ask for nothing. */
  predicate Allowed(e: Doc, user: string, groups: seq<string>, rights: string) {
    forall c | c in Asked(rights) :: LetterOf(c).Some? ==> Grants(e, user, groups, LetterOf(c).value)
  }

  // ----- the compiled query -----

  function Alternatives(usersField: string, groupsField: string, user: string, groups: seq<string>): seq<Query> {
    (if user != "" then [Term(usersField, Text(user))] else []) +
    (if |groups| > 0 then [Terms(groupsField, Array(Texts(groups)))] else [])
  }

  function Clause(l: Letter, user: string, groups: seq<string>): Query {
    Bool([], Alternatives(UsersField(l), GroupsField(l), user, groups), [])
  }

  function Clauses(rights: string, user: string, groups: seq<string>): seq<Query> {
    if rights == "" then [] else ClausesOf(rights[0], user, groups) + Clauses(rights[1..], user, groups)
  }

  function ClausesOf(c: char, user: string, groups: seq<string>): seq<Query> {
    match LetterOf(c)
    case Some(l) => [Clause(l, user, groups)]
    case None => []
  }

  lemma NextClauses(done: seq<Query>, rights: string, i: nat, user: string, groups: seq<string>)
    requires i < |rights|
    ensures done + Clauses(rights[i..], user, groups) ==
            (done + ClausesOf(rights[i], user, groups)) + Clauses(rights[i + 1..], user, groups)
  {
    assert rights[i..][1..] == rights[i + 1..];
  }

  function RightsFilter(rights: string, user: string, groups: seq<string>): seq<Query> {
    Clauses(Asked(rights), user, groups)
  }

  /** The body the four cases of the rights switch share. */
  method LetterClause(l: Letter, user: string, groups: seq<string>) returns (clause: Query)
    ensures clause == Clause(l, user, groups)
  {
    var alternatives := [];
    if user != "" {
      alternatives := alternatives + [Term(UsersField(l), Text(user))];
    }
    if |groups| > 0 {
      alternatives := alternatives + [Terms(GroupsField(l), Array(Texts(groups)))];
    }
    clause := Bool([], alternatives, []);
  }

  method GetRightsQuery(rights: string, user: string, groups: seq<string>) returns (result: seq<Query>)
    ensures result == RightsFilter(rights, user, groups)
  {
    var asked := rights;
    if asked == "" {
      asked := "r";
    }
    result := [];
    for i := 0 to |asked|
      invariant result + Clauses(asked[i..], user, groups) == Clauses(asked, user, groups)
    {
      NextClauses(result, asked, i, user, groups);
      match asked[i]
      case 'a' =>
        var clause := LetterClause(Admin, user, groups);
        result := result + [clause];
      case 'r' =>
        var clause := LetterClause(Read, user, groups);
        result := result + [clause];
      case 'w' =>
        var clause := LetterClause(Write, user, groups);
        result := result + [clause];
      case 'x' =>
        var clause := LetterClause(Execute, user, groups);
        result := result + [clause];
      case _ =>
        assert result + [] == result;
    }
    assert result + [] == result;
  }

  lemma GroupTermMeaning(field: string, groups: seq<string>, doc: Indexed, members: seq<string>)
    requires ValuesOf(doc, field) == Texts(members)
    ensures Matches(Terms(field, Array(Texts(groups))), doc) <==> exists g | g in groups :: g in members
  {
    forall v: Json ensures v in Texts(groups) <==> v.Text? && v.s in groups
                   ensures v in Texts(members) <==> v.Text? && v.s in members {
      TextsMember(groups, v);
      TextsMember(members, v);
    }
    if g :| g in groups && g in members {
      assert Text(g) in Texts(groups) && Text(g) in Texts(members);
    }
  }

  lemma AlternativesMeaning(usersField: string, groupsField: string, user: string, groups: seq<string>,
                            doc: Indexed, users: seq<string>, members: seq<string>)
    requires ValuesOf(doc, usersField) == Texts(users) && ValuesOf(doc, groupsField) == Texts(members)
    ensures Matches(Bool([], Alternatives(usersField, groupsField, user, groups), []), doc) <==>
            if user == "" && groups == [] then true
            else (user != "" && user in users) || exists g | g in groups :: g in members
  {
    var byUser, byGroup := Term(usersField, Text(user)), Terms(groupsField, Array(Texts(groups)));
    GroupTermMeaning(groupsField, groups, doc, members);
    TextsMember(users, Text(user));
    ShouldMeaning(byUser, byGroup, user != "", groups != [], doc);
  }

  lemma ShouldMeaning(p: Query, q: Query, withP: bool, withQ: bool, doc: Indexed)
    ensures Matches(Bool([], (if withP then [p] else []) + (if withQ then [q] else []), []), doc) <==>
            (!withP && !withQ) || (withP && Matches(p, doc)) || (withQ && Matches(q, doc))
  {
    var should := (if withP then [p] else []) + (if withQ then [q] else []);
    if withP { assert should[0] == p; }
    if withQ { assert should[|should| - 1] == q; }
  }

  lemma ClauseMeaning(l: Letter, user: string, groups: seq<string>, e: Doc, doc: Indexed)
    requires Indexes(doc, e)
    ensures Matches(Clause(l, user, groups), doc) <==>
            if user == "" && groups == [] then true
            else (user != "" && e.users.Holds(user, l)) || exists g | g in groups :: e.groups.Holds(g, l)
  {
    AlternativesMeaning(UsersField(l), GroupsField(l), user, groups, doc, e.users.Of(l), e.groups.Of(l));
  }

  lemma {:induction false} ClausesMeaning(rights: string, user: string, groups: seq<string>, doc: Indexed)
    ensures (forall q | q in Clauses(rights, user, groups) :: Matches(q, doc)) <==>
            forall c | c in rights :: LetterOf(c).Some? ==> Matches(Clause(LetterOf(c).value, user, groups), doc)
  {
    if rights != "" {
      ClausesMeaning(rights[1..], user, groups, doc);
      assert rights == [rights[0]] + rights[1..];
      var head := ClausesOf(rights[0], user, groups);
      assert Clauses(rights, user, groups) == head + Clauses(rights[1..], user, groups);
      assert forall q :: q in Clauses(rights, user, groups) <==> q in head || q in Clauses(rights[1..], user, groups);
      assert LetterOf(rights[0]).Some? ==> head[0] in head;
    }
  }

  /** The compiled query accepts when the clause of every asked letter matches. */
  lemma AcceptsClauses(rights: string, user: string, groups: seq<string>, doc: Indexed)
    ensures QueryAccepts(rights, user, groups, doc) <==>
            forall c | c in Asked(rights) :: LetterOf(c).Some? ==> Matches(Clause(LetterOf(c).value, user, groups), doc)
  {
    ClausesMeaning(Asked(rights), user, groups, doc);
  }

  predicate QueryAccepts(rights: string, user: string, groups: seq<string>, doc: Indexed) {
    Matches(Bool(RightsFilter(rights, user, groups), [], []), doc)
  }

  /** For a caller with a user id the compiled query accepts exactly what the rights allow. */
  lemma QueryAgrees(rights: string, user: string, groups: seq<string>, e: Doc, doc: Indexed)
    requires user != "" && Indexes(doc, e)
    ensures QueryAccepts(rights, user, groups, doc) <==> Allowed(e, user, groups, rights)
  {
    AcceptsClauses(rights, user, groups, doc);
    forall l: Letter ensures Matches(Clause(l, user, groups), doc) <==> Grants(e, user, groups, l) {
      ClauseMeaning(l, user, groups, e, doc);
    }
  }

  /** The agreement on every entry holds exactly for callers with a user id, or when no letter is asked. */
  lemma QueryAgreesExactly(rights: string, user: string, groups: seq<string>)
    ensures (forall e, doc | Indexes(doc, e) :: QueryAccepts(rights, user, groups, doc) <==> Allowed(e, user, groups, rights))
       <==> (user != "" || forall c | c in Asked(rights) :: LetterOf(c).None?)
  {
    if user == "" && exists c :: c in Asked(rights) && LetterOf(c).Some? {
      var c :| c in Asked(rights) && LetterOf(c).Some?;
      EmptyUserDisagrees(rights, groups, c);
    } else {
      forall e, doc | Indexes(doc, e)
        ensures QueryAccepts(rights, user, groups, doc) <==> Allowed(e, user, groups, rights)
      {
        if user != "" {
          QueryAgrees(rights, user, groups, e, doc);
        } else {
          AcceptsClauses(rights, user, groups, doc);
        }
      }
    }
  }

  /** With groups the user list is never asked; without any the clause is empty and matches all. */
  lemma EmptyUserDisagrees(rights: string, groups: seq<string>, c: char)
    requires c in Asked(rights) && LetterOf(c).Some?
    ensures exists e, doc :: Indexes(doc, e) && QueryAccepts(rights, "", groups, doc) != Allowed(e, "", groups, rights)
  {
    var e := if groups != [] then EVERYONE else NO_ONE;
    var doc := AsIndexed(e);
    EveryEntryIndexed(e);
    AcceptsClauses(rights, "", groups, doc);
    forall l: Letter
      ensures Matches(Clause(l, "", groups), doc) <==> groups == []
      ensures Grants(e, "", groups, l) <==> groups != []
    {
      ClauseMeaning(l, "", groups, e, doc);
      NoGroupHolds(e, l);
    }
    assert Indexes(doc, e) && QueryAccepts(rights, "", groups, doc) != Allowed(e, "", groups, rights);
  }

  const EVERYONE := Doc("id", map[], map[], Lists([""], [""], [""], [""]), NOBODY, "")
  const NO_ONE := Doc("id", map[], map[], NOBODY, NOBODY, "")

  lemma NoGroupHolds(e: Doc, l: Letter)
    requires e == EVERYONE || e == NO_ONE
    ensures forall g :: !e.groups.Holds(g, l)
    ensures e.users.Holds("", l) <==> e == EVERYONE
  {
    if e == EVERYONE {
      assert e.users.Of(l) == [""];
    }
    assert e.groups.Of(l) == [];
  }

  /** The fields a rights query looks at. */
  datatype Field = UsersOf(l: Letter) | GroupsOf(l: Letter) | ResourceId

  function FieldName(f: Field): string {
    match f
    case UsersOf(l) => UsersField(l)
    case GroupsOf(l) => GroupsField(l)
    case ResourceId => "resource"
  }

  function FieldValues(e: Doc, f: Field): seq<Json> {
    match f
    case UsersOf(l) => Texts(e.users.Of(l))
    case GroupsOf(l) => Texts(e.groups.Of(l))
    case ResourceId => [Text(e.resource)]
  }

  lemma FieldShape(f: Field)
    ensures |FieldName(f)| >= 8
    ensures var n := FieldName(f);
      && n[|n| - 2] == (match f case UsersOf(_) => 'r' case GroupsOf(_) => 'p' case ResourceId => 'c')
      && n[0] == (if f.ResourceId? then 'r' else if f.l == Execute then 'e' else CharOf(f.l))
  {}

  lemma FieldsDiffer()
    ensures forall f, g | FieldName(f) == FieldName(g) :: f == g
  {
    forall f, g | FieldName(f) == FieldName(g) ensures f == g {
      FieldShape(f);
      FieldShape(g);
    }
  }

  function IndexedFields(): set<Field> {
    (set l: Letter | true :: UsersOf(l)) + (set l: Letter | true :: GroupsOf(l)) + {ResourceId}
  }

  function AsIndexed(e: Doc): Indexed {
    FieldsDiffer();
    map f | f in IndexedFields() :: FieldName(f) := FieldValues(e, f)
  }

  lemma FieldIndexed(e: Doc, f: Field)
    ensures ValuesOf(AsIndexed(e), FieldName(f)) == FieldValues(e, f)
  {
    FieldsDiffer();
    assert f in IndexedFields();
  }

  /** Every entry can be indexed. */
  lemma EveryEntryIndexed(e: Doc)
    ensures Indexes(AsIndexed(e), e)
  {
    forall l: Letter
      ensures ValuesOf(AsIndexed(e), UsersField(l)) == Texts(e.users.Of(l))
      ensures ValuesOf(AsIndexed(e), GroupsField(l)) == Texts(e.groups.Of(l))
    {
      FieldIndexed(e, UsersOf(l));
      FieldIndexed(e, GroupsOf(l));
    }
    FieldIndexed(e, ResourceId);
  }

  // ----- the direct check -----

  method ContainsAny(list: seq<string>, any: seq<string>) returns (found: bool)
    ensures found <==> exists g | g in any :: g in list
  {
    for i := 0 to |any|
      invariant forall j | 0 <= j < i :: any[j] !in list
    {
      if any[i] in list {
        return true;
      }
    }
    return false;
  }

  /** The loop of CheckUserOrGroupFromAuthToken over the asked letters. */
  method CheckRights(e: Doc, user: string, groups: seq<string>, rights: string) returns (accepted: bool)
    ensures accepted <==> Allowed(e, user, groups, rights)
  {
    var asked := rights;
    if asked == "" {
      asked := "r";
    }
    for i := 0 to |asked|
      invariant forall j | 0 <= j < i :: LetterOf(asked[j]).Some? ==> Grants(e, user, groups, LetterOf(asked[j]).value)
    {
      assert asked[i] in Asked(rights);
      var byGroup := true;
      match asked[i]
      case 'a' =>
        byGroup := ContainsAny(e.groups.admin, groups);
        if user !in e.users.admin && !byGroup { return false; }
      case 'r' =>
        byGroup := ContainsAny(e.groups.read, groups);
        if user !in e.users.read && !byGroup { return false; }
      case 'w' =>
        byGroup := ContainsAny(e.groups.write, groups);
        if user !in e.users.write && !byGroup { return false; }
      case 'x' =>
        byGroup := ContainsAny(e.groups.execute, groups);
        if user !in e.users.execute && !byGroup { return false; }
      case _ =>
    }
    return true;
  }

  // ----- the permissions shown with a result -----

  method AnyMatch(aList: seq<string>, bList: seq<string>) returns (found: bool)
    ensures found <==> exists b | b in bList :: b in aList
  {
    for i := 0 to |aList|
      invariant forall k | 0 <= k < i :: aList[k] !in bList
    {
      for j := 0 to |bList|
        invariant forall k | 0 <= k < j :: aList[i] != bList[k]
      {
        if aList[i] == bList[j] {
          assert bList[j] in aList;
          return true;
        }
      }
    }
    return false;
  }

  method GetPermissions(e: Doc, user: string, groups: seq<string>) returns (shown: map<char, bool>)
    ensures forall c :: c in shown <==> LetterOf(c).Some?
    ensures forall l :: CharOf(l) in shown && (shown[CharOf(l)] <==> Grants(e, user, groups, l))
  {
    var r := EitherMatch(e.users.read, user, e.groups.read, groups);
    var w := EitherMatch(e.users.write, user, e.groups.write, groups);
    var x := EitherMatch(e.users.execute, user, e.groups.execute, groups);
    var a := EitherMatch(e.users.admin, user, e.groups.admin, groups);
    shown := map['r' := r, 'w' := w, 'x' := x, 'a' := a];
  }

  /** The two matches each letter of the shown permissions is made of. */
  method EitherMatch(users: seq<string>, user: string, members: seq<string>, groups: seq<string>) returns (found: bool)
    ensures found <==> user in users || exists g | g in groups :: g in members
  {
    var byUser := AnyMatch(users, [user]);
    var byGroup := AnyMatch(members, groups);
    assert byUser <==> user in users by {
      assert user in [user] && forall b | b in [user] :: b == user;
    }
    found := byUser || byGroup;
  }

  predicate ShownAllows(shown: map<char, bool>, rights: string) {
    forall c | c in Asked(rights) :: c in shown ==> shown[c]
  }

  /** The three decisions agree: the compiled query matches, the check accepts, and every asked
      letter the result shows is shown as held. */
  lemma ThreeDecisionsAgree(e: Doc, user: string, groups: seq<string>, rights: string, doc: Indexed, shown: map<char, bool>)
    requires user != "" && Indexes(doc, e)
    requires forall c :: c in shown <==> LetterOf(c).Some?
    requires forall l :: CharOf(l) in shown && (shown[CharOf(l)] <==> Grants(e, user, groups, l))
    ensures QueryAccepts(rights, user, groups, doc) <==> Allowed(e, user, groups, rights)
    ensures ShownAllows(shown, rights) <==> Allowed(e, user, groups, rights)
  {
    QueryAgrees(rights, user, groups, e, doc);
    ShownAgrees(e, user, groups, rights, shown);
  }

  lemma ShownAgrees(e: Doc, user: string, groups: seq<string>, rights: string, shown: map<char, bool>)
    requires forall c :: c in shown <==> LetterOf(c).Some?
    requires forall l :: CharOf(l) in shown && (shown[CharOf(l)] <==> Grants(e, user, groups, l))
    ensures ShownAllows(shown, rights) <==> Allowed(e, user, groups, rights)
  {
    forall c | c in shown ensures shown[c] <==> Grants(e, user, groups, LetterOf(c).value) {
      var l := LetterOf(c).value;
      assert CharOf(l) == c;
      assert shown[CharOf(l)] <==> Grants(e, user, groups, l);
    }
  }

  // ----- what the letters stand for -----

  /** Each letter asks for the list of its right, through the user or a group; "" asks for read, and any
      other character for nothing. */
  lemma LettersStandFor(e: Doc, user: string, groups: seq<string>, c: char)
    ensures Allowed(e, user, groups, "a") <==> user in e.users.admin || exists g | g in groups :: g in e.groups.admin
    ensures Allowed(e, user, groups, "r") <==> user in e.users.read || exists g | g in groups :: g in e.groups.read
    ensures Allowed(e, user, groups, "w") <==> user in e.users.write || exists g | g in groups :: g in e.groups.write
    ensures Allowed(e, user, groups, "x") <==> user in e.users.execute || exists g | g in groups :: g in e.groups.execute
    ensures Allowed(e, user, groups, "") <==> Allowed(e, user, groups, "r")
    ensures c !in "arwx" ==> Allowed(e, user, groups, [c])
  {
    OneLetterAsked(e, user, groups, 'a');
    OneLetterAsked(e, user, groups, 'r');
    OneLetterAsked(e, user, groups, 'w');
    OneLetterAsked(e, user, groups, 'x');
    OneLetterAsked(e, user, groups, c);
    assert "arwx"[0] == 'a' && "arwx"[1] == 'r' && "arwx"[2] == 'w' && "arwx"[3] == 'x';
  }

  lemma OneLetterAsked(e: Doc, user: string, groups: seq<string>, c: char)
    ensures Allowed(e, user, groups, [c]) <==> (LetterOf(c).Some? ==> Grants(e, user, groups, LetterOf(c).value))
  {
    assert c in [c] && forall other | other in [c] :: other == c;
  }

  /** Several letters ask for all of them. */
  lemma LettersTogether(e: Doc, user: string, groups: seq<string>, some: string, more: string)
    requires some != "" && more != ""
    ensures Allowed(e, user, groups, some + more) <==> Allowed(e, user, groups, some) && Allowed(e, user, groups, more)
  {
    forall c ensures c in some + more <==> c in some || c in more {}
  }

  /** The lists are asked under the names they have in the stored document. */
  lemma ListsIndexed(e: Doc)
    ensures var doc := AsIndexed(e);
      && ValuesOf(doc, "admin_users") == Texts(e.users.admin) && ValuesOf(doc, "admin_groups") == Texts(e.groups.admin)
      && ValuesOf(doc, "read_users") == Texts(e.users.read) && ValuesOf(doc, "read_groups") == Texts(e.groups.read)
      && ValuesOf(doc, "write_users") == Texts(e.users.write) && ValuesOf(doc, "write_groups") == Texts(e.groups.write)
      && ValuesOf(doc, "execute_users") == Texts(e.users.execute)
      && ValuesOf(doc, "execute_groups") == Texts(e.groups.execute)
  {
    EveryEntryIndexed(e);
    assert UsersField(Admin) == "admin_users" && GroupsField(Admin) == "admin_groups";
    assert UsersField(Read) == "read_users" && GroupsField(Read) == "read_groups";
    assert UsersField(Write) == "write_users" && GroupsField(Write) == "write_groups";
    assert UsersField(Execute) == "execute_users" && GroupsField(Execute) == "execute_groups";
    ListsUnder(e, Admin);
    ListsUnder(e, Read);
    ListsUnder(e, Write);
    ListsUnder(e, Execute);
  }

  lemma ListsUnder(e: Doc, l: Letter)
    ensures ValuesOf(AsIndexed(e), UsersField(l)) == Texts(e.users.Of(l))
    ensures ValuesOf(AsIndexed(e), GroupsField(l)) == Texts(e.groups.Of(l))
  {
    EveryEntryIndexed(e);
  }
}
