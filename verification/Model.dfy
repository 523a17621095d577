/** The resource document and its permission lists (lib/model/model.go).

    `Lists` holds the four lists of one kind of holder: an entry has one for users and one for
    groups.  `Doc` is the document as stored; the class `Entry` is the Go struct whose methods
    append to and reassign its fields, each proved against a function on `Doc` or `Lists`. */
module Model {
  import opened GoStrings

  /** A JSON value, for features, annotations and the values of conditions. */
  datatype Json =
    | Null
    | Boolean(b: bool)
    | Number(n: real)
    | Text(s: string)
    | Array(items: seq<Json>)
    | Object(members: map<string, Json>)

  type Fields = map<string, Json>

  datatype Letter = Admin | Read | Write | Execute

  function LetterOf(c: char): Option<Letter> {
    match c
    case 'a' => Some(Admin)
    case 'r' => Some(Read)
    case 'w' => Some(Write)
    case 'x' => Some(Execute)
    case _ => None
  }

  function CharOf(l: Letter): char {
    match l
    case Admin => 'a'
    case Read => 'r'
    case Write => 'w'
    case Execute => 'x'
  }

  datatype Lists = Lists(admin: seq<string>, read: seq<string>, write: seq<string>, execute: seq<string>) {
    function Of(l: Letter): seq<string> {
      match l
      case Admin => admin
      case Read => read
      case Write => write
      case Execute => execute
    }

    predicate Holds(name: string, l: Letter) { name in Of(l) }

    /** The same holders of each right, whatever the order and repetition of the lists. */
    ghost predicate SameHolders(other: Lists) {
      forall name, l :: Holds(name, l) <==> other.Holds(name, l)
    }
  }

  const NOBODY := Lists([], [], [], [])

  datatype Doc = Doc(
    resource: string,
    features: Fields,
    annotations: Fields,
    users: Lists,
    groups: Lists,
    creator: string)

  // ----- adding and removing the rights of one holder -----

  function AddLetter(ls: Lists, name: string, c: char): Lists {
    match c
    case 'a' => ls.(admin := ls.admin + [name])
    case 'r' => ls.(read := ls.read + [name])
    case 'w' => ls.(write := ls.write + [name])
    case 'x' => ls.(execute := ls.execute + [name])
    case _ => ls
  }

  /** As coded at lib/model/model.go:70: the execute list is rebuilt from the admin list.  This is one
      group's letters on lists with arrays of their own; see GroupSlices for several groups. */
  function AddGroupLetter(ls: Lists, name: string, c: char): Lists {
    if c == 'x' then ls.(execute := ls.admin + [name]) else AddLetter(ls, name, c)
  }

  function AddUser(ls: Lists, name: string, rights: string): Lists
    decreases |rights|
  {
    if rights == "" then ls else AddUser(AddLetter(ls, name, rights[0]), name, rights[1..])
  }

  function AddGroup(ls: Lists, name: string, rights: string): Lists
    decreases |rights|
  {
    if rights == "" then ls else AddGroup(AddGroupLetter(ls, name, rights[0]), name, rights[1..])
  }

  // ----- group lists as slices -----

  /** The group lists while an entry is built.  Line 70 may leave the execute list in the array of the
      admin list, behind whose elements there is room for some more; the next append to the admin list
      then writes over the last element of the execute list. */
  datatype GroupSlices = GroupSlices(lists: Lists, room: nat, sameArray: bool)

  /** The lists of a new entry, which has no arrays yet. */
  const NO_SLICES := GroupSlices(NOBODY, 0, false)

  /** The room Go leaves when an append moves an admin list of n elements to a new array.  The language
      does not fix it, so it is given. */
  function RoomAfter(rooms: seq<nat>, n: nat): nat {
    if n < |rooms| then rooms[n] else 0
  }

  /** One letter for one group. */
  datatype Given = Given(group: string, letter: char)

  function AppendLetter(g: GroupSlices, given: Given, rooms: seq<nat>): GroupSlices {
    var ls, name := g.lists, given.group;
    match given.letter
    case 'a' =>
      if g.room == 0 then
        GroupSlices(ls.(admin := ls.admin + [name]), RoomAfter(rooms, |ls.admin|), false)
      else
        var written := g.sameArray && |ls.admin| < |ls.execute|;
        g.(lists := ls.(admin := ls.admin + [name],
                        execute := if written then ls.execute[|ls.admin| := name] else ls.execute),
           room := g.room - 1)
    case 'x' => g.(lists := ls.(execute := ls.admin + [name]), sameArray := g.room > 0)
    case c => g.(lists := AddLetter(ls, name, c))
  }

  function AppendAll(g: GroupSlices, givens: seq<Given>, rooms: seq<nat>): GroupSlices
    decreases |givens|
  {
    if givens == [] then g else AppendAll(AppendLetter(g, givens[0], rooms), givens[1..], rooms)
  }

  function LettersOf(name: string, rights: string): seq<Given> {
    seq(|rights|, i requires 0 <= i < |rights| => Given(name, rights[i]))
  }

  lemma {:induction false} AppendJoined(g: GroupSlices, a: seq<Given>, b: seq<Given>, rooms: seq<nat>)
    ensures AppendAll(g, a + b, rooms) == AppendAll(AppendAll(g, a, rooms), b, rooms)
    decreases |a|
  {
    if a == [] {
      assert a + b == b;
    } else {
      assert (a + b)[1..] == a[1..] + b;
      AppendJoined(AppendLetter(g, a[0], rooms), a[1..], b, rooms);
    }
  }

  /** The letters of one group on lists with arrays of their own come out as if lists were values,
      whatever the room: what is written over is the group itself. */
  lemma {:induction false} OneGroupAsValues(g: GroupSlices, name: string, rights: string, rooms: seq<nat>)
    requires g.sameArray && |g.lists.admin| < |g.lists.execute| ==> g.lists.execute == g.lists.admin + [name]
    ensures AppendAll(g, LettersOf(name, rights), rooms).lists == AddGroup(g.lists, name, rights)
    decreases |rights|
  {
    if rights != "" {
      var next := AppendLetter(g, Given(name, rights[0]), rooms);
      assert next.lists == AddGroupLetter(g.lists, name, rights[0]) by {
        if g.sameArray && |g.lists.admin| < |g.lists.execute| {
          assert g.lists.execute[|g.lists.admin| := name] == g.lists.execute;
        }
      }
      assert LettersOf(name, rights)[1..] == LettersOf(name, rights[1..]);
      OneGroupAsValues(next, name, rights[1..], rooms);
    }
  }

  function Remove(list: seq<string>, name: string): (r: seq<string>)
    ensures forall n :: n in r <==> n in list && n != name
  {
    if list == [] then []
    else if list[0] == name then Remove(list[1..], name)
    else [list[0]] + Remove(list[1..], name)
  }

  function Without(ls: Lists, name: string): Lists {
    Lists(Remove(ls.admin, name), Remove(ls.read, name), Remove(ls.write, name), Remove(ls.execute, name))
  }

  /** Adding gives the named holder exactly the letters of the string on top of what it had. */
  lemma {:induction false} AddUserHolders(ls: Lists, name: string, rights: string, n: string, l: Letter)
    ensures AddUser(ls, name, rights).Holds(n, l) <==> ls.Holds(n, l) || (n == name && CharOf(l) in rights)
    decreases |rights|
  {
    if rights != "" {
      AddUserHolders(AddLetter(ls, name, rights[0]), name, rights[1..], n, l);
    }
  }

  /** The same for groups and the letters a, r and w. */
  lemma {:induction false} AddGroupHolders(ls: Lists, name: string, rights: string, n: string, l: Letter)
    requires l != Execute
    ensures AddGroup(ls, name, rights).Holds(n, l) <==> ls.Holds(n, l) || (n == name && CharOf(l) in rights)
    decreases |rights|
  {
    if rights != "" {
      AddGroupHolders(AddGroupLetter(ls, name, rights[0]), name, rights[1..], n, l);
    }
  }

  /** What line 70 does to the execute list: an 'x' hands it to the admin groups and the named one. */
  lemma {:induction false} AddGroupExecute(ls: Lists, name: string, rights: string, n: string)
    ensures AddGroup(ls, name, rights).Holds(n, Execute) <==>
            if 'x' in rights then ls.Holds(n, Admin) || n == name else ls.Holds(n, Execute)
    decreases |rights|
  {
    if rights != "" {
      AddGroupExecute(AddGroupLetter(ls, name, rights[0]), name, rights[1..], n);
    }
  }

  // ----- the rights maps of a RIGHTS command and of an export -----

  datatype Right = Right(read: bool, write: bool, execute: bool, administrate: bool) {
    predicate Has(l: Letter) {
      match l
      case Admin => administrate
      case Read => read
      case Write => write
      case Execute => execute
    }

    function With(l: Letter): Right {
      match l
      case Admin => this.(administrate := true)
      case Read => this.(read := true)
      case Write => this.(write := true)
      case Execute => this.(execute := true)
    }
  }

  const NO_RIGHT := Right(false, false, false, false)

  datatype Rights = Rights(users: map<string, Right>, groups: map<string, Right>)

  datatype ResourceRights = ResourceRights(rights: Rights, resourceId: string, features: Fields, creator: string)

  function ToRights(d: Doc): ResourceRights {
    ResourceRights(Rights(Extract(d.users), Extract(d.groups)), d.resource, d.features, d.creator)
  }

  /** An order in which Go may range over a map with these keys. */
  ghost predicate Enumerates(order: seq<string>, keys: set<string>) {
    && (forall k :: k in order <==> k in keys)
    && (forall i, j | 0 <= i < j < |order| :: order[i] != order[j])
  }

  /** Every set of keys has such an order. */
  ghost function AnOrder(keys: set<string>): (order: seq<string>)
    ensures Enumerates(order, keys)
  {
    if keys == {} then [] else var k :| k in keys; [k] + AnOrder(keys - {k})
  }

  function AddRight(ls: Lists, name: string, r: Right): Lists {
    Lists(
      if r.administrate then ls.admin + [name] else ls.admin,
      if r.read then ls.read + [name] else ls.read,
      if r.write then ls.write + [name] else ls.write,
      if r.execute then ls.execute + [name] else ls.execute)
  }

  /** SetResourceRights for one kind of holder, ranging over the map in the given order. */
  function AddRights(ls: Lists, m: map<string, Right>, order: seq<string>): Lists
    requires forall n | n in order :: n in m
    decreases |order|
  {
    if order == [] then ls else AddRights(AddRight(ls, order[0], m[order[0]]), m, order[1..])
  }

  lemma {:induction false} AddRightsHolders(ls: Lists, m: map<string, Right>, order: seq<string>, n: string, l: Letter)
    requires forall k | k in order :: k in m
    ensures AddRights(ls, m, order).Holds(n, l) <==> ls.Holds(n, l) || (n in order && m[n].Has(l))
    decreases |order|
  {
    if order != [] {
      AddRightsHolders(AddRight(ls, order[0], m[order[0]]), m, order[1..], n, l);
    }
  }

  /** ToResourceRights for one kind of holder: who is named by some list, and by which. */
  function Extract(ls: Lists): (m: map<string, Right>)
  {
    map name | name in ls.admin + ls.read + ls.write + ls.execute ::
      Right(name in ls.read, name in ls.write, name in ls.execute, name in ls.admin)
  }

  // ----- the Go struct -----

  method ListRemove(list: seq<string>, element: string) returns (result: seq<string>)
    ensures result == Remove(list, element)
  {
    result := [];
    for i := 0 to |list|
      invariant result + Remove(list[i..], element) == Remove(list, element)
    {
      if list[i] != element {
        result := result + [list[i]];
      }
    }
  }

  /** One of the eight loops of ToResourceRights: mark every listed holder with one right. */
  method Mark(m: map<string, Right>, names: seq<string>, l: Letter) returns (marked: map<string, Right>)
    ensures forall k :: k in marked <==> k in m || k in names
    ensures forall k | k in marked ::
      marked[k] == var had := if k in m then m[k] else NO_RIGHT; if k in names then had.With(l) else had
  {
    marked := m;
    for i := 0 to |names|
      invariant forall k :: k in marked <==> k in m || k in names[..i]
      invariant forall k | k in marked ::
        marked[k] == var had := if k in m then m[k] else NO_RIGHT; if k in names[..i] then had.With(l) else had
    {
      if names[i] !in marked {
        marked := marked[names[i] := NO_RIGHT];
      }
      marked := marked[names[i] := marked[names[i]].With(l)];
    }
    assert names[..|names|] == names;
  }

  method Extracted(ls: Lists) returns (m: map<string, Right>)
    ensures m == Extract(ls)
  {
    m := Mark(map[], ls.admin, Admin);
    m := Mark(m, ls.read, Read);
    m := Mark(m, ls.write, Write);
    m := Mark(m, ls.execute, Execute);
  }

  class Entry {
    var resource: string
    var features: Fields
    var annotations: Fields
    var adminUsers: seq<string>
    var adminGroups: seq<string>
    var readUsers: seq<string>
    var readGroups: seq<string>
    var writeUsers: seq<string>
    var writeGroups: seq<string>
    var executeUsers: seq<string>
    var executeGroups: seq<string>
    var creator: string
    /** The room behind the admin groups in their array, whether the execute groups are in that array,
        and the room that new arrays for the admin groups will have. */
    var adminRoom: nat
    var sameArray: bool
    const rooms: seq<nat>

    function Users(): Lists reads this { Lists(adminUsers, readUsers, writeUsers, executeUsers) }

    function Groups(): Lists reads this { Lists(adminGroups, readGroups, writeGroups, executeGroups) }

    function Slices(): GroupSlices reads this { GroupSlices(Groups(), adminRoom, sameArray) }

    /** The document this struct is written as. */
    function Value(): Doc reads this {
      Doc(resource, features, annotations, Users(), Groups(), creator)
    }

    /** An entry decoded from a document: every list has an array of its own, with some room. */
    constructor (d: Doc)
      ensures Value() == d && !sameArray
    {
      var room: nat, rooms: seq<nat> :| true;
      adminRoom, sameArray, this.rooms := room, false, rooms;
      resource, features, annotations, creator := d.resource, d.features, d.annotations, d.creator;
      adminUsers, readUsers, writeUsers, executeUsers := d.users.admin, d.users.read, d.users.write, d.users.execute;
      adminGroups, readGroups := d.groups.admin, d.groups.read;
      writeGroups, executeGroups := d.groups.write, d.groups.execute;
    }

    /** A new entry without lists. */
    constructor Blank(resource: string, features: Fields, creator: string)
      ensures Value() == Doc(resource, features, map[], NOBODY, NOBODY, creator)
      ensures Slices() == NO_SLICES
    {
      var rooms: seq<nat> :| true;
      adminRoom, sameArray, this.rooms := 0, false, rooms;
      this.resource, this.features, annotations, this.creator := resource, features, map[], creator;
      adminUsers, readUsers, writeUsers, executeUsers := [], [], [], [];
      adminGroups, readGroups, writeGroups, executeGroups := [], [], [], [];
    }

    method AddUserRights(user: string, rights: string)
      modifies this
      ensures Value() == old(Value()).(users := AddUser(old(Users()), user, rights))
    {
      for i := 0 to |rights|
        invariant AddUser(Users(), user, rights[i..]) == AddUser(old(Users()), user, rights)
        invariant Value() == old(Value()).(users := Users())
      {
        assert rights[i..][1..] == rights[i + 1..];
        match rights[i]
        case 'a' => adminUsers := adminUsers + [user];
        case 'r' => readUsers := readUsers + [user];
        case 'w' => writeUsers := writeUsers + [user];
        case 'x' => executeUsers := executeUsers + [user];
        case _ =>
      }
    }

    method RemoveUserRights(user: string)
      modifies this
      ensures Value() == old(Value()).(users := Without(old(Users()), user))
    {
      adminUsers := ListRemove(adminUsers, user);
      readUsers := ListRemove(readUsers, user);
      writeUsers := ListRemove(writeUsers, user);
      executeUsers := ListRemove(executeUsers, user);
    }

    method AddGroupRights(group: string, rights: string)
      modifies this
      ensures Slices() == AppendAll(old(Slices()), LettersOf(group, rights), rooms)
      ensures Value() == old(Value()).(groups := Groups())
      ensures !old(sameArray) ==> Groups() == AddGroup(old(Groups()), group, rights)
    {
      ghost var all := LettersOf(group, rights);
      for i := 0 to |rights|
        invariant AppendAll(Slices(), all[i..], rooms) == AppendAll(old(Slices()), all, rooms)
        invariant Value() == old(Value()).(groups := Groups())
      {
        assert all[i..][0] == Given(group, rights[i]) && all[i..][1..] == all[i + 1..];
        match rights[i] {
          case 'a' => AppendAdminGroup(group);
          case 'r' => readGroups := readGroups + [group];
          case 'w' => writeGroups := writeGroups + [group];
          case 'x' =>
            // append(entry.AdminGroups, group): in the array of the admin groups if there is room
            executeGroups := adminGroups + [group];
            sameArray := adminRoom > 0;
          case _ =>
        }
      }
      if !old(sameArray) { OneGroupAsValues(old(Slices()), group, rights, rooms); }
    }

    /** entry.AdminGroups = append(entry.AdminGroups, group) */
    method AppendAdminGroup(group: string)
      modifies this
      ensures Slices() == AppendLetter(old(Slices()), Given(group, 'a'), rooms)
      ensures Value() == old(Value()).(groups := Groups())
    {
      if adminRoom == 0 {
        adminRoom, sameArray := RoomAfter(rooms, |adminGroups|), false;
      } else {
        if sameArray && |adminGroups| < |executeGroups| {
          executeGroups := executeGroups[|adminGroups| := group];
        }
        adminRoom := adminRoom - 1;
      }
      adminGroups := adminGroups + [group];
    }

    method RemoveGroupRights(group: string)
      modifies this
      ensures Value() == old(Value()).(groups := Without(old(Groups()), group)) && !sameArray
    {
      var room: nat :| true;
      adminRoom, sameArray := room, false;
      adminGroups := ListRemove(adminGroups, group);
      readGroups := ListRemove(readGroups, group);
      writeGroups := ListRemove(writeGroups, group);
      executeGroups := ListRemove(executeGroups, group);
    }

    method ClearRights()
      modifies this
      ensures Value() == old(Value()).(users := NOBODY, groups := NOBODY) && !sameArray
    {
      ClearUsers();
      adminGroups, readGroups, writeGroups, executeGroups := [], [], [], [];
      adminRoom, sameArray := 0, false;
    }

    method ClearUsers()
      modifies this
      ensures Value() == old(Value()).(users := NOBODY)
    {
      adminUsers, readUsers, writeUsers, executeUsers := [], [], [], [];
    }

    method FillCreator(owner: string)
      modifies this
      ensures Value() == old(Value()).(creator := CreatorOr(old(creator), old(adminUsers), owner))
    {
      if creator == "" && |adminUsers| > 0 {
        creator := adminUsers[0];
      }
      if creator == "" {
        creator := owner;
      }
    }

    method GrantGroup(group: string, right: Right)
      requires !sameArray
      modifies this
      ensures Value() == old(Value()).(groups := AddRight(old(Groups()), group, right)) && !sameArray
    {
      if right.administrate { AppendAdminGroup(group); }
      if right.execute { executeGroups := executeGroups + [group]; }
      if right.write { writeGroups := writeGroups + [group]; }
      if right.read { readGroups := readGroups + [group]; }
    }

    method GrantUser(user: string, right: Right)
      modifies this
      ensures Value() == old(Value()).(users := AddRight(old(Users()), user, right)) && sameArray == old(sameArray)
    {
      if right.administrate { adminUsers := adminUsers + [user]; }
      if right.execute { executeUsers := executeUsers + [user]; }
      if right.write { writeUsers := writeUsers + [user]; }
      if right.read { readUsers := readUsers + [user]; }
    }

    /** Ranges over both maps in an arbitrary order; the ghost results say which.  It is called on new and
        on cleared entries, whose lists have arrays of their own. */
    method SetResourceRights(rights: Rights) returns (ghost userOrder: seq<string>, ghost groupOrder: seq<string>)
      requires !sameArray
      modifies this
      ensures Enumerates(userOrder, rights.users.Keys) && Enumerates(groupOrder, rights.groups.Keys)
      ensures Value() == old(Value()).(
        users := AddRights(old(Users()), rights.users, userOrder),
        groups := AddRights(old(Groups()), rights.groups, groupOrder))
    {
      groupOrder := [];
      var todo := rights.groups.Keys;
      while todo != {}
        invariant todo <= rights.groups.Keys
        invariant !sameArray && Enumerates(groupOrder, rights.groups.Keys - todo)
        invariant Value() == old(Value()).(groups := AddRights(old(Groups()), rights.groups, groupOrder))
      {
        var group :| group in todo;
        GrantGroup(group, rights.groups[group]);
        AddRightsSnoc(old(Groups()), rights.groups, groupOrder, group);
        groupOrder, todo := groupOrder + [group], todo - {group};
      }
      userOrder := [];
      todo := rights.users.Keys;
      while todo != {}
        invariant todo <= rights.users.Keys
        invariant Enumerates(userOrder, rights.users.Keys - todo)
        invariant Value() == old(Value()).(
          users := AddRights(old(Users()), rights.users, userOrder),
          groups := AddRights(old(Groups()), rights.groups, groupOrder))
      {
        var user :| user in todo;
        GrantUser(user, rights.users[user]);
        AddRightsSnoc(old(Users()), rights.users, userOrder, user);
        userOrder, todo := userOrder + [user], todo - {user};
      }
    }

    method ToResourceRights() returns (result: ResourceRights)
      ensures result == ToRights(Value())
    {
      var users := Extracted(Users());
      var groups := Extracted(Groups());
      result := ResourceRights(Rights(users, groups), resource, features, creator);
    }

    /** The owner's rights, then the configured groups in an arbitrary order. */
    method SetDefaultPermissions(initial: map<string, string>, owner: string) returns (ghost ranging: Ranging)
      requires Slices() == NO_SLICES
      modifies this
      ensures RangesOver(ranging, initial.Keys)
      ensures Value() == old(Value()).(users := OwnerLists(old(Users()), owner), groups := AddInitial(initial, ranging))
    {
      if owner != "" {
        adminUsers, readUsers, writeUsers, executeUsers := [owner], [owner], [owner], [owner];
      }
      ghost var order: seq<string> := [];
      var todo := initial.Keys;
      while todo != {}
        invariant todo <= initial.Keys
        invariant Enumerates(order, initial.Keys - todo)
        invariant Slices() == AppendAll(NO_SLICES, GivenBy(initial, order), rooms)
        invariant Value() == old(Value()).(users := OwnerLists(old(Users()), owner), groups := Groups())
      {
        var group :| group in todo;
        AddGroupRights(group, initial[group]);
        GivenByJoined(initial, order, [group]);
        GivenByOne(initial, group);
        AppendJoined(NO_SLICES, GivenBy(initial, order), LettersOf(group, initial[group]), rooms);
        order, todo := order + [group], todo - {group};
      }
      ranging := Ranging(order, rooms);
    }
  }

  /** The creator fallback shared by PUT and RIGHTS: first admin user, then the command's owner. */
  function CreatorOr(creator: string, admins: seq<string>, owner: string): string {
    var first := if creator == "" && |admins| > 0 then admins[0] else creator;
    if first == "" then owner else first
  }

  function OwnerLists(ls: Lists, owner: string): Lists {
    if owner != "" then Lists([owner], [owner], [owner], [owner]) else ls
  }

  /** How the configured groups are added to a new entry: the order in which the map is ranged over and
      the room of the arrays that hold the admin groups. */
  datatype Ranging = Ranging(order: seq<string>, rooms: seq<nat>)

  ghost predicate RangesOver(r: Ranging, keys: set<string>) {
    Enumerates(r.order, keys)
  }

  ghost function ARanging(keys: set<string>): (r: Ranging)
    ensures RangesOver(r, keys)
  {
    Ranging(AnOrder(keys), [])
  }

  /** The letters of the configured groups in the order they are given. */
  function GivenBy(initial: map<string, string>, order: seq<string>): seq<Given>
    requires forall g | g in order :: g in initial
    decreases |order|
  {
    if order == [] then [] else LettersOf(order[0], initial[order[0]]) + GivenBy(initial, order[1..])
  }

  /** The group lists of a new entry. */
  function AddInitial(initial: map<string, string>, r: Ranging): Lists
    requires forall g | g in r.order :: g in initial
  {
    AppendAll(NO_SLICES, GivenBy(initial, r.order), r.rooms).lists
  }

  lemma {:induction false} AddRightsSnoc(ls: Lists, m: map<string, Right>, order: seq<string>, last: string)
    requires forall n | n in order :: n in m
    requires last in m
    ensures AddRights(ls, m, order + [last]) == AddRight(AddRights(ls, m, order), last, m[last])
    decreases |order|
  {
    if order != [] {
      assert (order + [last])[1..] == order[1..] + [last];
      AddRightsSnoc(AddRight(ls, order[0], m[order[0]]), m, order[1..], last);
    }
  }

  lemma {:induction false} GivenByJoined(initial: map<string, string>, a: seq<string>, b: seq<string>)
    requires forall g | g in a + b :: g in initial
    ensures GivenBy(initial, a + b) == GivenBy(initial, a) + GivenBy(initial, b)
    decreases |a|
  {
    if a == [] {
      assert a + b == b;
    } else {
      assert (a + b)[1..] == a[1..] + b;
      assert forall g | g in a[1..] + b :: g in a + b;
      GivenByJoined(initial, a[1..], b);
    }
  }

  lemma GivenByOne(initial: map<string, string>, group: string)
    requires group in initial
    ensures GivenBy(initial, [group]) == LettersOf(group, initial[group])
  {
    assert [group][1..] == [];
  }
}
