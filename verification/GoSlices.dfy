/** Go slices over real arrays, to justify the room and the shared array of `Model.GroupSlices`: the
    appends of AddGroupRights (lib/model/model.go:60-73) on two slices that may share an array. */
module GoSlices {
  import opened Model

  datatype Slice = Slice(data: array<string>, len: nat) {
    ghost predicate Valid() { len <= data.Length }

    function Contents(): seq<string>
      requires Valid()
      reads data
    {
      data[..len]
    }
  }

  /** Go's append: in place while there is room, else in a new array with the given room behind. */
  method Append(s: Slice, x: string, room: nat) returns (t: Slice)
    requires s.Valid()
    modifies s.data
    ensures t.Valid() && t.Contents() == old(s.Contents()) + [x]
    ensures s.len < s.data.Length ==> t.data == s.data && s.data[..] == old(s.data[..])[s.len := x]
    ensures s.len == s.data.Length ==> fresh(t.data) && t.data.Length == t.len + room
    ensures s.len == s.data.Length ==> s.data[..] == old(s.data[..])
  {
    if s.len < s.data.Length {
      s.data[s.len] := x;
      t := Slice(s.data, s.len + 1);
      assert t.Contents() == s.data[..s.len] + [x];
    } else {
      var moved := new string[s.len + 1 + room];
      for i := 0 to s.len
        invariant moved[..i] == s.data[..i]
        invariant s.data[..] == old(s.data[..])
      {
        moved[i] := s.data[i];
      }
      moved[s.len] := x;
      t := Slice(moved, s.len + 1);
      assert t.Contents() == moved[..s.len] + [x];
    }
  }

  /** The two slices hold the admin and the execute list, with the room and the sharing recorded. */
  ghost predicate Holds(admin: Slice, execute: Slice, g: GroupSlices)
    reads admin.data, execute.data
  {
    && admin.Valid() && execute.Valid()
    && admin.Contents() == g.lists.admin && execute.Contents() == g.lists.execute
    && g.room == admin.data.Length - admin.len
    && (g.sameArray <==> execute.data == admin.data)
    && (g.sameArray ==> execute.len <= admin.len + 1)
  }

  /** The case 'a' of AddGroupRights: what it writes over is as recorded. */
  method AppendAdmin(admin: Slice, execute: Slice, group: string, rooms: seq<nat>, ghost g: GroupSlices) returns (admin': Slice)
    requires Holds(admin, execute, g)
    modifies admin.data
    ensures Holds(admin', execute, AppendLetter(g, Given(group, 'a'), rooms))
  {
    admin' := Append(admin, group, RoomAfter(rooms, admin.len));
    ghost var after := AppendLetter(g, Given(group, 'a'), rooms);
    assert execute.Contents() == after.lists.execute;
  }

  /** The case 'x', line 70: the execute list ends up in the array of the admin list if there is room. */
  method AppendExecute(admin: Slice, execute: Slice, group: string, room: nat, ghost g: GroupSlices) returns (execute': Slice)
    requires Holds(admin, execute, g)
    modifies admin.data
    ensures Holds(admin, execute', AppendLetter(g, Given(group, 'x'), []))
  {
    execute' := Append(admin, group, room);
  }
}
