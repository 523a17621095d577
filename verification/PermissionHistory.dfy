/** What a history of permission commands leaves behind in one entry. */
module PermissionHistory {
  import opened GoStrings
  import opened Model
  import opened Commands

  function Perms(ps: seq<Perm>, d: Doc): Doc
    decreases |ps|
  {
    if ps == [] then d else Perms(ps[1..], ApplyPerm(ps[0], d))
  }

  datatype Holder = User(name: string) | Group(name: string)

  function Names(p: Perm): Holder {
    match p
    case PutUser(user, _) => User(user)
    case DeleteUser(user) => User(user)
    case PutGroup(group, _) => Group(group)
    case DeleteGroup(group) => Group(group)
  }

  /** The letters a command leaves its holder with. */
  function Letters(p: Perm): string {
    match p
    case PutUser(_, rights) => rights
    case PutGroup(_, rights) => rights
    case _ => ""
  }

  /** The letters of the last command naming the holder. */
  function LastLetters(ps: seq<Perm>, h: Holder): Option<string> {
    if ps == [] then None
    else
      match LastLetters(ps[1..], h)
      case Some(letters) => Some(letters)
      case None => if Names(ps[0]) == h then Some(Letters(ps[0])) else None
  }

  predicate HasRight(d: Doc, h: Holder, l: Letter) {
    match h
    case User(name) => d.users.Holds(name, l)
    case Group(name) => d.groups.Holds(name, l)
  }

  /** The right a last-writer-wins register per holder would give. */
  predicate Expected(ps: seq<Perm>, d: Doc, h: Holder, l: Letter) {
    match LastLetters(ps, h)
    case Some(letters) => CharOf(l) in letters
    case None => HasRight(d, h, l)
  }

  /** One command sets its holder's letters and leaves every other holder alone, except that a
      group's x reaches the other groups' execute rights. */
  lemma StepHolders(p: Perm, d: Doc, h: Holder, l: Letter)
    requires h.Group? ==> l != Execute
    ensures HasRight(ApplyPerm(p, d), h, l) <==>
            if Names(p) == h then CharOf(l) in Letters(p) else HasRight(d, h, l)
  {
    match p
    case PutUser(user, rights) => if h.User? { AddUserHolders(Without(d.users, user), user, rights, h.name, l); }
    case PutGroup(group, rights) => if h.Group? { AddGroupHolders(Without(d.groups, group), group, rights, h.name, l); }
    case _ =>
  }

  /** After any history, each user holds exactly the letters of the last command naming it, or
      what it held before; the same for groups and the letters a, r and w. */
  lemma {:induction false} LastCommandWins(ps: seq<Perm>, d: Doc, h: Holder, l: Letter)
    requires h.Group? ==> l != Execute
    ensures HasRight(Perms(ps, d), h, l) <==> Expected(ps, d, h, l)
    decreases |ps|
  {
    if ps != [] {
      StepHolders(ps[0], d, h, l);
      LastCommandWins(ps[1..], ApplyPerm(ps[0], d), h, l);
    }
  }

  /** So only the last command per holder matters, not the order in between: for users and all
      letters, for groups and the letters a, r and w. */
  lemma OnlyLastCommandsMatter(ps: seq<Perm>, qs: seq<Perm>, d: Doc)
    ensures (forall name :: LastLetters(ps, User(name)) == LastLetters(qs, User(name))) ==>
            Perms(ps, d).users.SameHolders(Perms(qs, d).users)
    ensures forall h, l | LastLetters(ps, h) == LastLetters(qs, h) && (h.Group? ==> l != Execute) ::
            HasRight(Perms(ps, d), h, l) <==> HasRight(Perms(qs, d), h, l)
  {
    forall h, l | LastLetters(ps, h) == LastLetters(qs, h) && (h.Group? ==> l != Execute)
      ensures HasRight(Perms(ps, d), h, l) <==> HasRight(Perms(qs, d), h, l)
    {
      LastCommandWins(ps, d, h, l);
      LastCommandWins(qs, d, h, l);
    }
    if forall name :: LastLetters(ps, User(name)) == LastLetters(qs, User(name)) {
      forall name, l ensures Perms(ps, d).users.Holds(name, l) <==> Perms(qs, d).users.Holds(name, l) {
        assert HasRight(Perms(ps, d), User(name), l) <==> HasRight(Perms(qs, d), User(name), l);
      }
    }
  }

  /** Commands naming users leave the group lists exactly as they were, and no command touches
      anything but the lists. */
  lemma {:induction false} UserHistoryFrame(ps: seq<Perm>, d: Doc)
    ensures Perms(ps, d) == d.(users := Perms(ps, d).users, groups := Perms(ps, d).groups)
    ensures (forall i | 0 <= i < |ps| :: Names(ps[i]).User?) ==> Perms(ps, d).groups == d.groups
    ensures (forall i | 0 <= i < |ps| :: Names(ps[i]).Group?) ==> Perms(ps, d).users == d.users
    decreases |ps|
  {
    if ps != [] {
      UserHistoryFrame(ps[1..], ApplyPerm(ps[0], d));
    }
  }

  // ----- the execute right of groups, as coded -----

  /** Setting a group's rights as it should be: that group's letters, nobody else's. */
  predicate SetAsAsked(d: Doc, d': Doc, g: string, rights: string, h: string, l: Letter) {
    HasRight(d', Group(h), l) <==> if h == g then CharOf(l) in rights else HasRight(d, Group(h), l)
  }

  predicate AdminMeansExecute(d: Doc, h: string) {
    HasRight(d, Group(h), Admin) <==> HasRight(d, Group(h), Execute)
  }

  /** Setting a group's rights treats every holder as it should exactly when the string has no x,
      or the other groups' admin and execute rights coincide beforehand. */
  lemma GroupExecuteExactly(d: Doc, g: string, rights: string)
    ensures (forall h, l :: SetAsAsked(d, ApplyPerm(PutGroup(g, rights), d), g, rights, h, l))
       <==> ('x' !in rights || forall h | h != g :: AdminMeansExecute(d, h))
  {
    var d' := ApplyPerm(PutGroup(g, rights), d);
    forall h, l ensures SetAsAsked(d, d', g, rights, h, l) <==>
                        (l == Execute && 'x' in rights && h != g ==> AdminMeansExecute(d, h))
    {
      if l == Execute {
        AddGroupExecute(Without(d.groups, g), g, rights, h);
      } else {
        StepHolders(PutGroup(g, rights), d, Group(h), l);
      }
    }
    if 'x' in rights && exists h :: h != g && !AdminMeansExecute(d, h) {
      var h :| h != g && !AdminMeansExecute(d, h);
      assert !SetAsAsked(d, d', g, rights, h, Execute);
    }
  }

  /** A group granted x loses it when another group is granted x afterwards. */
  lemma GroupExecuteLost(d: Doc)
    requires d.groups == NOBODY
    ensures var ps := [PutGroup("ops", "x"), PutGroup("dev", "x")];
            && Expected(ps, d, Group("ops"), Execute)
            && !HasRight(Perms(ps, d), Group("ops"), Execute)
  {
    var ps := [PutGroup("ops", "x"), PutGroup("dev", "x")];
    assert ps[1..] == [PutGroup("dev", "x")];
    assert ps[1..][1..] == [];
    assert LastLetters([PutGroup("dev", "x")], Group("ops")) == None;
    var d1 := ApplyPerm(ps[0], d);
    AddGroupHolders(Without(d.groups, "ops"), "ops", "x", "ops", Admin);
    AddGroupExecute(Without(d1.groups, "dev"), "dev", "x", "ops");
    assert Perms(ps, d) == ApplyPerm(ps[1], d1);
  }

  // ----- group execute rights over histories -----

  predicate GrantsExecute(p: Perm) {
    p.PutGroup? && 'x' in p.rights
  }

  /** The position of the last command that grants a group x. */
  ghost function LastGrant(ps: seq<Perm>): (at: Option<nat>)
    ensures at.None? <==> forall i | 0 <= i < |ps| :: !GrantsExecute(ps[i])
    ensures at.Some? ==> at.value < |ps| && GrantsExecute(ps[at.value])
    ensures at.Some? ==> forall i | at.value < i < |ps| :: !GrantsExecute(ps[i])
  {
    if ps == [] then None
    else if GrantsExecute(ps[|ps| - 1]) then Some(|ps| - 1)
    else LastGrant(ps[..|ps| - 1])
  }

  lemma {:induction false} PermsJoined(ps: seq<Perm>, qs: seq<Perm>, d: Doc)
    ensures Perms(ps + qs, d) == Perms(qs, Perms(ps, d))
    decreases |ps|
  {
    if ps == [] {
      assert ps + qs == qs;
    } else {
      assert (ps + qs)[1..] == ps[1..] + qs;
      PermsJoined(ps[1..], qs, ApplyPerm(ps[0], d));
    }
  }

  lemma {:induction false} LastLettersJoined(ps: seq<Perm>, qs: seq<Perm>, h: Holder)
    ensures LastLetters(ps + qs, h) == if LastLetters(qs, h).Some? then LastLetters(qs, h) else LastLetters(ps, h)
  {
    if ps == [] {
      assert ps + qs == qs;
    } else {
      assert (ps + qs)[1..] == ps[1..] + qs;
      LastLettersJoined(ps[1..], qs, h);
    }
  }

  /** Commands that grant no x take it from the groups they name and from no others. */
  lemma {:induction false} WithoutGrants(ps: seq<Perm>, d: Doc, g: string)
    requires forall i | 0 <= i < |ps| :: !GrantsExecute(ps[i])
    ensures HasRight(Perms(ps, d), Group(g), Execute) <==>
            LastLetters(ps, Group(g)).None? && HasRight(d, Group(g), Execute)
    ensures LastLetters(ps, Group(g)).Some? ==> 'x' !in LastLetters(ps, Group(g)).value
    decreases |ps|
  {
    if ps != [] {
      var p, rest := ps[0], ps[1..];
      assert forall i | 0 <= i < |rest| :: rest[i] == ps[i + 1];
      WithoutGrants(rest, ApplyPerm(p, d), g);
      assert !GrantsExecute(p);
      if p.PutGroup? { AddGroupExecute(Without(d.groups, p.group), p.group, p.rights, g); }
    }
  }

  /** Who holds execute after any history: with no grant of x whoever held it and was not named since;
      otherwise, of those not named after the last grant, its own group and the groups that had admin
      before it. */
  lemma GroupExecuteAfterHistory(ps: seq<Perm>, d: Doc, g: string)
    ensures HasRight(Perms(ps, d), Group(g), Execute) <==>
      match LastGrant(ps)
      case None => LastLetters(ps, Group(g)).None? && HasRight(d, Group(g), Execute)
      case Some(i) =>
        LastLetters(ps[i + 1..], Group(g)).None? && (g == ps[i].group || Expected(ps[..i], d, Group(g), Admin))
  {
    match LastGrant(ps)
    case None => WithoutGrants(ps, d, g);
    case Some(i) =>
      var before, p, after := ps[..i], ps[i], ps[i + 1..];
      forall j | 0 <= j < |after| ensures !GrantsExecute(after[j]) { assert after[j] == ps[i + 1 + j]; }
      AroundGrant(before, p, after, d, g);
      assert ps == before + ([p] + after);
  }

  lemma AroundGrant(before: seq<Perm>, p: Perm, after: seq<Perm>, d: Doc, g: string)
    requires GrantsExecute(p) && forall i | 0 <= i < |after| :: !GrantsExecute(after[i])
    ensures HasRight(Perms(before + ([p] + after), d), Group(g), Execute) <==>
            LastLetters(after, Group(g)).None? && (g == p.group || Expected(before, d, Group(g), Admin))
  {
    var d0 := Perms(before, d);
    PermsJoined(before, [p] + after, d);
    assert ([p] + after)[1..] == after;
    WithoutGrants(after, ApplyPerm(p, d0), g);
    LastCommandWins(before, d, Group(g), Admin);
    assert HasRight(ApplyPerm(p, d0), Group(g), Execute) <==> g == p.group || HasRight(d0, Group(g), Admin) by {
      AddGroupExecute(Without(d0.groups, p.group), p.group, p.rights, g);
    }
  }

  /** What each group should hold: the same, with the execute right before the last grant in place of
      the admin right. */
  lemma ExpectedExecute(ps: seq<Perm>, d: Doc, g: string)
    ensures Expected(ps, d, Group(g), Execute) <==>
      match LastGrant(ps)
      case None => LastLetters(ps, Group(g)).None? && HasRight(d, Group(g), Execute)
      case Some(i) =>
        LastLetters(ps[i + 1..], Group(g)).None? && (g == ps[i].group || Expected(ps[..i], d, Group(g), Execute))
  {
    match LastGrant(ps)
    case None => WithoutGrants(ps, d, g);
    case Some(i) =>
      var before, after := ps[..i], ps[i + 1..];
      assert ps == before + ([ps[i]] + after);
      WithoutGrants(after, d, g);
      LastLettersJoined(before, [ps[i]] + after, Group(g));
      LastLettersJoined([ps[i]], after, Group(g));
      assert [ps[i]][1..] == [];
  }

  /** Every other group not named after the last grant should then have had admin exactly if it should
      have had execute. */
  ghost predicate GrantsKeepExecute(ps: seq<Perm>, d: Doc) {
    match LastGrant(ps)
    case None => true
    case Some(i) =>
      forall g | g != ps[i].group && LastLetters(ps[i + 1..], Group(g)).None? ::
        Expected(ps[..i], d, Group(g), Admin) <==> Expected(ps[..i], d, Group(g), Execute)
  }

  /** After a history every group's execute right follows its last command exactly when no command
      grants a group x, or at the last such command admin and execute coincide as above. */
  lemma GroupExecuteHistoryExactly(ps: seq<Perm>, d: Doc)
    ensures (forall g :: HasRight(Perms(ps, d), Group(g), Execute) <==> Expected(ps, d, Group(g), Execute))
       <==> GrantsKeepExecute(ps, d)
  {
    forall g
      ensures (HasRight(Perms(ps, d), Group(g), Execute) <==> Expected(ps, d, Group(g), Execute)) <==>
        match LastGrant(ps)
        case None => true
        case Some(i) => g != ps[i].group && LastLetters(ps[i + 1..], Group(g)).None? ==>
          (Expected(ps[..i], d, Group(g), Admin) <==> Expected(ps[..i], d, Group(g), Execute))
    {
      GroupExecuteAfterHistory(ps, d, g);
      ExpectedExecute(ps, d, g);
    }
  }

  // ----- the order of the configured groups -----

  function Having(initial: map<string, string>, c: char): set<string> {
    set g | g in initial && c in initial[g]
  }

  /** The groups given an a, in order. */
  function AdminsOf(gs: seq<Given>): (admins: seq<string>)
    ensures forall n :: n in admins <==> Given(n, 'a') in gs
  {
    if gs == [] then []
    else if gs[0].letter == 'a' then [gs[0].group] + AdminsOf(gs[1..])
    else AdminsOf(gs[1..])
  }

  /** The room behind n admin groups that were appended one by one. */
  function RoomBehind(n: nat, rooms: seq<nat>): nat {
    if n == 0 then 0
    else if RoomBehind(n - 1, rooms) == 0 then RoomAfter(rooms, n - 1)
    else RoomBehind(n - 1, rooms) - 1
  }

  /** The position of the last x. */
  ghost function LastExecute(gs: seq<Given>): (p: Option<nat>)
    ensures p.None? <==> forall i | 0 <= i < |gs| :: gs[i].letter != 'x'
    ensures p.Some? ==> p.value < |gs| && gs[p.value].letter == 'x'
    ensures p.Some? ==> forall i | p.value < i < |gs| :: gs[i].letter != 'x'
  {
    if gs == [] then None
    else
      match LastExecute(gs[1..])
      case Some(p) => assert gs[1..][p] == gs[p + 1]; Some(p + 1)
      case None => assert forall i | 0 < i < |gs| :: gs[i] == gs[1..][i - 1];
                   if gs[0].letter == 'x' then Some(0) else None
  }

  /** The element that the last x leaves at the end of the execute list: its own group, or the group of
      the next a, which writes over it when there was room behind the admin groups. */
  ghost function LastElement(gs: seq<Given>, p: nat, rooms: seq<nat>): string
    requires p < |gs|
  {
    var next := AdminsOf(gs[p + 1..]);
    if next != [] && RoomBehind(|AdminsOf(gs[..p])|, rooms) > 0 then next[0] else gs[p].group
  }

  lemma {:induction false} AdminsAfter(g: GroupSlices, gs: seq<Given>, rooms: seq<nat>)
    requires g.room == RoomBehind(|g.lists.admin|, rooms)
    ensures var after := AppendAll(g, gs, rooms);
      after.lists.admin == g.lists.admin + AdminsOf(gs) && after.room == RoomBehind(|after.lists.admin|, rooms)
    decreases |gs|
  {
    if gs != [] {
      AdminsAfter(AppendLetter(g, gs[0], rooms), gs[1..], rooms);
    }
  }

  /** A stretch without x touches the execute list only through its first a. */
  lemma {:induction false} WithoutExecute(g: GroupSlices, gs: seq<Given>, rooms: seq<nat>)
    requires forall i | 0 <= i < |gs| :: gs[i].letter != 'x'
    requires |g.lists.execute| <= |g.lists.admin| + 1
    ensures AppendAll(g, gs, rooms).lists.execute ==
      var ls, admins := g.lists, AdminsOf(gs);
      if admins != [] && g.room > 0 && g.sameArray && |ls.admin| < |ls.execute|
      then ls.execute[|ls.admin| := admins[0]] else ls.execute
    decreases |gs|
  {
    if gs != [] {
      WithoutExecute(AppendLetter(g, gs[0], rooms), gs[1..], rooms);
    }
  }

  /** The execute list around an x that is the last one. */
  lemma AroundExecute(before: seq<Given>, h: string, after: seq<Given>, rooms: seq<nat>)
    requires forall i | 0 <= i < |after| :: after[i].letter != 'x'
    ensures AppendAll(NO_SLICES, before + [Given(h, 'x')] + after, rooms).lists.execute ==
      var next := AdminsOf(after);
      AdminsOf(before) + [if next != [] && RoomBehind(|AdminsOf(before)|, rooms) > 0 then next[0] else h]
  {
    var g := AppendAll(NO_SLICES, before, rooms);
    AdminsAfter(NO_SLICES, before, rooms);
    AppendJoined(NO_SLICES, before, [Given(h, 'x')], rooms);
    assert AppendAll(g, [Given(h, 'x')], rooms) == AppendLetter(g, Given(h, 'x'), rooms);
    AppendJoined(NO_SLICES, before + [Given(h, 'x')], after, rooms);
    WithoutExecute(AppendLetter(g, Given(h, 'x'), rooms), after, rooms);
  }

  /** The execute list of a new entry: the admin groups before the last x and one more element. */
  lemma ExecuteAfter(gs: seq<Given>, rooms: seq<nat>)
    ensures AppendAll(NO_SLICES, gs, rooms).lists.execute ==
            match LastExecute(gs)
            case None => []
            case Some(p) => AdminsOf(gs[..p]) + [LastElement(gs, p, rooms)]
  {
    match LastExecute(gs)
    case None => WithoutExecute(NO_SLICES, gs, rooms);
    case Some(p) =>
      assert gs == gs[..p] + [Given(gs[p].group, 'x')] + gs[p + 1..];
      AroundExecute(gs[..p], gs[p].group, gs[p + 1..], rooms);
  }

  lemma LastExecuteJoined(a: seq<Given>, b: seq<Given>)
    ensures LastExecute(a + b) == match LastExecute(b) case Some(p) => Some(|a| + p) case None => LastExecute(a)
  {
    assert forall i | 0 <= i < |b| :: (a + b)[|a| + i] == b[i];
    assert forall i | 0 <= i < |a| :: (a + b)[i] == a[i];
  }

  /** The other lists hold who was given their letter, whatever the order and the room. */
  lemma {:induction false} OtherLettersAfter(g: GroupSlices, gs: seq<Given>, rooms: seq<nat>, n: string, l: Letter)
    requires l != Execute
    ensures AppendAll(g, gs, rooms).lists.Holds(n, l) <==> g.lists.Holds(n, l) || Given(n, CharOf(l)) in gs
    decreases |gs|
  {
    if gs != [] {
      OtherLettersAfter(AppendLetter(g, gs[0], rooms), gs[1..], rooms, n, l);
    }
  }

  lemma {:induction false} GivenIn(initial: map<string, string>, order: seq<string>, n: string, c: char)
    requires forall g | g in order :: g in initial
    ensures Given(n, c) in GivenBy(initial, order) <==> n in order && c in initial[n]
    decreases |order|
  {
    if order != [] {
      GivenIn(initial, order[1..], n, c);
      LetterIn(order[0], initial[order[0]], n, c);
    }
  }

  lemma LetterIn(name: string, rights: string, n: string, c: char)
    ensures Given(n, c) in LettersOf(name, rights) <==> n == name && c in rights
  {
    if n == name && c in rights {
      var i :| 0 <= i < |rights| && rights[i] == c;
      assert LettersOf(name, rights)[i] == Given(n, c);
    }
  }

  /** Every group gets its letters in one stretch. */
  lemma {:induction false} OneStretch(initial: map<string, string>, order: seq<string>, i: nat, j: nat, k: nat)
    requires forall g | g in order :: g in initial
    requires forall a, b | 0 <= a < b < |order| :: order[a] != order[b]
    requires i <= j <= k < |GivenBy(initial, order)|
    requires GivenBy(initial, order)[i].group == GivenBy(initial, order)[k].group
    ensures GivenBy(initial, order)[j].group == GivenBy(initial, order)[i].group
    decreases |order|
  {
    var first, rest := LettersOf(order[0], initial[order[0]]), GivenBy(initial, order[1..]);
    var m := |first|;
    if i >= m {
      OneStretch(initial, order[1..], i - m, j - m, k - m);
    } else if k >= m {
      GivenIn(initial, order[1..], rest[k - m].group, rest[k - m].letter);
    }
  }

  /** The holders of a new entry depend neither on the order of the configuration map nor on the room of
      the arrays. */
  ghost predicate OrderFree(initial: map<string, string>) {
    forall r, s | RangesOver(r, initial.Keys) && RangesOver(s, initial.Keys) ::
      AddInitial(initial, r).SameHolders(AddInitial(initial, s))
  }

  /** What a configuration must look like for that: no x at all, or every admin group has x and
      either there is one x group or every x group is an admin group. */
  predicate ExecuteSettled(initial: map<string, string>) {
    var x, a := Having(initial, 'x'), Having(initial, 'a');
    x == {} || (a <= x && (|x| == 1 || x <= a))
  }

  /** Where every admin group has x, the element behind the admin groups is the group of the last x: only
      that group can have written over it. */
  lemma OnlyItself(initial: map<string, string>, r: Ranging, p: nat)
    requires RangesOver(r, initial.Keys) && Having(initial, 'a') <= Having(initial, 'x')
    requires LastExecute(GivenBy(initial, r.order)) == Some(p)
    ensures LastElement(GivenBy(initial, r.order), p, r.rooms) == GivenBy(initial, r.order)[p].group
  {
    var gs := GivenBy(initial, r.order);
    var next := AdminsOf(gs[p + 1..]);
    if next != [] {
      var n := next[0];
      var k := IndexAfter(gs, p + 1, Given(n, 'a'));
      GivenIn(initial, r.order, n, 'a');
      assert n in Having(initial, 'a');
      GivenIn(initial, r.order, n, 'x');
      var i := IndexAfter(gs, 0, Given(n, 'x'));
      OneStretch(initial, r.order, i, p, k);
    }
  }

  lemma IndexAfter(gs: seq<Given>, from: nat, given: Given) returns (i: nat)
    requires from <= |gs| && given in gs[from..]
    ensures from <= i < |gs| && gs[i] == given
  {
    var j :| 0 <= j < |gs| - from && gs[from..][j] == given;
    i := from + j;
  }

  lemma SettledExecute(initial: map<string, string>, r: Ranging, n: string)
    requires ExecuteSettled(initial) && RangesOver(r, initial.Keys)
    ensures AddInitial(initial, r).Holds(n, Execute) <==> n in Having(initial, 'x')
  {
    var gs, x := GivenBy(initial, r.order), Having(initial, 'x');
    ExecuteAfter(gs, r.rooms);
    GivenIn(initial, r.order, n, 'x');
    match LastExecute(gs)
    case None =>
    case Some(p) =>
      var g := gs[p].group;
      GivenIn(initial, r.order, g, 'x');
      assert gs[p] == Given(g, 'x') && g in x;
      OnlyItself(initial, r, p);
      GivenIn(initial, r.order, n, 'a');
      assert n in AdminsOf(gs[..p]) ==> Given(n, 'a') in gs;
      if |x| == 1 {
        assert |x - {g}| == 0;
      } else if n in x && n != g {
        AdminBefore(initial, r, p, n);
      }
  }

  /** A group with an a and an x is among the admin groups before the last x, unless that x is its own. */
  lemma AdminBefore(initial: map<string, string>, r: Ranging, p: nat, n: string)
    requires RangesOver(r, initial.Keys) && n in Having(initial, 'a') && n in Having(initial, 'x')
    requires LastExecute(GivenBy(initial, r.order)) == Some(p) && n != GivenBy(initial, r.order)[p].group
    ensures n in AdminsOf(GivenBy(initial, r.order)[..p])
  {
    var gs := GivenBy(initial, r.order);
    GivenIn(initial, r.order, n, 'x');
    GivenIn(initial, r.order, n, 'a');
    var i := IndexAfter(gs, 0, Given(n, 'x'));
    var k := IndexAfter(gs, 0, Given(n, 'a'));
    if k > p {
      OneStretch(initial, r.order, i, p, k);
    }
    assert gs[..p][k] == Given(n, 'a');
  }

  /** The holders are independent of order and room exactly for settled configurations. */
  lemma DefaultsOrderFreeExactly(initial: map<string, string>)
    ensures OrderFree(initial) <==> ExecuteSettled(initial)
  {
    if ExecuteSettled(initial) {
      forall r, s, n, l | RangesOver(r, initial.Keys) && RangesOver(s, initial.Keys)
        ensures AddInitial(initial, r).Holds(n, l) <==> AddInitial(initial, s).Holds(n, l)
      {
        if l == Execute {
          SettledExecute(initial, r, n);
          SettledExecute(initial, s, n);
        } else {
          OtherLettersDefaults(initial, r, n, l);
          OtherLettersDefaults(initial, s, n, l);
        }
      }
    } else {
      var x, a := Having(initial, 'x'), Having(initial, 'a');
      if !(a <= x) {
        var k, g :| k in a && k !in x && g in x;
        MovedGroup(initial, k, g);
      } else {
        var k :| k in x && k !in a;
        assert |x - {k}| > 0;
        var g :| g in x - {k};
        MovedGroup(initial, k, g);
      }
    }
  }

  lemma OtherLettersDefaults(initial: map<string, string>, r: Ranging, n: string, l: Letter)
    requires l != Execute && RangesOver(r, initial.Keys)
    ensures AddInitial(initial, r).Holds(n, l) <==> n in Having(initial, CharOf(l))
  {
    OtherLettersAfter(NO_SLICES, GivenBy(initial, r.order), r.rooms, n, l);
    GivenIn(initial, r.order, n, CharOf(l));
  }

  lemma EnumeratesEitherEnd(rest: seq<string>, keys: set<string>, k: string)
    requires k in keys && Enumerates(rest, keys - {k})
    ensures Enumerates(rest + [k], keys) && Enumerates([k] + rest, keys)
  {}

  /** An append may leave no room at all. */
  const EXACT_FIT: seq<nat> := []

  lemma {:induction false} NoRoomBehind(n: nat)
    ensures RoomBehind(n, EXACT_FIT) == 0
  {
    if n > 0 {
      NoRoomBehind(n - 1);
    }
  }

  /** Then every x leaves its own group behind the admin groups. */
  lemma ExactFitExecute(initial: map<string, string>, order: seq<string>, n: string)
    requires forall g | g in order :: g in initial
    ensures var gs := GivenBy(initial, order);
      AddInitial(initial, Ranging(order, EXACT_FIT)).Holds(n, Execute) <==>
        match LastExecute(gs)
        case None => false
        case Some(p) => n == gs[p].group || Given(n, 'a') in gs[..p]
  {
    var gs := GivenBy(initial, order);
    ExecuteAfter(gs, EXACT_FIT);
    if LastExecute(gs).Some? {
      NoRoomBehind(|AdminsOf(gs[..LastExecute(gs).value])|);
    }
  }

  /** Coming last, a group holds execute when its own letters say so. */
  lemma ComesLast(initial: map<string, string>, rest: seq<string>, k: string, g: string)
    requires k in initial && k !in rest && forall n | n in rest :: n in initial
    requires g in rest && 'x' in initial[g]
    ensures AddInitial(initial, Ranging(rest + [k], EXACT_FIT)).Holds(k, Execute) <==> 'x' in initial[k]
  {
    var others, own := GivenBy(initial, rest), LettersOf(k, initial[k]);
    ExactFitExecute(initial, rest + [k], k);
    GivenByJoined(initial, rest, [k]);
    GivenByOne(initial, k);
    LastExecuteJoined(others, own);
    LetterIn(k, initial[k], k, 'x');
    if LastExecute(own).None? {
      GivenIn(initial, rest, g, 'x');
      var p := LastExecute(others).value;
      GivenIn(initial, rest, k, 'x');
      GivenIn(initial, rest, k, 'a');
      assert (others + own)[..p] == others[..p] && others[p] in others;
    }
  }

  /** Coming first, it holds execute when it is an admin group. */
  lemma ComesFirst(initial: map<string, string>, rest: seq<string>, k: string, g: string)
    requires k in initial && k !in rest && forall n | n in rest :: n in initial
    requires g in rest && 'x' in initial[g]
    ensures AddInitial(initial, Ranging([k] + rest, EXACT_FIT)).Holds(k, Execute) <==> 'a' in initial[k]
  {
    var own, others := LettersOf(k, initial[k]), GivenBy(initial, rest);
    ExactFitExecute(initial, [k] + rest, k);
    GivenByJoined(initial, [k], rest);
    GivenByOne(initial, k);
    LastExecuteJoined(own, others);
    GivenIn(initial, rest, g, 'x');
    var p := LastExecute(others).value;
    GivenIn(initial, rest, k, 'x');
    GivenIn(initial, rest, k, 'a');
    LetterIn(k, initial[k], k, 'a');
    assert (own + others)[..|own| + p] == own + others[..p] && others[p] in others;
  }

  /** A group with just one of a and x makes the outcome depend on where it comes. */
  lemma MovedGroup(initial: map<string, string>, k: string, g: string)
    requires g in Having(initial, 'x') && k in initial && k != g
    requires (k in Having(initial, 'a')) != (k in Having(initial, 'x'))
    ensures !OrderFree(initial)
  {
    var rest := AnOrder(initial.Keys - {k});
    EnumeratesEitherEnd(rest, initial.Keys, k);
    assert g in rest;
    ComesLast(initial, rest, k, g);
    ComesFirst(initial, rest, k, g);
    HoldersDiffer(initial, Ranging(rest + [k], EXACT_FIT), Ranging([k] + rest, EXACT_FIT), k);
  }

  lemma HoldersDiffer(initial: map<string, string>, r: Ranging, s: Ranging, n: string)
    requires RangesOver(r, initial.Keys) && RangesOver(s, initial.Keys)
    requires AddInitial(initial, r).Holds(n, Execute) != AddInitial(initial, s).Holds(n, Execute)
    ensures !OrderFree(initial)
  {
    assert !AddInitial(initial, r).SameHolders(AddInitial(initial, s)) by {
      assert AddInitial(initial, r).Holds(n, Execute) != AddInitial(initial, s).Holds(n, Execute);
    }
  }

  /** The repository's own default for most kinds is not settled: ranging over it from "user"
      to "admin" leaves the user group without execute. */
  lemma ShippedDefaultDependsOnOrder()
    ensures !OrderFree(map["admin" := "rwxa", "user" := "rx"])
  {
    var initial := map["admin" := "rwxa", "user" := "rx"];
    assert "rwxa"[2] == 'x' && "rx"[1] == 'x';
    MovedGroup(initial, "user", "admin");
  }

  // ----- what the shared array does -----

  /** Arrays of one, two, four and eight elements. */
  const DOUBLING: seq<nat> := [0, 0, 1, 0, 3]

  lemma {:induction false} AdminsJoined(a: seq<Given>, b: seq<Given>)
    ensures AdminsOf(a + b) == AdminsOf(a) + AdminsOf(b)
  {
    if a == [] {
      assert a + b == b;
    } else {
      assert (a + b)[1..] == a[1..] + b;
      AdminsJoined(a[1..], b);
    }
  }

  /** The first three of four groups in a row are admin groups. */
  lemma ThreeAdmins(initial: map<string, string>, a: string, b: string, c: string, d: string)
    requires {a, b, c, d} <= initial.Keys
    requires forall g | g in {a, b, c} :: initial[g] == "a" || initial[g] == "ax"
    ensures var three := LettersOf(a, initial[a]) + LettersOf(b, initial[b]) + LettersOf(c, initial[c]);
      GivenBy(initial, [a, b, c, d]) == three + LettersOf(d, initial[d]) && AdminsOf(three) == [a, b, c]
  {
    assert [a, b, c, d] == [a] + [b] + [c] + [d];
    GivenByJoined(initial, [a] + [b] + [c], [d]);
    GivenByJoined(initial, [a] + [b], [c]);
    GivenByJoined(initial, [a], [b]);
    forall g | g in {a, b, c, d} ensures GivenBy(initial, [g]) == LettersOf(g, initial[g]) { GivenByOne(initial, g); }
    AdminsJoined(LettersOf(a, initial[a]) + LettersOf(b, initial[b]), LettersOf(c, initial[c]));
    AdminsJoined(LettersOf(a, initial[a]), LettersOf(b, initial[b]));
    forall g | g in {a, b, c} ensures AdminsOf(LettersOf(g, initial[g])) == [g] { OneAdmin(g, initial[g]); }
  }

  lemma OneAdmin(name: string, rights: string)
    requires rights == "a" || rights == "ax"
    ensures AdminsOf(LettersOf(name, rights)) == [name]
  {
    var gs := LettersOf(name, rights);
    assert gs[0] == Given(name, 'a');
    assert AdminsOf(gs[1..]) == [] by {
      assert rights == "ax" ==> gs[1..] == [Given(name, 'x')] && gs[1..][1..] == [];
    }
  }

  lemma DoublingRoom()
    ensures RoomBehind(3, DOUBLING) == 1
  {
    assert RoomBehind(1, DOUBLING) == 0;
  }

  /** Three admin groups, a group with x and a fourth admin group, in this order: the fourth takes the
      place of the group that was given execute, which has lost its x while the fourth has gained one. */
  lemma ExecuteOverwritten(initial: map<string, string>, a: string, b: string, c: string, h: string, d: string)
    requires {a, b, c, h, d} <= initial.Keys
    requires initial[a] == initial[b] == initial[c] == initial[d] == "a" && initial[h] == "x"
    ensures AddInitial(initial, Ranging([a, b, c, h, d], DOUBLING)).execute == [a, b, c, d]
  {
    ThreeAdmins(initial, a, b, c, h);
    assert [a, b, c, h, d] == [a, b, c, h] + [d];
    GivenByJoined(initial, [a, b, c, h], [d]);
    GivenByOne(initial, d);
    OneAdmin(d, "a");
    DoublingRoom();
    assert LettersOf(h, "x") == [Given(h, 'x')];
    AroundExecute(LettersOf(a, "a") + LettersOf(b, "a") + LettersOf(c, "a"), h, LettersOf(d, "a"), DOUBLING);
  }

  const LATE_ADMIN := map["g1" := "a", "g2" := "a", "g3" := "a", "h" := "x", "g4" := "a"]

  lemma LateAdminOverwrites()
    ensures AddInitial(LATE_ADMIN, Ranging(["g1", "g2", "g3", "h", "g4"], DOUBLING)).execute == ["g1", "g2", "g3", "g4"]
  {
    ExecuteOverwritten(LATE_ADMIN, "g1", "g2", "g3", "h", "g4");
  }

  /** With such arrays, the order need not be seen although the configuration is not settled: coming
      last, an admin group without x gets execute by writing over the last of three groups with both. */
  lemma DoublingHidesOrder(initial: map<string, string>, g: string, order: seq<string>, n: string)
    requires |initial| == 4 && g in initial && initial[g] == "a"
    requires forall h | h in initial && h != g :: initial[h] == "ax"
    requires Enumerates(order, initial.Keys)
    ensures AddInitial(initial, Ranging(order, DOUBLING)).Holds(n, Execute) <==> n in initial
  {
    var a, b, c, d := FourInOrder(order, initial.Keys);
    if d == g { ThirdOverwritten(initial, a, b, c, d); } else { LastHasExecute(initial, a, b, c, d); }
  }

  /** With other arrays it is seen. */
  lemma HiddenOrderSeen(initial: map<string, string>, g: string, h: string)
    requires g in initial && initial[g] == "a" && h in initial && initial[h] == "ax"
    ensures !OrderFree(initial)
  {
    assert initial[h][1] == 'x' && initial[g][0] == 'a';
    MovedGroup(initial, g, h);
  }

  lemma FourInOrder(order: seq<string>, keys: set<string>) returns (a: string, b: string, c: string, d: string)
    requires Enumerates(order, keys) && |keys| == 4
    ensures order == [a, b, c, d] && keys == {a, b, c, d}
    ensures a != d && b != d && c != d
  {
    OrderLength(order, keys);
    a, b, c, d := order[0], order[1], order[2], order[3];
    assert order == [a, b, c, d];
  }

  lemma LastHasExecute(initial: map<string, string>, a: string, b: string, c: string, d: string)
    requires {a, b, c, d} <= initial.Keys && initial[d] == "ax"
    requires forall g | g in {a, b, c} :: initial[g] == "a" || initial[g] == "ax"
    ensures AddInitial(initial, Ranging([a, b, c, d], DOUBLING)).execute == [a, b, c, d, d]
  {
    ThreeAdmins(initial, a, b, c, d);
    var three := LettersOf(a, initial[a]) + LettersOf(b, initial[b]) + LettersOf(c, initial[c]);
    LastAdminHasExecute(three, d, DOUBLING);
  }

  lemma LastAdminHasExecute(before: seq<Given>, d: string, rooms: seq<nat>)
    ensures AppendAll(NO_SLICES, before + LettersOf(d, "ax"), rooms).lists.execute == AdminsOf(before) + [d, d]
  {
    OneAdmin(d, "a");
    AdminsJoined(before, LettersOf(d, "a"));
    assert before + LettersOf(d, "ax") == before + LettersOf(d, "a") + [Given(d, 'x')] + [];
    AroundExecute(before + LettersOf(d, "a"), d, [], rooms);
  }

  lemma ThirdOverwritten(initial: map<string, string>, a: string, b: string, c: string, d: string)
    requires {a, b, c, d} <= initial.Keys && initial[a] == initial[b] == initial[c] == "ax" && initial[d] == "a"
    ensures AddInitial(initial, Ranging([a, b, c, d], DOUBLING)).execute == [a, b, c, d]
  {
    ThreeAdmins(initial, a, b, c, d);
    DoublingRoom();
    AdminsJoined(LettersOf(a, "ax"), LettersOf(b, "ax"));
    OneAdmin(a, "ax");
    OneAdmin(b, "ax");
    NextAdminOverwrites(LettersOf(a, "ax") + LettersOf(b, "ax"), c, d, DOUBLING);
  }

  lemma NextAdminOverwrites(before: seq<Given>, c: string, d: string, rooms: seq<nat>)
    requires RoomBehind(|AdminsOf(before)| + 1, rooms) > 0
    ensures AppendAll(NO_SLICES, before + LettersOf(c, "ax") + LettersOf(d, "a"), rooms).lists.execute ==
            AdminsOf(before) + [c, d]
  {
    OneAdmin(c, "a");
    OneAdmin(d, "a");
    AdminsJoined(before, LettersOf(c, "a"));
    assert before + LettersOf(c, "ax") == before + LettersOf(c, "a") + [Given(c, 'x')];
    AroundExecute(before + LettersOf(c, "a"), c, LettersOf(d, "a"), rooms);
  }

  lemma {:induction false} OrderLength(order: seq<string>, keys: set<string>)
    requires Enumerates(order, keys)
    ensures |order| == |keys|
    decreases |order|
  {
    if order == [] {
      assert keys == {};
    } else {
      assert forall k :: k in order[1..] <==> k in keys - {order[0]};
      OrderLength(order[1..], keys - {order[0]});
    }
  }
}
