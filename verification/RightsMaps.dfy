/** Rights maps against permission lists: what is read out of an entry and what is set on one undo
    each other (lib/model/model.go, lib/query/migration.go), and what the guard against removing
    one's own admin right admits (lib/api/rightsproducer.go). */
module RightsMaps {
  import opened Model
  import opened Commands
  import opened RightsQuery

  /** A rights map without the holders it grants nothing. */
  function Granting(m: map<string, Right>): map<string, Right> {
    map n | n in m && m[n] != NO_RIGHT :: m[n]
  }

  ghost predicate NoRepeats(ls: Lists) {
    forall l, i, j | 0 <= i < j < |ls.Of(l)| :: ls.Of(l)[i] != ls.Of(l)[j]
  }

  /** Reading the rights back out of a freshly set entry gives the map that was set, less its empty
      holders, whatever order the map was ranged over. */
  lemma ExtractUndoesSet(m: map<string, Right>, order: seq<string>)
    requires Enumerates(order, m.Keys)
    ensures Extract(AddRights(NOBODY, m, order)) == Granting(m)
  {
    var ls := AddRights(NOBODY, m, order);
    forall n, l ensures ls.Holds(n, l) <==> n in m && m[n].Has(l) {
      AddRightsHolders(NOBODY, m, order, n, l);
    }
    forall n ensures n in Extract(ls) <==> n in Granting(m) {
      assert n in Extract(ls) <==> ls.Holds(n, Admin) || ls.Holds(n, Read) || ls.Holds(n, Write) || ls.Holds(n, Execute);
    }
    forall n | n in Extract(ls) ensures Extract(ls)[n] == Granting(m)[n] {
      assert ls.Holds(n, Admin) == m[n].administrate && ls.Holds(n, Read) == m[n].read;
      assert ls.Holds(n, Write) == m[n].write && ls.Holds(n, Execute) == m[n].execute;
    }
  }

  /** Setting the rights read out of some lists gives lists with the same holders and no repeats. */
  lemma SetUndoesExtract(ls: Lists, order: seq<string>)
    requires Enumerates(order, Extract(ls).Keys)
    ensures AddRights(NOBODY, Extract(ls), order).SameHolders(ls)
    ensures NoRepeats(AddRights(NOBODY, Extract(ls), order))
  {
    forall n, l ensures AddRights(NOBODY, Extract(ls), order).Holds(n, l) <==> ls.Holds(n, l) {
      AddRightsHolders(NOBODY, Extract(ls), order, n, l);
      ExtractedHas(ls, n, l);
    }
    AddRightsNoRepeats(NOBODY, Extract(ls), order);
  }

  lemma ExtractedHas(ls: Lists, n: string, l: Letter)
    ensures (n in Extract(ls) && Extract(ls)[n].Has(l)) <==> ls.Holds(n, l)
  {
    assert n in Extract(ls) <==> ls.Holds(n, Admin) || ls.Holds(n, Read) || ls.Holds(n, Write) || ls.Holds(n, Execute);
  }

  lemma {:induction false} AddRightsNoRepeats(ls: Lists, m: map<string, Right>, order: seq<string>)
    requires forall n | n in order :: n in m
    requires NoRepeats(ls) && forall i, j | 0 <= i < j < |order| :: order[i] != order[j]
    requires forall n, l | n in order :: !ls.Holds(n, l)
    ensures NoRepeats(AddRights(ls, m, order))
    decreases |order|
  {
    if order != [] {
      var n := order[0];
      var added := AddRight(ls, n, m[n]);
      forall l ensures added.Of(l) == ls.Of(l) || added.Of(l) == ls.Of(l) + [n] {}
      forall k, l | k in order[1..] ensures !added.Holds(k, l) {
        assert k in order && !ls.Holds(k, l);
      }
      forall l, i, j | 0 <= i < j < |added.Of(l)| ensures added.Of(l)[i] != added.Of(l)[j] {
        assert !ls.Holds(n, l);
      }
      AddRightsNoRepeats(added, m, order[1..]);
    }
  }

  // ----- export and import -----

  /** ImportResource: the document it writes for one exported resource. */
  method ImportResource(r: ResourceRights) returns (d: Doc)
    ensures IsImported(r, d)
  {
    var entry := new Entry.Blank(r.resourceId, r.features, r.creator);
    ghost var users, groups := entry.SetResourceRights(r.rights);
    d := entry.Value();
    assert d == Imported(r, users, groups);
  }

  /** The rights set in some order of the maps, and id, features and creator as exported. */
  ghost predicate IsImported(r: ResourceRights, d: Doc) {
    exists users, groups ::
      && Enumerates(users, r.rights.users.Keys) && Enumerates(groups, r.rights.groups.Keys)
      && d == Imported(r, users, groups)
  }

  ghost function Imported(r: ResourceRights, users: seq<string>, groups: seq<string>): Doc
    requires Enumerates(users, r.rights.users.Keys) && Enumerates(groups, r.rights.groups.Keys)
  {
    Doc(r.resourceId, r.features, map[], AddRights(NOBODY, r.rights.users, users),
        AddRights(NOBODY, r.rights.groups, groups), r.creator)
  }

  /** The same resource id, features, creator and holders of every right. */
  ghost predicate SameResource(d: Doc, e: Doc) {
    && d.resource == e.resource && d.features == e.features && d.creator == e.creator
    && d.users.SameHolders(e.users) && d.groups.SameHolders(e.groups)
  }

  /** Exporting and importing again keeps the resource; its annotations are not exported. */
  lemma ImportUndoesExport(d: Doc, users: seq<string>, groups: seq<string>)
    requires Enumerates(users, Extract(d.users).Keys) && Enumerates(groups, Extract(d.groups).Keys)
    ensures SameResource(Imported(ToRights(d), users, groups), d)
    ensures Imported(ToRights(d), users, groups).annotations == map[]
  {
    SetUndoesExtract(d.users, users);
    SetUndoesExtract(d.groups, groups);
  }

  // ----- the guard on giving up admin rights -----

  /** invalidAdminRemoval: true when it finds no objection. */
  method AdmitsRemoval(rights: Rights, user: string, roles: seq<string>) returns (admitted: bool)
    ensures admitted <==> KeepsAdmin(rights, user, roles)
  {
    if user in rights.users && rights.users[user].administrate {
      return true;
    }
    var adminByGroup := false;
    var todo := rights.groups.Keys;
    while todo != {} && !adminByGroup
      invariant todo <= rights.groups.Keys
      invariant adminByGroup ==> exists g | g in rights.groups :: rights.groups[g].administrate && g in roles
      invariant !adminByGroup ==>
                  forall g | g in rights.groups && g !in todo :: !(rights.groups[g].administrate && g in roles)
      decreases |todo|
    {
      var group :| group in todo;
      if rights.groups[group].administrate && group in roles {
        adminByGroup := true;
      }
      todo := todo - {group};
    }
    if !adminByGroup {
      return false;
    }
    todo := rights.users.Keys;
    while todo != {}
      invariant todo <= rights.users.Keys
      invariant forall u | u in rights.users && u !in todo :: !rights.users[u].administrate
    {
      var other :| other in todo;
      if rights.users[other].administrate {
        return true;
      }
      todo := todo - {other};
    }
    return false;
  }

  predicate KeepsAdmin(rights: Rights, user: string, roles: seq<string>) {
    && (exists u | u in rights.users :: rights.users[u].administrate)
    && ((user in rights.users && rights.users[user].administrate) ||
        exists g | g in rights.groups :: rights.groups[g].administrate && g in roles)
  }

  /** The guard admits a change exactly when, once it is applied to any entry, there is an admin user
      left and the requester still passes the admin check, by user id or by role. */
  lemma AdmittedExactlyWhenAdminStays(d: Doc, rights: Rights, owner: string, o: Orders, user: string, roles: seq<string>)
    requires Enumerates(o.users, rights.users.Keys) && Enumerates(o.groups, rights.groups.Keys)
    ensures var after := Righted(d, rights, owner, o);
            KeepsAdmin(rights, user, roles) <==> after.users.admin != [] && Allowed(after, user, roles, "a")
  {
    var after := Righted(d, rights, owner, o);
    forall n ensures after.users.Holds(n, Admin) <==> n in rights.users && rights.users[n].administrate
             ensures after.groups.Holds(n, Admin) <==> n in rights.groups && rights.groups[n].administrate {
      AddRightsHolders(NOBODY, rights.users, o.users, n, Admin);
      AddRightsHolders(NOBODY, rights.groups, o.groups, n, Admin);
    }
    assert Allowed(after, user, roles, "a") <==> Grants(after, user, roles, Admin) by {
      assert 'a' in Asked("a") && forall c | c in Asked("a") :: c == 'a';
    }
    if after.users.admin != [] {
      var u := after.users.admin[0];
      assert after.users.Holds(u, Admin);
    }
    if u :| u in rights.users && rights.users[u].administrate {
      assert after.users.Holds(u, Admin);
    }
    if g :| g in rights.groups && rights.groups[g].administrate && g in roles {
      assert after.groups.Holds(g, Admin);
    }
  }
}
