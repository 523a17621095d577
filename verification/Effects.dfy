/** What each command of the worker changes and what it leaves alone, field by field and list by list
    (lib/worker/command.go, lib/worker/event.go). */
module Effects {
  import opened GoStrings
  import opened Model
  import opened Commands
  import opened PermissionHistory

  /** No document but this one is touched. */
  ghost predicate OthersUntouched(docs: Docs, after: Docs, key: Key) {
    after.Keys + {key} == docs.Keys + {key} && forall k | k in docs && k != key :: after[k] == docs[k]
  }

  lemma OnlyItsDocument(docs: Docs, key: Key, c: Command, o: Orders, config: Config)
    requires ValidOrders(o, key, c, config)
    ensures OthersUntouched(docs, Apply(docs, key, c, o, config), key)
  {}

  /** Whether the command leaves the document there. */
  lemma Existence(docs: Docs, key: Key, c: Command, o: Orders, config: Config)
    requires ValidOrders(o, key, c, config)
    ensures key in Apply(docs, key, c, o, config) <==> c.Put? || (key in docs && !c.Delete?)
  {}

  // ----- PUT -----

  /** A new document has the id, the features and the owner of its PUT; the owner holds every right, and
      the configured groups hold what they are configured with: for execute, see ExecuteAfter. */
  lemma PutCreates(docs: Docs, key: Key, features: Fields, owner: string, o: Orders, config: Config)
    requires key !in docs && ValidOrders(o, key, Put(features, owner), config)
    ensures var after := Apply(docs, key, Put(features, owner), o, config);
      && key in after
      && var d := after[key];
         && d.resource == key.id && d.features == features && d.annotations == map[] && d.creator == owner
         && (forall n :: n in d.users.admin <==> n == owner != "")
         && (forall n :: n in d.users.read <==> n == owner != "")
         && (forall n :: n in d.users.write <==> n == owner != "")
         && (forall n :: n in d.users.execute <==> n == owner != "")
    ensures var initial := if key.kind in config then config[key.kind] else map[];
      var d := Apply(docs, key, Put(features, owner), o, config)[key];
      forall n :: (n in d.groups.admin <==> n in initial && 'a' in initial[n]) &&
                  (n in d.groups.read <==> n in initial && 'r' in initial[n]) &&
                  (n in d.groups.write <==> n in initial && 'w' in initial[n])
  {
    var initial := InitialGroups(config, key.kind);
    forall n
      ensures n in AddInitial(initial, o.initial).admin <==> n in initial && 'a' in initial[n]
      ensures n in AddInitial(initial, o.initial).read <==> n in initial && 'r' in initial[n]
      ensures n in AddInitial(initial, o.initial).write <==> n in initial && 'w' in initial[n]
    {
      OtherLettersDefaults(initial, o.initial, n, Admin);
      OtherLettersDefaults(initial, o.initial, n, Read);
      OtherLettersDefaults(initial, o.initial, n, Write);
    }
  }

  /** An existing one gets new features and, if it has none, a creator; its rights and annotations stay. */
  lemma PutUpdates(docs: Docs, key: Key, features: Fields, owner: string, o: Orders, config: Config)
    requires key in docs && docs[key].resource != "" && ValidOrders(o, key, Put(features, owner), config)
    ensures var d, d' := docs[key], Apply(docs, key, Put(features, owner), o, config)[key];
      && d'.features == features
      && d'.resource == d.resource && d'.annotations == d.annotations && d'.users == d.users && d'.groups == d.groups
      && CreatorFilled(d.creator, d.users.admin, owner, d'.creator)
  {}

  /** A creator that is set stays; one that is not becomes the first admin user if that has a name, and
      the owner of the command otherwise. */
  predicate CreatorFilled(was: string, admins: seq<string>, owner: string, now: string) {
    && (was != "" ==> now == was)
    && (was == "" && admins != [] && admins[0] != "" ==> now == admins[0])
    && (was == "" && (admins == [] || admins[0] == "") ==> now == owner)
  }

  /** A stored document without id is left alone. */
  lemma PutIgnored(docs: Docs, key: Key, features: Fields, owner: string, o: Orders, config: Config)
    requires key in docs && docs[key].resource == "" && ValidOrders(o, key, Put(features, owner), config)
    ensures Apply(docs, key, Put(features, owner), o, config) == docs
  {}

  // ----- RIGHTS -----

  /** The document's holders are exactly those of the message, right by right, and its creator is filled in
      from them; features and annotations stay. */
  lemma RightsReplace(docs: Docs, key: Key, rights: Rights, owner: string, o: Orders, config: Config)
    requires key in docs && docs[key].resource != "" && ValidOrders(o, key, SetRights(Some(rights), owner), config)
    ensures var d, d' := docs[key], Apply(docs, key, SetRights(Some(rights), owner), o, config)[key];
      && d'.resource == d.resource && d'.features == d.features && d'.annotations == d.annotations
      && CreatorFilled(d.creator, d'.users.admin, owner, d'.creator)
      && GrantedExactly(d'.users, rights.users) && GrantedExactly(d'.groups, rights.groups)
  {
    GrantsExactly(rights.users, o.users);
    GrantsExactly(rights.groups, o.groups);
  }

  ghost predicate GrantedExactly(ls: Lists, m: map<string, Right>) {
    forall n ::
      && (n in ls.admin <==> n in m && m[n].administrate) && (n in ls.read <==> n in m && m[n].read)
      && (n in ls.write <==> n in m && m[n].write) && (n in ls.execute <==> n in m && m[n].execute)
  }

  lemma GrantsExactly(m: map<string, Right>, order: seq<string>)
    requires Enumerates(order, m.Keys)
    ensures GrantedExactly(AddRights(NOBODY, m, order), m)
  {
    var ls := AddRights(NOBODY, m, order);
    forall n
      ensures n in ls.admin <==> n in m && m[n].administrate
      ensures n in ls.read <==> n in m && m[n].read
      ensures n in ls.write <==> n in m && m[n].write
      ensures n in ls.execute <==> n in m && m[n].execute
    {
      AddRightsHolders(NOBODY, m, order, n, Admin);
      AddRightsHolders(NOBODY, m, order, n, Read);
      AddRightsHolders(NOBODY, m, order, n, Write);
      AddRightsHolders(NOBODY, m, order, n, Execute);
    }
  }

  /** A message without rights, a document without id and a missing document are left alone. */
  lemma RightsIgnored(docs: Docs, key: Key, rights: Option<Rights>, owner: string, o: Orders, config: Config)
    requires ValidOrders(o, key, SetRights(rights, owner), config)
    requires rights.None? || key !in docs || docs[key].resource == ""
    ensures Apply(docs, key, SetRights(rights, owner), o, config) == docs
  {}

  // ----- annotations -----

  /** Every field of the message is laid over the annotations of the document, and nothing else changes. */
  lemma AnnotationsMerged(docs: Docs, key: Key, fields: Fields, o: Orders, config: Config)
    requires ValidOrders(o, key, Command.Annotate(fields), config)
    ensures key !in docs ==> Apply(docs, key, Command.Annotate(fields), o, config) == docs
    ensures key in docs ==>
      var d, d' := docs[key], Apply(docs, key, Command.Annotate(fields), o, config)[key];
      && d' == d.(annotations := d'.annotations)
      && d'.annotations.Keys == d.annotations.Keys + fields.Keys
      && (forall f | f in fields :: d'.annotations[f] == fields[f])
      && (forall f | f in d.annotations && f !in fields :: d'.annotations[f] == d.annotations[f])
  {}

  // ----- permission commands -----

  /** Who holds which right through one of the lists; `x` for the execute list of groups is left open. */
  predicate SameLists(ls: Lists, ls': Lists, n: string) {
    && (n in ls'.admin <==> n in ls.admin) && (n in ls'.read <==> n in ls.read)
    && (n in ls'.write <==> n in ls.write) && (n in ls'.execute <==> n in ls.execute)
  }

  predicate HasLetters(ls: Lists, n: string, rights: string) {
    (n in ls.admin <==> 'a' in rights) && (n in ls.read <==> 'r' in rights) && (n in ls.write <==> 'w' in rights)
  }

  /** A user is left with exactly the letters of the command, every other user with what it had, and
      nothing but the user lists changes. */
  lemma UserRightsSet(d: Doc, user: string, rights: string, n: string)
    ensures var d' := ApplyPerm(PutUser(user, rights), d);
      && d' == d.(users := d'.users)
      && HasLetters(d'.users, user, rights) && (user in d'.users.execute <==> 'x' in rights)
      && (n != user ==> SameLists(d.users, d'.users, n))
    ensures var d' := ApplyPerm(Perm.DeleteUser(user), d);
      && d' == d.(users := d'.users) && HasLetters(d'.users, user, "") && user !in d'.users.execute
      && (n != user ==> SameLists(d.users, d'.users, n))
  {
    UserLetters(d, PutUser(user, rights), user);
    UserLetters(d, PutUser(user, rights), n);
  }

  lemma UserLetters(d: Doc, p: Perm, n: string)
    ensures var d' := ApplyPerm(p, d);
      if Names(p) == User(n) then
        HasLetters(d'.users, n, Letters(p)) && (n in d'.users.execute <==> 'x' in Letters(p))
      else SameLists(d.users, d'.users, n)
  {
    StepHolders(p, d, User(n), Admin);
    StepHolders(p, d, User(n), Read);
    StepHolders(p, d, User(n), Write);
    StepHolders(p, d, User(n), Execute);
  }

  /** The same for a group and the letters a, r and w.  Execute as line 70 of lib/model/model.go leaves it:
      an x hands it to the admin groups and this one, and without an x this one alone has lost it. */
  lemma GroupRightsSet(d: Doc, group: string, rights: string, n: string)
    ensures var d' := ApplyPerm(PutGroup(group, rights), d);
      && d' == d.(groups := d'.groups)
      && HasLetters(d'.groups, group, rights)
      && (n != group ==> SameLists(d.groups.(execute := []), d'.groups.(execute := []), n))
      && (n in d'.groups.execute <==>
          if 'x' in rights then n == group || n in d.groups.admin else n != group && n in d.groups.execute)
    ensures var d' := ApplyPerm(Perm.DeleteGroup(group), d);
      && d' == d.(groups := d'.groups) && HasLetters(d'.groups, group, "") && group !in d'.groups.execute
      && (n != group ==> SameLists(d.groups, d'.groups, n))
  {
    GroupLetters(d, PutGroup(group, rights), group);
    GroupLetters(d, PutGroup(group, rights), n);
    AddGroupExecute(Without(d.groups, group), group, rights, n);
  }

  lemma GroupLetters(d: Doc, p: Perm, n: string)
    ensures var d' := ApplyPerm(p, d);
      if Names(p) == Group(n) then HasLetters(d'.groups, n, Letters(p))
      else SameLists(d.groups.(execute := []), d'.groups.(execute := []), n)
  {
    StepHolders(p, d, Group(n), Admin);
    StepHolders(p, d, Group(n), Read);
    StepHolders(p, d, Group(n), Write);
  }

  /** On a missing document permission commands do nothing. */
  lemma PermissionApplied(docs: Docs, key: Key, p: Perm, o: Orders, config: Config)
    requires ValidOrders(o, key, Permission(p), config)
    ensures Apply(docs, key, Permission(p), o, config) == if key in docs then docs[key := ApplyPerm(p, docs[key])] else docs
  {}
}
