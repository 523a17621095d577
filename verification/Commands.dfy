/** What one command does to the documents when it runs alone (lib/worker/command.go,
    lib/worker/event.go), as functions the handlers and every history argument share. */
module Commands {
  import opened GoStrings
  import opened Model

  /** A document's address: index name and document id. */
  datatype Key = Key(kind: string, id: string)

  /** The initial group rights configured for each kind. */
  type Config = map<string, map<string, string>>

  function InitialGroups(config: Config, kind: string): map<string, string> {
    if kind in config then config[kind] else map[]
  }

  datatype Perm =
    | PutUser(user: string, rights: string)
    | PutGroup(group: string, rights: string)
    | DeleteUser(user: string)
    | DeleteGroup(group: string)

  datatype Command =
    | Permission(perm: Perm)
    | Put(features: Fields, owner: string)
    | SetRights(rights: Option<Rights>, owner: string)
    | Delete
    | Annotate(fields: Fields)

  /** PUT, RIGHTS and DELETE come from the resource topics and share one consumer. */
  predicate FromResourceTopic(c: Command) { c.Put? || c.SetRights? || c.Delete? }

  /** The orders in which one execution ranges over the maps it meets. */
  datatype Orders = Orders(users: seq<string>, groups: seq<string>, initial: Ranging)

  ghost predicate ValidOrders(o: Orders, key: Key, c: Command, config: Config) {
    && RangesOver(o.initial, InitialGroups(config, key.kind).Keys)
    && (c.SetRights? && c.rights.Some? ==>
          && Enumerates(o.users, c.rights.value.users.Keys)
          && Enumerates(o.groups, c.rights.value.groups.Keys))
  }

  function ApplyPerm(p: Perm, d: Doc): Doc {
    match p
    case PutUser(user, rights) => d.(users := AddUser(Without(d.users, user), user, rights))
    case PutGroup(group, rights) => d.(groups := AddGroup(Without(d.groups, group), group, rights))
    case DeleteUser(user) => d.(users := Without(d.users, user))
    case DeleteGroup(group) => d.(groups := Without(d.groups, group))
  }

  function Featured(d: Doc, features: Fields, owner: string): Doc {
    d.(features := features, creator := CreatorOr(d.creator, d.users.admin, owner))
  }

  ghost function Righted(d: Doc, rights: Rights, owner: string, o: Orders): Doc
    requires Enumerates(o.users, rights.users.Keys) && Enumerates(o.groups, rights.groups.Keys)
  {
    var users := AddRights(NOBODY, rights.users, o.users);
    d.(users := users,
       groups := AddRights(NOBODY, rights.groups, o.groups),
       creator := CreatorOr(d.creator, users.admin, owner))
  }

  ghost function Created(key: Key, features: Fields, owner: string, o: Orders, config: Config): Doc
    requires RangesOver(o.initial, InitialGroups(config, key.kind).Keys)
  {
    Doc(key.id, features, map[], OwnerLists(NOBODY, owner),
        AddInitial(InitialGroups(config, key.kind), o.initial), owner)
  }

  /** The document an existing one becomes. */
  ghost function Change(c: Command, key: Key, d: Doc, o: Orders, config: Config): Doc
    requires ValidOrders(o, key, c, config)
  {
    match c
    case Permission(p) => ApplyPerm(p, d)
    case Put(features, owner) => if d.resource == "" then d else Featured(d, features, owner)
    case SetRights(None, _) => d
    case SetRights(Some(rights), owner) => if d.resource == "" then d else Righted(d, rights, owner, o)
    case Delete => d
    case Annotate(fields) => d.(annotations := d.annotations + fields)
  }

  type Docs = map<Key, Doc>

  /** One command, run alone. */
  ghost function Apply(docs: Docs, key: Key, c: Command, o: Orders, config: Config): Docs
    requires ValidOrders(o, key, c, config)
  {
    if key in docs then
      if c.Delete? then docs - {key} else docs[key := Change(c, key, docs[key], o, config)]
    else if c.Put? then
      docs[key := Created(key, c.features, c.owner, o, config)]
    else
      docs
  }

  /** A command as some execution of its handler carries it out. */
  datatype Delivery = Delivery(key: Key, command: Command, orders: Orders)

  ghost predicate Valid(config: Config, v: Delivery) {
    ValidOrders(v.orders, v.key, v.command, config)
  }

  ghost predicate AllValid(config: Config, vs: seq<Delivery>) {
    forall i | 0 <= i < |vs| :: Valid(config, vs[i])
  }

  ghost function Deliver(config: Config, docs: Docs, v: Delivery): Docs
    requires Valid(config, v)
  {
    Apply(docs, v.key, v.command, v.orders, config)
  }

  /** The deliveries one after the other. */
  ghost function Fold(config: Config, docs: Docs, vs: seq<Delivery>): Docs
    requires AllValid(config, vs)
    decreases |vs|
  {
    if vs == [] then docs else Fold(config, Deliver(config, docs, vs[0]), vs[1..])
  }

  lemma {:induction false} FoldSnoc(config: Config, docs: Docs, vs: seq<Delivery>, v: Delivery)
    requires AllValid(config, vs) && Valid(config, v)
    ensures AllValid(config, vs + [v])
    ensures Fold(config, docs, vs + [v]) == Deliver(config, Fold(config, docs, vs), v)
    decreases |vs|
  {
    if vs == [] {
      assert ([v])[1..] == [];
    } else {
      assert (vs + [v])[1..] == vs[1..] + [v];
      FoldSnoc(config, Deliver(config, docs, vs[0]), vs[1..], v);
    }
  }

  /** Once a document has a creator, no history without its deletion changes it. */
  lemma {:induction false} CreatorStays(config: Config, docs: Docs, vs: seq<Delivery>, k: Key)
    requires AllValid(config, vs) && k in docs && docs[k].creator != ""
    requires forall i | 0 <= i < |vs| :: vs[i].key == k ==> !vs[i].command.Delete?
    ensures k in Fold(config, docs, vs) && Fold(config, docs, vs)[k].creator == docs[k].creator
    decreases |vs|
  {
    if vs != [] {
      var next := Deliver(config, docs, vs[0]);
      assert k in next && next[k].creator == docs[k].creator;
      CreatorStays(config, next, vs[1..], k);
    }
  }

  /** Every reachable document is filed under its own resource id, which is not empty. */
  ghost predicate Filed(docs: Docs) {
    forall k | k in docs :: docs[k].resource == k.id && k.id != ""
  }

  lemma ApplyKeepsFiled(docs: Docs, key: Key, c: Command, o: Orders, config: Config)
    requires Filed(docs) && key.id != "" && ValidOrders(o, key, c, config)
    ensures Filed(Apply(docs, key, c, o, config))
  {}
}
