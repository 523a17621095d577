/** The command handlers (lib/worker/command.go, lib/worker/event.go) as the code runs them: one
    store call after the other, with other clients writing in between.

    `Store` is the cluster as one client sees it.  Before each call takes place, others may have
    changed documents, always under new sequence numbers.  `own` lists the effects of this client's
    commands: for each, the documents just before and just after. */
module Worker {
  import opened GoStrings
  import opened Model
  import opened Commands
  import opened Interleaving

  datatype Effected = Effected(before: Docs, after: Docs)

  datatype Lookup = Found(doc: Doc, version: Version) | Missing | Broken(error: string)

  function Contents(docs: map<Key, Stored>): Docs {
    map k | k in docs :: docs[k].doc
  }

  class Store {
    var docs: map<Key, Stored>
    var nextSeq: nat
    var term: nat
    ghost var own: seq<Effected>
    /** Calls that were answered with an error, and lookups that found no document. */
    ghost var failures: nat
    ghost var misses: nat
    /** Documents whose creation nobody else handles meanwhile. */
    ghost const reserved: set<Key>

    ghost predicate Valid() reads this {
      forall k | k in docs :: docs[k].version.seqNo < nextSeq
    }

    /** What others may have done since the documents were `was` and the next number `seq0`. */
    ghost predicate OthersSince(was: map<Key, Stored>, seq0: nat, now: map<Key, Stored>) reads this {
      && (forall k | k in now :: (k in was && now[k] == was[k]) || now[k].version.seqNo >= seq0)
      && (forall k | k in reserved && k in now :: k in was)
    }

    constructor (ghost reserved: set<Key>)
      ensures Valid() && own == [] && docs == map[] && this.reserved == reserved && failures == misses == 0
    {
      docs, nextSeq, term, own, failures, misses, this.reserved := map[], 0, 0, [], 0, 0, reserved;
    }

    /** Other clients take any number of turns: all the caller learns is what they may have done. */
    method Others()
      requires Valid()
      modifies this
      ensures Valid() && nextSeq >= old(nextSeq) && OthersSince(old(docs), old(nextSeq), docs)
      ensures own == old(own) && failures == old(failures) && misses == old(misses)
    {}

    method Exists(k: Key) returns (found: Option<bool>)
      requires Valid()
      modifies this
      ensures Valid() && nextSeq >= old(nextSeq) && OthersSince(old(docs), old(nextSeq), docs)
      ensures own == old(own)
      ensures found.Some? ==> (found.value <==> k in docs)
      ensures failures == old(failures) + (if found.None? then 1 else 0) && misses == old(misses)
    {
      Others();
      var reachable: bool := *;
      found := if reachable then Some(k in docs) else None;
      if !reachable { failures := failures + 1; }
    }

    method Get(k: Key) returns (found: Lookup)
      requires Valid()
      modifies this
      ensures Valid() && nextSeq >= old(nextSeq) && OthersSince(old(docs), old(nextSeq), docs)
      ensures own == old(own)
      ensures found.Found? ==> k in docs && docs[k] == Stored(found.doc, found.version)
      ensures found.Missing? ==> k !in docs
      ensures failures == old(failures) + (if found.Broken? then 1 else 0)
      ensures misses == old(misses) + (if found.Missing? then 1 else 0)
    {
      Others();
      var reachable: bool := *;
      if !reachable {
        found := Broken("unreachable");
        failures := failures + 1;
      } else if k in docs {
        found := Found(docs[k].doc, docs[k].version);
      } else {
        found := Missing;
        misses := misses + 1;
      }
    }

    /** Index a document, only over the given version when there is one.  An error may or may not
        mean that nothing was written; the ghost result is the state just before the write. */
    method Index(k: Key, d: Doc, only: Option<Version>)
      returns (err: Option<string>, ghost wrote: bool, ghost before: map<Key, Stored>)
      requires Valid()
      modifies this
      ensures Valid() && nextSeq >= old(nextSeq) && OthersSince(old(docs), old(nextSeq), before)
      ensures err.None? ==> wrote
      ensures failures == old(failures) + (if err.Some? then 1 else 0) && misses == old(misses)
      ensures !wrote ==> docs == before && own == old(own)
      ensures wrote ==>
        && (only.Some? ==> k in before && before[k].version == only.value)
        && Contents(docs) == Contents(before)[k := d]
        && own == old(own) + [Effected(Contents(before), Contents(docs))]
    {
      Others();
      before, wrote, err := docs, false, Some("unreachable");
      var reachable: bool, answered: bool := *, *;
      failures := failures + 1;
      if !reachable {
        return;
      }
      if only.Some? && !(k in docs && docs[k].version == only.value) {
        err := Some("version conflict");
        return;
      }
      docs, nextSeq, wrote := docs[k := Stored(d, Version(nextSeq, term))], nextSeq + 1, true;
      own := own + [Effected(Contents(before), Contents(docs))];
      if answered {
        err := None;
        failures := failures - 1;
      }
    }

    method Delete(k: Key) returns (err: Option<string>, ghost wrote: bool, ghost before: map<Key, Stored>)
      requires Valid()
      modifies this
      ensures Valid() && nextSeq >= old(nextSeq) && OthersSince(old(docs), old(nextSeq), before)
      ensures err.None? ==> wrote
      ensures failures == old(failures) + (if err.Some? then 1 else 0) && misses == old(misses)
      ensures !wrote ==> docs == before && own == old(own)
      ensures wrote ==>
        && k in before && Contents(docs) == Contents(before) - {k}
        && own == old(own) + [Effected(Contents(before), Contents(docs))]
    {
      Others();
      before, wrote, err := docs, false, Some("unreachable");
      var reachable: bool, answered: bool := *, *;
      failures := failures + 1;
      if !reachable {
        return;
      }
      if k !in docs {
        err := Some("not found");
        return;
      }
      docs, nextSeq, wrote := docs - {k}, nextSeq + 1, true;
      own := own + [Effected(Contents(before), Contents(docs))];
      if answered {
        err := None;
        failures := failures - 1;
      }
    }

    /** A command that finds nothing to do takes its effect here. */
    ghost method Observe()
      modifies this`own
      ensures own == old(own) + [Effected(Contents(docs), Contents(docs))]
    {
      own := own + [Effected(Contents(docs), Contents(docs))];
    }
  }

  /** The one effect a handler had, if it had one, is what its command does alone. */
  ghost predicate ActsAs(own0: seq<Effected>, own1: seq<Effected>, err: Option<string>, config: Config, v: Delivery) {
    && Valid(config, v)
    && (err.None? ==> own1 != own0)
    && (own1 == own0 ||
        (|own1| == |own0| + 1 && own1[..|own0|] == own0 &&
         own1[|own0|].after == Deliver(config, own1[|own0|].before, v)))
  }

  ghost function SomeOrders(config: Config, key: Key, c: Command): (o: Orders)
    ensures ValidOrders(o, key, c, config)
  {
    var r := if c.SetRights? && c.rights.Some? then c.rights.value else Rights(map[], map[]);
    Orders(AnOrder(r.users.Keys), AnOrder(r.groups.Keys), ARanging(InitialGroups(config, key.kind).Keys))
  }

  /** The message that tells others that a command has been handled. */
  datatype Done = Done(kind: string, id: string, handler: string, command: string)

  const HANDLER := "github.com/SENERGY-Platform/permission-search"

  /** The producer of the done topic; a message reported as failed may still have been sent. */
  class Announcer {
    ghost var sent: seq<Done>
    ghost var failures: nat

    constructor ()
      ensures sent == [] && failures == 0
    {
      sent, failures := [], 0;
    }

    method Produce(msg: Done) returns (err: Option<string>)
      modifies this
      ensures err.None? ==> sent == old(sent) + [msg] && failures == old(failures)
      ensures err.Some? ==> (sent == old(sent) || sent == old(sent) + [msg]) && failures == old(failures) + 1
    {
      var arrives: bool, answered: bool := *, *;
      if arrives { sent := sent + [msg]; }
      err := if arrives && answered then None else Some("unable to produce");
      if err.Some? { failures := failures + 1; }
    }
  }

  class Handlers {
    const store: Store
    const config: Config
    const announcer: Announcer?

    constructor (store: Store, config: Config, announcer: Announcer?)
      ensures this.store == store && this.config == config && this.announcer == announcer
    {
      this.store, this.config, this.announcer := store, config, announcer;
    }

    ghost function Announcing(): (frame: set<object>) {
      if announcer == null then {} else {announcer}
    }

    /** SetUserRight, SetGroupRight, DeleteUserRight and DeleteGroupRight, which differ only in the
        calls on the entry. */
    method ChangePermission(key: Key, perm: Perm) returns (err: Option<string>)
      requires store.Valid()
      modifies store
      ensures store.Valid()
      ensures err.Some? ==> store.failures > old(store.failures)
      ensures exists o :: ActsAs(old(store.own), store.own, err, config, Delivery(key, Permission(perm), o))
    {
      ghost var v := Delivery(key, Permission(perm), SomeOrders(config, key, Permission(perm)));
      assert ActsAs(store.own, store.own, Some(""), config, v);
      var present := store.Exists(key);
      if present.None? {
        return Some("unreachable");
      }
      if !present.value {
        store.Observe();
        assert ActsAs(old(store.own), store.own, None, config, v);
        return None;
      }
      var found := store.Get(key);
      match found
      case Missing =>
        store.Observe();
        assert ActsAs(old(store.own), store.own, None, config, v);
        return None;
      case Broken(error) =>
        return Some(error);
      case Found(doc, version) =>
        var entry := new Entry(doc);
        match perm {
          case PutUser(user, rights) =>
            entry.RemoveUserRights(user);
            entry.AddUserRights(user, rights);
          case PutGroup(group, rights) =>
            entry.RemoveGroupRights(group);
            entry.AddGroupRights(group, rights);
          case DeleteUser(user) =>
            entry.RemoveUserRights(user);
          case DeleteGroup(group) =>
            entry.RemoveGroupRights(group);
        }
        ghost var wrote, before;
        err, wrote, before := store.Index(key, entry.Value(), Some(version));
        assert wrote ==> before[key].doc == doc;
        assert ActsAs(old(store.own), store.own, err, config, v);
    }

    /** PUT. */
    method UpdateFeatures(key: Key, features: Fields, owner: string) returns (err: Option<string>)
      requires store.Valid() && key in store.reserved
      modifies store
      ensures store.Valid()
      ensures err.Some? ==> store.failures > old(store.failures) || store.misses > old(store.misses)
      ensures exists o :: ActsAs(old(store.own), store.own, err, config, Delivery(key, Put(features, owner), o))
    {
      ghost var v := Delivery(key, Put(features, owner), SomeOrders(config, key, Put(features, owner)));
      assert ActsAs(store.own, store.own, Some(""), config, v);
      ghost var wrote, before;
      var present := store.Exists(key);
      if present.None? {
        return Some("unreachable");
      }
      if present.value {
        var found := store.Get(key);
        if found.Broken? {
          return Some(found.error);
        }
        if found.Missing? {
          return Some("not found");
        }
        var entry := new Entry(found.doc);
        if entry.resource == "" {
          store.Observe();
          assert ActsAs(old(store.own), store.own, None, config, v);
          return None;
        }
        entry.features := features;
        entry.FillCreator(owner);
        err, wrote, before := store.Index(key, entry.Value(), Some(found.version));
        assert wrote ==> before[key].doc == found.doc;
        assert ActsAs(old(store.own), store.own, err, config, v);
      } else {
        err := Create(key, features, owner);
      }
    }

    /** The part of PUT that found no document. */
    method Create(key: Key, features: Fields, owner: string) returns (err: Option<string>)
      requires store.Valid() && key in store.reserved && key !in store.docs
      modifies store
      ensures store.Valid()
      ensures err.Some? ==> store.failures > old(store.failures)
      ensures exists o :: ActsAs(old(store.own), store.own, err, config, Delivery(key, Put(features, owner), o))
    {
      var entry := new Entry.Blank(key.id, features, owner);
      ghost var ranging := entry.SetDefaultPermissions(InitialGroups(config, key.kind), owner);
      ghost var v := Delivery(key, Put(features, owner), Orders([], [], ranging));
      ghost var wrote, before;
      err, wrote, before := store.Index(key, entry.Value(), None);
      assert key !in before;
      assert ActsAs(old(store.own), store.own, err, config, v);
    }

    /** RIGHTS. */
    method UpdateRights(key: Key, rights: Option<Rights>, owner: string) returns (err: Option<string>)
      requires store.Valid()
      modifies store
      ensures store.Valid()
      ensures err.Some? ==> store.failures > old(store.failures) || store.misses > old(store.misses)
      ensures exists o :: ActsAs(old(store.own), store.own, err, config, Delivery(key, SetRights(rights, owner), o))
    {
      ghost var v := Delivery(key, SetRights(rights, owner), SomeOrders(config, key, SetRights(rights, owner)));
      assert ActsAs(store.own, store.own, Some(""), config, v);
      if rights.None? {
        store.Observe();
        assert ActsAs(old(store.own), store.own, None, config, v);
        return None;
      }
      var present := store.Exists(key);
      if present.None? {
        return Some("unreachable");
      }
      if !present.value {
        store.Observe();
        assert ActsAs(old(store.own), store.own, None, config, v);
        return None;
      }
      var found := store.Get(key);
      if found.Broken? {
        return Some(found.error);
      }
      if found.Missing? {
        return Some("not found");
      }
      var entry := new Entry(found.doc);
      if entry.resource == "" {
        store.Observe();
        assert ActsAs(old(store.own), store.own, None, config, v);
        return None;
      }
      entry.ClearRights();
      ghost var users, groups := entry.SetResourceRights(rights.value);
      v := v.(orders := v.orders.(users := users, groups := groups));
      entry.FillCreator(owner);
      ghost var wrote, before;
      err, wrote, before := store.Index(key, entry.Value(), Some(found.version));
      assert wrote ==> before[key].doc == found.doc;
      assert ActsAs(old(store.own), store.own, err, config, v);
    }

    /** DELETE. */
    method DeleteFeatures(key: Key) returns (err: Option<string>)
      requires store.Valid()
      modifies store
      ensures store.Valid()
      ensures err.Some? ==> store.failures > old(store.failures)
      ensures exists o :: ActsAs(old(store.own), store.own, err, config, Delivery(key, Command.Delete, o))
    {
      ghost var v := Delivery(key, Command.Delete, SomeOrders(config, key, Command.Delete));
      assert ActsAs(store.own, store.own, Some(""), config, v);
      var present := store.Exists(key);
      if present.None? {
        return Some("unreachable");
      }
      if !present.value {
        store.Observe();
        assert ActsAs(old(store.own), store.own, None, config, v);
        return None;
      }
      ghost var wrote, before;
      err, wrote, before := store.Delete(key);
      assert ActsAs(old(store.own), store.own, err, config, v);
    }

    /** An annotation for one resource kind, without the bulk indexer. */
    method Annotate(key: Key, fields: Fields) returns (err: Option<string>)
      requires store.Valid()
      modifies store
      ensures store.Valid()
      ensures err.Some? ==> store.failures > old(store.failures) || store.misses > old(store.misses)
      ensures exists o :: ActsAs(old(store.own), store.own, err, config,
                                 Delivery(key, Command.Annotate(fields - {"_id"}), o))
    {
      ghost var c := Command.Annotate(fields - {"_id"});
      ghost var v := Delivery(key, c, SomeOrders(config, key, c));
      assert ActsAs(store.own, store.own, Some(""), config, v);
      var present := store.Exists(key);
      if present.None? {
        return Some("unreachable");
      }
      var found := store.Get(key);
      if found.Broken? {
        return Some(found.error);
      }
      if found.Missing? {
        return Some("not found");
      }
      var entry := new Entry(found.doc);
      MergeAnnotations(entry, fields);
      ghost var wrote, before;
      err, wrote, before := store.Index(key, entry.Value(), Some(found.version));
      assert wrote ==> before[key].doc == found.doc;
      assert ActsAs(old(store.own), store.own, err, config, v);
    }

    method MergeAnnotations(entry: Entry, fields: Fields)
      modifies entry
      ensures entry.Value() == old(entry.Value()).(annotations := old(entry.annotations) + (fields - {"_id"}))
    {
      var todo := fields.Keys;
      while todo != {}
        invariant todo <= fields.Keys
        invariant entry.Value() == old(entry.Value()).(
          annotations := old(entry.annotations) + (fields - ({"_id"} + todo)))
      {
        var name :| name in todo;
        if name != "_id" {
          entry.annotations := entry.annotations[name := fields[name]];
        }
        todo := todo - {name};
      }
      assert {"_id"} + todo == {"_id"};
    }

    /** The message to the done topic, if there is one. */
    method SendDone(msg: Done) returns (err: Option<string>)
      modifies Announcing()
      ensures announcer == null ==> err == None
      ensures announcer != null && err.None? ==> announcer.sent == old(announcer.sent) + [msg.(handler := HANDLER)]
      ensures announcer != null && err.Some? ==> announcer.failures > old(announcer.failures)
    {
      if announcer == null {
        return None;
      }
      err := announcer.Produce(msg.(handler := HANDLER));
    }

    /** A message without resource or kind is dropped, one that names no permission change is an
        error, and any other acts as its permission command; PUT and DELETE prefer the user. */
    method HandlePermissionCommand(msg: PermissionMsg) returns (err: Option<string>)
      requires store.Valid()
      modifies store, Announcing()
      ensures store.Valid()
      ensures msg.resource == "" || msg.kind == "" ==> err == None && store.own == old(store.own)
      ensures announcer != null && (msg.resource == "" || msg.kind == "" || PermOf(msg).None?) ==>
                announcer.sent == old(announcer.sent)
      ensures announcer != null && msg.resource != "" && msg.kind != "" && err.None? ==>
                announcer.sent == old(announcer.sent) + [Done(msg.kind, msg.resource, HANDLER, "RIGHTS")]
      ensures PermOf(msg).Some? && err.Some? ==>
                store.failures > old(store.failures) || (announcer != null && announcer.failures > old(announcer.failures))
      ensures msg.resource != "" && msg.kind != "" ==>
                match PermOf(msg)
                case None => err.Some? && store.own == old(store.own)
                case Some(perm) =>
                  exists o :: ActsAs(old(store.own), store.own, err, config,
                                     Delivery(Key(msg.kind, msg.resource), Permission(perm), o))
    {
      if msg.resource == "" || msg.kind == "" {
        return None;
      }
      var key := Key(msg.kind, msg.resource);
      if msg.command == "PUT" && msg.user != "" {
        err := ChangePermission(key, PutUser(msg.user, msg.right));
      } else if msg.command == "PUT" && msg.group != "" {
        err := ChangePermission(key, PutGroup(msg.group, msg.right));
      } else if msg.command == "DELETE" && msg.user != "" {
        err := ChangePermission(key, Perm.DeleteUser(msg.user));
      } else if msg.command == "DELETE" && msg.group != "" {
        err := ChangePermission(key, Perm.DeleteGroup(msg.group));
      } else {
        return Some("unable to handle permission command");
      }
      if err.None? {
        err := SendDone(Done(msg.kind, msg.resource, "", "RIGHTS"));
      }
    }

    /** The handler of one resource topic. */
    method HandleResourceCommand(kind: string, msg: ResourceMsg) returns (err: Option<string>)
      requires store.Valid() && (msg.command == "PUT" ==> Key(kind, msg.id) in store.reserved)
      modifies store, Announcing()
      ensures store.Valid()
      ensures msg.id == "" ==> err == None && store.own == old(store.own)
      ensures announcer != null && (msg.id == "" || CommandOf(msg).None?) ==> announcer.sent == old(announcer.sent)
      ensures announcer != null && msg.id != "" && err.None? ==>
                announcer.sent == old(announcer.sent) + [Done(kind, msg.id, HANDLER, msg.command)]
      ensures CommandOf(msg).Some? && err.Some? ==>
                || store.failures > old(store.failures) || store.misses > old(store.misses)
                || (announcer != null && announcer.failures > old(announcer.failures))
      ensures msg.id != "" ==>
                match CommandOf(msg)
                case None => err.Some? && store.own == old(store.own)
                case Some(c) => exists o :: ActsAs(old(store.own), store.own, err, config, Delivery(Key(kind, msg.id), c, o))
    {
      if msg.id == "" {
        return None;
      }
      var key := Key(kind, msg.id);
      match msg.command {
        case "RIGHTS" =>
          err := UpdateRights(key, msg.rights, msg.owner);
        case "PUT" =>
          if msg.features.None? {
            return Some("unable to extract features");
          }
          err := UpdateFeatures(key, msg.features.value, msg.owner);
        case "DELETE" =>
          err := DeleteFeatures(key);
        case _ =>
          return Some("unable to handle command");
      }
      if err.None? {
        err := SendDone(Done(kind, msg.id, "", msg.command));
      }
    }
  }

  datatype PermissionMsg = PermissionMsg(
    command: string,
    kind: string,
    resource: string,
    user: string,
    group: string,
    right: string)

  function PermOf(msg: PermissionMsg): Option<Perm> {
    if msg.user == "" && msg.group == "" then None
    else if msg.command == "PUT" then
      Some(if msg.user != "" then PutUser(msg.user, msg.right) else PutGroup(msg.group, msg.right))
    else if msg.command == "DELETE" then
      Some(if msg.user != "" then Perm.DeleteUser(msg.user) else Perm.DeleteGroup(msg.group))
    else None
  }

  /** A resource command with the features its PUT extracts, when they can be extracted. */
  datatype ResourceMsg = ResourceMsg(command: string, id: string, owner: string, rights: Option<Rights>, features: Option<Fields>)

  function CommandOf(msg: ResourceMsg): Option<Command> {
    match msg.command
    case "RIGHTS" => Some(SetRights(msg.rights, msg.owner))
    case "PUT" => if msg.features.None? then None else Some(Put(msg.features.value, msg.owner))
    case "DELETE" => Some(Command.Delete)
    case _ => None
  }

  /** Which messages change whose rights how: the user is preferred to the group, and nothing else is a
      permission change. */
  lemma PermOfExactly(msg: PermissionMsg, name: string, rights: string)
    ensures PermOf(msg) == Some(PutUser(name, rights)) <==>
            msg.command == "PUT" && msg.user == name && name != "" && msg.right == rights
    ensures PermOf(msg) == Some(PutGroup(name, rights)) <==>
            msg.command == "PUT" && msg.user == "" && msg.group == name && name != "" && msg.right == rights
    ensures PermOf(msg) == Some(Perm.DeleteUser(name)) <==> msg.command == "DELETE" && msg.user == name && name != ""
    ensures PermOf(msg) == Some(Perm.DeleteGroup(name)) <==>
            msg.command == "DELETE" && msg.user == "" && msg.group == name && name != ""
    ensures PermOf(msg).None? <==>
            (msg.command != "PUT" && msg.command != "DELETE") || (msg.user == "" && msg.group == "")
  {}

  /** And which resource messages are which command. */
  lemma CommandOfExactly(msg: ResourceMsg, features: Fields, rights: Option<Rights>, owner: string)
    ensures CommandOf(msg) == Some(Put(features, owner)) <==>
            msg.command == "PUT" && msg.features == Some(features) && msg.owner == owner
    ensures CommandOf(msg) == Some(SetRights(rights, owner)) <==>
            msg.command == "RIGHTS" && msg.rights == rights && msg.owner == owner
    ensures CommandOf(msg) == Some(Command.Delete) <==> msg.command == "DELETE"
    ensures CommandOf(msg).None? <==>
            (msg.command != "PUT" && msg.command != "RIGHTS" && msg.command != "DELETE") ||
            (msg.command == "PUT" && msg.features.None?)
  {}
}
