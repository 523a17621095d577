/** Rebuilding the documents of one kind from its compacted topic.

    The topic keeps the last message per Kafka key.  PUT and DELETE use the resource id as key,
    RIGHTS uses the id with "/rights" appended, and the producers' balancer sends both to one
    partition (lib/worker/kafka/producer.go, lib/rigthsproducer/producer.go, lib/replay/replay.go). */
module Compaction {
  import opened GoStrings
  import opened Model
  import opened Commands
  import opened Views

  datatype Message = Message(id: string, command: Command)

  const RIGHTS_SUFFIX := "rights"

  function KafkaKey(m: Message): string {
    if m.command.SetRights? then m.id + ['/'] + RIGHTS_SUFFIX else m.id
  }

  /** KeySeparationBalancer.Balance with the separator "/" over any balancer that goes by the key. */
  function Balance(sub: (string, seq<int>) -> int, key: string, partitions: seq<int>): int {
    sub(Split(key, '/')[0], partitions)
  }

  /** Both keys of a resource go to one partition, whatever the id and the inner balancer, so the
      partition keeps the order of the resource's commands. */
  lemma OnePartitionPerResource(sub: (string, seq<int>) -> int, id: string, c: Command, d: Command, partitions: seq<int>)
    ensures Balance(sub, KafkaKey(Message(id, c)), partitions) == Balance(sub, KafkaKey(Message(id, d)), partitions)
  {
    var long := id + ['/'] + RIGHTS_SUFFIX;
    var p := Cut(id, '/');
    if p.found {
      assert long == p.before + ['/'] + (p.after + ['/'] + RIGHTS_SUFFIX);
      CutAt(p.before, '/', p.after + ['/'] + RIGHTS_SUFFIX);
    } else {
      CutAt(id, '/', RIGHTS_SUFFIX);
    }
  }

  // ----- the log -----

  /** The messages of a kind's topic: resource commands with plain, non-empty ids. */
  ghost predicate Plain(log: seq<Message>) {
    forall i | 0 <= i < |log| :: log[i].id != "" && '/' !in log[i].id && FromResourceTopic(log[i].command)
  }

  /** Keep a message unless a later one has its key. */
  function Compact(log: seq<Message>): seq<Message> {
    if log == [] then []
    else if LastKeyed(log[1..], KafkaKey(log[0])).Some? then Compact(log[1..])
    else [log[0]] + Compact(log[1..])
  }

  /** A log from which compaction has dropped messages so far: only ones that have a later message of
      their key. */
  predicate Cleans(log: seq<Message>, cleaned: seq<Message>) {
    if log == [] then cleaned == []
    else
      || (cleaned != [] && cleaned[0] == log[0] && Cleans(log[1..], cleaned[1..]))
      || (LastKeyed(log[1..], KafkaKey(log[0])).Some? && Cleans(log[1..], cleaned))
  }

  function LastKeyed(log: seq<Message>, key: string): Option<Command> {
    if log == [] then None
    else
      match LastKeyed(log[1..], key)
      case Some(c) => Some(c)
      case None => if KafkaKey(log[0]) == key then Some(log[0].command) else None
  }

  /** The last command of any kind for a resource. */
  function LastOf(log: seq<Message>, id: string): Option<Command> {
    if log == [] then None
    else
      match LastOf(log[1..], id)
      case Some(c) => Some(c)
      case None => if log[0].id == id then Some(log[0].command) else None
  }

  /** For plain ids, keys coincide only within one resource and one class of commands. */
  lemma KeysApart(m: Message, id: string)
    requires '/' !in m.id && '/' !in id
    ensures KafkaKey(m) == id <==> m.id == id && !m.command.SetRights?
    ensures KafkaKey(m) == id + ['/'] + RIGHTS_SUFFIX <==> m.id == id && m.command.SetRights?
  {
    assert '/' in m.id + ['/'] + RIGHTS_SUFFIX by {
      assert (m.id + ['/'] + RIGHTS_SUFFIX)[|m.id|] == '/';
    }
    assert '/' in id + ['/'] + RIGHTS_SUFFIX by {
      assert (id + ['/'] + RIGHTS_SUFFIX)[|id|] == '/';
    }
    CutAt(m.id, '/', RIGHTS_SUFFIX);
    CutAt(id, '/', RIGHTS_SUFFIX);
  }

  lemma {:induction false} CleanedKeepsLastKeyed(log: seq<Message>, cleaned: seq<Message>, key: string)
    requires Cleans(log, cleaned)
    ensures LastKeyed(cleaned, key) == LastKeyed(log, key)
  {
    if log != [] {
      if cleaned != [] && cleaned[0] == log[0] && Cleans(log[1..], cleaned[1..]) {
        CleanedKeepsLastKeyed(log[1..], cleaned[1..], key);
      } else {
        CleanedKeepsLastKeyed(log[1..], cleaned, key);
      }
    }
  }

  /** Whoever has a keyed command has a last command. */
  lemma {:induction false} KeyedIsOf(log: seq<Message>, m: Message)
    requires Plain(log) && '/' !in m.id && LastKeyed(log, KafkaKey(m)).Some?
    ensures LastOf(log, m.id).Some?
  {
    KeysApart(log[0], m.id);
    if LastKeyed(log[1..], KafkaKey(m)).Some? {
      KeyedIsOf(log[1..], m);
    }
  }

  lemma {:induction false} CleanedKeepsLastOf(log: seq<Message>, cleaned: seq<Message>, id: string)
    requires Plain(log) && Cleans(log, cleaned)
    ensures Plain(cleaned) && LastOf(cleaned, id) == LastOf(log, id)
  {
    if log != [] {
      if cleaned != [] && cleaned[0] == log[0] && Cleans(log[1..], cleaned[1..]) {
        CleanedKeepsLastOf(log[1..], cleaned[1..], id);
        assert forall i | 0 < i < |cleaned| :: cleaned[i] == cleaned[1..][i - 1];
      } else {
        CleanedKeepsLastOf(log[1..], cleaned, id);
        KeyedIsOf(log[1..], log[0]);
      }
    }
  }

  lemma CleansNext(log: seq<Message>, cleaned: seq<Message>, m: Message)
    requires Cleans(log, cleaned)
    ensures Cleans([m] + log, [m] + cleaned)
    ensures LastKeyed(log, KafkaKey(m)).Some? ==> Cleans([m] + log, cleaned)
  {
    assert ([m] + log)[1..] == log && ([m] + cleaned)[1..] == cleaned;
  }

  /** Dropping all of them is one way; so is doing it to the older part of the log. */
  lemma {:induction false} CompactCleans(older: seq<Message>, newer: seq<Message>)
    ensures Cleans(older + newer, Compact(older) + newer)
    decreases |older|
  {
    if older == [] {
      assert older + newer == newer && Compact(older) + newer == newer;
      CleansItself(newer);
    } else {
      var m, log, cleaned := older[0], older[1..] + newer, Compact(older[1..]) + newer;
      CompactCleans(older[1..], newer);
      LastKeyedJoined(older[1..], newer, KafkaKey(m));
      CleansNext(log, cleaned, m);
      assert older + newer == [m] + log && [m] + Compact(older[1..]) + newer == [m] + cleaned;
    }
  }

  lemma {:induction false} CleansItself(log: seq<Message>)
    ensures Cleans(log, log)
  {
    if log != [] {
      CleansItself(log[1..]);
    }
  }

  lemma {:induction false} LastKeyedJoined(a: seq<Message>, b: seq<Message>, key: string)
    ensures LastKeyed(a + b, key) == if LastKeyed(b, key).Some? then LastKeyed(b, key) else LastKeyed(a, key)
  {
    if a == [] {
      assert a + b == b;
    } else {
      assert (a + b)[1..] == a[1..] + b;
      LastKeyedJoined(a[1..], b, key);
    }
  }

  lemma CompactCleansAll(log: seq<Message>)
    ensures Cleans(log, Compact(log))
  {
    CompactCleans(log, []);
    assert log + [] == log && Compact(log) + [] == Compact(log);
  }

  // ----- what a run over the log leaves of one resource -----

  /** The deliveries are one execution of the log's commands. */
  ghost predicate Delivers(config: Config, kind: string, vs: seq<Delivery>, log: seq<Message>) {
    && |vs| == |log|
    && forall i | 0 <= i < |log| ::
         vs[i].key == Key(kind, log[i].id) && vs[i].command == log[i].command && Valid(config, vs[i])
  }

  lemma {:induction false} Untouched(config: Config, kind: string, docs: Docs, vs: seq<Delivery>, log: seq<Message>, id: string)
    requires Delivers(config, kind, vs, log) && LastOf(log, id).None?
    ensures AllValid(config, vs)
    ensures var k, after := Key(kind, id), Fold(config, docs, vs);
            (k in after <==> k in docs) && (k in docs ==> after[k] == docs[k])
    decreases |log|
  {
    if log != [] {
      Untouched(config, kind, Deliver(config, docs, vs[0]), vs[1..], log[1..], id);
    }
  }

  /** The last PUT or DELETE decides whether the resource exists, and the last PUT its features. */
  lemma {:induction false} ExistenceAndFeatures(
    config: Config, kind: string, docs: Docs, vs: seq<Delivery>, log: seq<Message>, id: string)
    requires Plain(log) && '/' !in id && Delivers(config, kind, vs, log) && Filed(docs)
    ensures AllValid(config, vs)
    ensures var k, after := Key(kind, id), Fold(config, docs, vs);
            match LastKeyed(log, id)
            case Some(Put(features, _)) => k in after && after[k].features == features
            case Some(c) => c == Delete && k !in after
            case None => (k in after <==> k in docs) && (k in docs ==> after[k].features == docs[k].features)
    decreases |log|
  {
    if log != [] {
      KeysApart(log[0], id);
      ApplyKeepsFiled(docs, vs[0].key, vs[0].command, vs[0].orders, config);
      ExistenceAndFeatures(config, kind, Deliver(config, docs, vs[0]), vs[1..], log[1..], id);
    }
  }

  /** When the last command of an existing resource is RIGHTS, it decides who holds what. */
  lemma {:induction false} LastRightsDecide(
    config: Config, kind: string, docs: Docs, vs: seq<Delivery>, log: seq<Message>, id: string, rights: Rights, owner: string)
    requires Plain(log) && '/' !in id && Delivers(config, kind, vs, log) && Filed(docs)
    requires LastOf(log, id) == Some(SetRights(Some(rights), owner))
    requires AllValid(config, vs) && Key(kind, id) in Fold(config, docs, vs)
    ensures var d := Fold(config, docs, vs)[Key(kind, id)];
            Realizes(d.users, rights.users) && Realizes(d.groups, rights.groups)
    decreases |log|
  {
    var next := Deliver(config, docs, vs[0]);
    ApplyKeepsFiled(docs, vs[0].key, vs[0].command, vs[0].orders, config);
    if LastOf(log[1..], id).Some? {
      LastRightsDecide(config, kind, next, vs[1..], log[1..], id, rights, owner);
    } else {
      Untouched(config, kind, next, vs[1..], log[1..], id);
      RightedRealizes(docs[Key(kind, id)], rights, owner, vs[0].orders);
    }
  }

  // ----- rebuilding -----

  /** Both stores agree on the existence of a document, its features and who holds which right. */
  ghost predicate SameView(a: Docs, b: Docs, k: Key) {
    && (k in a <==> k in b)
    && (k in a ==> a[k].features == b[k].features
                   && a[k].users.SameHolders(b[k].users) && a[k].groups.SameHolders(b[k].groups))
  }

  predicate EndsWithRights(log: seq<Message>, id: string) {
    var c := LastOf(log, id);
    c.Some? && c.value.SetRights? && c.value.rights.Some?
  }

  /** The resource is gone, was never there, or had its rights set after its last PUT. */
  predicate Recoverable(log: seq<Message>, id: string) {
    || LastKeyed(log, id).None?
    || LastKeyed(log, id) == Some(Delete)
    || EndsWithRights(log, id)
  }

  /** Running the cleaned log into an empty store shows every recoverable resource as running the full
      log does. */
  lemma CleanedLogRebuilds(
    config: Config, kind: string, log: seq<Message>, cleaned: seq<Message>, full: seq<Delivery>, kept: seq<Delivery>,
    id: string)
    requires Plain(log) && Cleans(log, cleaned) && '/' !in id && Recoverable(log, id)
    requires Delivers(config, kind, full, log) && Delivers(config, kind, kept, cleaned)
    ensures AllValid(config, full) && AllValid(config, kept)
    ensures SameView(Fold(config, map[], full), Fold(config, map[], kept), Key(kind, id))
  {
    CleanedKeepsLastKeyed(log, cleaned, id);
    CleanedKeepsLastOf(log, cleaned, id);
    ExistenceAndFeatures(config, kind, map[], full, log, id);
    ExistenceAndFeatures(config, kind, map[], kept, cleaned, id);
    var k, a, b := Key(kind, id), Fold(config, map[], full), Fold(config, map[], kept);
    if k in a {
      var c := LastOf(log, id).value;
      LastRightsDecide(config, kind, map[], full, log, id, c.rights.value, c.owner);
      LastRightsDecide(config, kind, map[], kept, cleaned, id, c.rights.value, c.owner);
      SameRealization(a[k].users, b[k].users, c.rights.value.users);
      SameRealization(a[k].groups, b[k].groups, c.rights.value.groups);
    }
  }

  lemma SameRealization(a: Lists, b: Lists, m: map<string, Right>)
    requires Realizes(a, m) && Realizes(b, m)
    ensures a.SameHolders(b)
  {}

  // ----- the permission replay -----

  /** ReplayPermissionsOfResourceKind: one RIGHTS command per document, with the rights it has. */
  function Replay(docs: Docs, kind: string, ids: seq<string>): seq<Message>
    requires forall id | id in ids :: Key(kind, id) in docs
  {
    seq(|ids|, i requires 0 <= i < |ids| => Message(ids[i], SetRights(Some(ToRights(docs[Key(kind, ids[i])]).rights), "")))
  }

  lemma ExtractRealized(ls: Lists, m: Lists)
    requires Realizes(ls, Extract(m))
    ensures ls.SameHolders(m)
  {
    forall n, l ensures (n in Extract(m) && Extract(m)[n].Has(l)) <==> m.Holds(n, l) {
      assert n in Extract(m) <==> m.Holds(n, Admin) || m.Holds(n, Read) || m.Holds(n, Write) || m.Holds(n, Execute);
    }
  }

  /** Replaying the rights documents have changes nothing that is seen of them. */
  lemma {:induction false} ReplayKeepsView(
    config: Config, kind: string, origin: Docs, docs: Docs, vs: seq<Delivery>, ids: seq<string>)
    requires forall id | id in ids :: Key(kind, id) in origin
    requires Delivers(config, kind, vs, Replay(origin, kind, ids))
    requires forall k :: SameView(docs, origin, k)
    ensures AllValid(config, vs) && forall k :: SameView(Fold(config, docs, vs), origin, k)
    decreases |ids|
  {
    if ids != [] {
      var next := Deliver(config, docs, vs[0]);
      var k0 := Key(kind, ids[0]);
      assert Replay(origin, kind, ids)[1..] == Replay(origin, kind, ids[1..]);
      assert SameView(docs, origin, k0);
      var rights := ToRights(origin[k0]).rights;
      assert vs[0].command == SetRights(Some(rights), "");
      RightedRealizes(docs[k0], rights, "", vs[0].orders);
      if docs[k0].resource != "" {
        ExtractRealized(next[k0].users, origin[k0].users);
        ExtractRealized(next[k0].groups, origin[k0].groups);
      }
      forall k ensures SameView(next, origin, k) {
        assert SameView(docs, origin, k);
      }
      ReplayKeepsView(config, kind, origin, next, vs[1..], ids[1..]);
    }
  }

  lemma {:induction false} LastOfJoined(a: seq<Message>, b: seq<Message>, id: string)
    ensures LastOf(a + b, id) == if LastOf(b, id).Some? then LastOf(b, id) else LastOf(a, id)
  {
    if a == [] {
      assert a + b == b;
    } else {
      assert (a + b)[1..] == a[1..] + b;
      LastOfJoined(a[1..], b, id);
    }
  }

  lemma {:induction false} ReplayLast(docs: Docs, kind: string, ids: seq<string>, id: string)
    requires forall i | i in ids :: Key(kind, i) in docs && '/' !in i
    requires '/' !in id
    ensures LastKeyed(Replay(docs, kind, ids), id).None?
    ensures id in ids ==> EndsWithRights(Replay(docs, kind, ids), id)
    ensures id !in ids ==> LastOf(Replay(docs, kind, ids), id).None?
  {
    if ids != [] {
      var replay := Replay(docs, kind, ids);
      assert replay[1..] == Replay(docs, kind, ids[1..]);
      KeysApart(replay[0], id);
      ReplayLast(docs, kind, ids[1..], id);
    }
  }

  lemma {:induction false} FoldJoined(config: Config, docs: Docs, a: seq<Delivery>, b: seq<Delivery>)
    requires AllValid(config, a) && AllValid(config, b)
    ensures AllValid(config, a + b) && Fold(config, docs, a + b) == Fold(config, Fold(config, docs, a), b)
    decreases |a|
  {
    if a == [] {
      assert a + b == b;
    } else {
      assert (a + b)[1..] == a[1..] + b;
      FoldJoined(config, Deliver(config, docs, a[0]), a[1..], b);
    }
  }

  lemma ReplayedRecoverable(config: Config, kind: string, log: seq<Message>, full: seq<Delivery>, ids: seq<string>, id: string)
    requires Plain(log) && Delivers(config, kind, full, log) && AllValid(config, full) && '/' !in id
    requires forall i :: i in ids <==> Key(kind, i) in Fold(config, map[], full)
    requires forall i | i in ids :: '/' !in i
    ensures Recoverable(log + Replay(Fold(config, map[], full), kind, ids), id)
  {
    var docs := Fold(config, map[], full);
    LastOfJoined(log, Replay(docs, kind, ids), id);
    LastKeyedJoined(log, Replay(docs, kind, ids), id);
    ReplayLast(docs, kind, ids, id);
    ExistenceAndFeatures(config, kind, map[], full, log, id);
  }

  /** After a permission replay the cleaned log rebuilds, from nothing, everything that is seen of
      every resource of the kind. */
  lemma ReplayMakesRecoverable(
    config: Config, kind: string, log: seq<Message>, full: seq<Delivery>, docs: Docs, ids: seq<string>,
    replay: seq<Message>, replayed: seq<Delivery>, cleaned: seq<Message>, kept: seq<Delivery>, id: string)
    requires Plain(log) && Delivers(config, kind, full, log) && AllValid(config, full) && '/' !in id
    requires docs == Fold(config, map[], full)
    requires forall i :: i in ids <==> Key(kind, i) in docs
    requires forall i | i in ids :: i != "" && '/' !in i
    requires replay == Replay(docs, kind, ids)
    requires Cleans(log + replay, cleaned)
    requires Delivers(config, kind, replayed, replay) && Delivers(config, kind, kept, cleaned)
    ensures AllValid(config, kept)
    ensures SameView(docs, Fold(config, map[], kept), Key(kind, id))
  {
    ReplayedRecoverable(config, kind, log, full, ids, id);
    ReplayIsPlain(log, docs, kind, ids);
    DeliversJoined(config, kind, full, log, replayed, replay);
    CleanedLogRebuilds(config, kind, log + replay, cleaned, full + replayed, kept, id);
    ReplayedView(config, kind, full, docs, ids, replayed);
    SameViewJoins(docs, Fold(config, map[], full + replayed), Fold(config, map[], kept), Key(kind, id));
  }

  lemma ReplayIsPlain(log: seq<Message>, docs: Docs, kind: string, ids: seq<string>)
    requires Plain(log) && forall i | i in ids :: Key(kind, i) in docs && i != "" && '/' !in i
    ensures Plain(log + Replay(docs, kind, ids))
  {
    var replay := Replay(docs, kind, ids);
    forall i | 0 <= i < |replay| ensures replay[i].id != "" && '/' !in replay[i].id && replay[i].command.SetRights? {
      assert replay[i].id == ids[i] && ids[i] in ids;
    }
  }

  lemma DeliversJoined(config: Config, kind: string, vs: seq<Delivery>, log: seq<Message>, ws: seq<Delivery>, more: seq<Message>)
    requires Delivers(config, kind, vs, log) && Delivers(config, kind, ws, more)
    ensures Delivers(config, kind, vs + ws, log + more)
  {}

  lemma ReplayedView(config: Config, kind: string, full: seq<Delivery>, docs: Docs, ids: seq<string>, replayed: seq<Delivery>)
    requires AllValid(config, full) && docs == Fold(config, map[], full)
    requires forall id | id in ids :: Key(kind, id) in docs
    requires Delivers(config, kind, replayed, Replay(docs, kind, ids))
    ensures AllValid(config, full + replayed)
    ensures forall k :: SameView(Fold(config, map[], full + replayed), docs, k)
  {
    ReplayKeepsView(config, kind, docs, docs, replayed, ids);
    FoldJoined(config, map[], full, replayed);
  }

  lemma SameViewJoins(a: Docs, b: Docs, c: Docs, k: Key)
    requires SameView(b, a, k) && SameView(b, c, k)
    ensures SameView(a, c, k)
  {}

  // ----- what compaction loses -----

  predicate NoRepeatedKeys(log: seq<Message>) {
    log == [] || (LastKeyed(log[1..], KafkaKey(log[0])).None? && NoRepeatedKeys(log[1..]))
  }

  lemma {:induction false} CompactHasNoRepeats(log: seq<Message>)
    ensures NoRepeatedKeys(Compact(log))
  {
    if log != [] {
      CompactHasNoRepeats(log[1..]);
      CompactCleansAll(log[1..]);
      CleanedKeepsLastKeyed(log[1..], Compact(log[1..]), KafkaKey(log[0]));
      if LastKeyed(log[1..], KafkaKey(log[0])).None? {
        assert Compact(log)[1..] == Compact(log[1..]);
      }
    }
  }

  /** With each key at most once and no PUT or DELETE left, a RIGHTS without rights is all there can
      be, and it changes nothing. */
  lemma {:induction false} NothingLeft(config: Config, kind: string, docs: Docs, vs: seq<Delivery>, log: seq<Message>, id: string)
    requires Plain(log) && '/' !in id && NoRepeatedKeys(log) && Delivers(config, kind, vs, log) && AllValid(config, vs)
    requires LastKeyed(log, id).None? && !EndsWithRights(log, id) && Key(kind, id) in docs
    ensures var k, after := Key(kind, id), Fold(config, docs, vs); k in after && after[k] == docs[k]
    decreases |log|
  {
    if log != [] {
      KeysApart(log[0], id);
      if log[0].id == id && LastOf(log[1..], id).Some? {
        RightsKeyed(log[1..], id);
      }
      NothingLeft(config, kind, Deliver(config, docs, vs[0]), vs[1..], log[1..], id);
    }
  }

  lemma {:induction false} RightsKeyed(log: seq<Message>, id: string)
    requires Plain(log) && '/' !in id && LastKeyed(log, id).None? && LastOf(log, id).Some?
    ensures LastKeyed(log, id + ['/'] + RIGHTS_SUFFIX).Some?
  {
    KeysApart(log[0], id);
    if LastOf(log[1..], id).Some? {
      RightsKeyed(log[1..], id);
    }
  }

  /** A resource that is not recoverable comes back with the permissions a new one of the last PUT's
      owner would get, whatever rights it had. */
  lemma UnrecoverableGetsDefaults(config: Config, kind: string, log: seq<Message>, kept: seq<Delivery>, id: string)
    requires Plain(log) && '/' !in id && !Recoverable(log, id)
    requires Delivers(config, kind, kept, Compact(log)) && AllValid(config, kept)
    ensures LastKeyed(log, id).value.Put?
    ensures var k, after := Key(kind, id), Fold(config, map[], kept);
            k in after && exists ranging :: DefaultsFor(config, kind, LastKeyed(log, id).value.owner, ranging, after[k])
  {
    CompactCleansAll(log);
    CleanedKeepsLastKeyed(log, Compact(log), id);
    CleanedKeepsLastOf(log, Compact(log), id);
    CompactHasNoRepeats(log);
    ExistenceAndFeatures(config, kind, map[], kept, Compact(log), id);
    CreatedOnce(config, kind, map[], kept, Compact(log), id);
  }

  ghost predicate DefaultsFor(config: Config, kind: string, owner: string, ranging: Ranging, d: Doc) {
    && RangesOver(ranging, InitialGroups(config, kind).Keys)
    && d.users == OwnerLists(NOBODY, owner) && d.groups == AddInitial(InitialGroups(config, kind), ranging)
  }

  lemma {:induction false} CreatedOnce(config: Config, kind: string, docs: Docs, vs: seq<Delivery>, log: seq<Message>, id: string)
    requires Plain(log) && '/' !in id && NoRepeatedKeys(log) && Delivers(config, kind, vs, log) && AllValid(config, vs)
    requires Key(kind, id) !in docs && LastKeyed(log, id).Some? && LastKeyed(log, id).value.Put? && !EndsWithRights(log, id)
    ensures var k, after := Key(kind, id), Fold(config, docs, vs);
            k in after && exists ranging :: DefaultsFor(config, kind, LastKeyed(log, id).value.owner, ranging, after[k])
    decreases |log|
  {
    KeysApart(log[0], id);
    var next := Deliver(config, docs, vs[0]);
    if log[0].id == id && log[0].command.Put? {
      NothingLeft(config, kind, next, vs[1..], log[1..], id);
      assert DefaultsFor(config, kind, log[0].command.owner, vs[0].orders.initial, next[Key(kind, id)]);
    } else {
      KeyedIsOf(log[1..], Message(id, LastKeyed(log, id).value));
      CreatedOnce(config, kind, next, vs[1..], log[1..], id);
    }
  }

  // ----- exactly what compaction keeps -----

  /** The log with the resources' addresses. */
  function Addressed(kind: string, log: seq<Message>): seq<Received> {
    seq(|log|, i requires 0 <= i < |log| => Received(Key(kind, log[i].id), log[i].command))
  }

  /** What running a log from nothing leaves to be seen of a resource. */
  function Rebuilt(kind: string, log: seq<Message>, id: string): View {
    ViewAfter(Gone, Addressed(kind, log), Key(kind, id))
  }

  lemma AddressedNext(kind: string, log: seq<Message>)
    requires log != []
    ensures Addressed(kind, log)[0] == Received(Key(kind, log[0].id), log[0].command)
    ensures Addressed(kind, log)[1..] == Addressed(kind, log[1..])
  {}

  lemma DeliversExecutes(config: Config, kind: string, vs: seq<Delivery>, log: seq<Message>)
    requires Plain(log)
    ensures Delivers(config, kind, vs, log) <==> Executes(config, vs, Addressed(kind, log))
    ensures Resourceful(Addressed(kind, log))
  {}

  /** Existence and features are those of the last PUT or DELETE; nothing annotates a rebuilt document. */
  lemma {:induction false} ViewExistence(kind: string, log: seq<Message>, id: string, w: View)
    requires Plain(log) && '/' !in id && (w.Present? ==> w.annotations == map[])
    ensures var w' := ViewAfter(w, Addressed(kind, log), Key(kind, id));
      match LastKeyed(log, id)
      case Some(Put(features, _)) => w'.Present? && w'.features == features && w'.annotations == map[]
      case Some(c) => c == Delete && w' == Gone
      case None => if w.Gone? then w' == Gone else w'.Present? && w'.features == w.features && w'.annotations == map[]
    decreases |log|
  {
    if log != [] {
      AddressedNext(kind, log);
      KeysApart(log[0], id);
      ViewExistence(kind, log[1..], id, Receive(w, Addressed(kind, log)[0], Key(kind, id)));
    }
  }

  /** Rights that come last are the rights. */
  lemma {:induction false} ViewLastRights(kind: string, log: seq<Message>, id: string, w: View)
    requires EndsWithRights(log, id) && ViewAfter(w, Addressed(kind, log), Key(kind, id)).Present?
    ensures ViewAfter(w, Addressed(kind, log), Key(kind, id)).rights == Granted(LastOf(log, id).value.rights.value)
    decreases |log|
  {
    AddressedNext(kind, log);
    var next := Receive(w, Addressed(kind, log)[0], Key(kind, id));
    if LastOf(log[1..], id).Some? {
      ViewLastRights(kind, log[1..], id, next);
    } else {
      ViewUntouched(kind, log[1..], id, next);
    }
  }

  lemma {:induction false} ViewUntouched(kind: string, log: seq<Message>, id: string, w: View)
    requires LastOf(log, id).None?
    ensures ViewAfter(w, Addressed(kind, log), Key(kind, id)) == w
    decreases |log|
  {
    if log != [] {
      AddressedNext(kind, log);
      ViewUntouched(kind, log[1..], id, w);
    }
  }

  /** With each key at most once and no PUT or DELETE, a document keeps its rights unless the log ends
      with rights. */
  lemma {:induction false} OnlyRightsLeft(kind: string, log: seq<Message>, id: string, w: View)
    requires Plain(log) && '/' !in id && NoRepeatedKeys(log) && LastKeyed(log, id).None? && w.Present?
    requires !EndsWithRights(log, id)
    ensures ViewAfter(w, Addressed(kind, log), Key(kind, id)) == w
    decreases |log|
  {
    if log != [] {
      AddressedNext(kind, log);
      KeysApart(log[0], id);
      if log[0].id == id && LastOf(log[1..], id).Some? {
        RightsKeyed(log[1..], id);
      }
      OnlyRightsLeft(kind, log[1..], id, w);
    }
  }

  /** What a log without repeated keys rebuilds: nothing without a PUT, else its rights if they come
      last, and the defaults of its one PUT if they do not. */
  lemma {:induction false} UnrepeatedView(kind: string, log: seq<Message>, id: string)
    requires Plain(log) && '/' !in id && NoRepeatedKeys(log)
    requires LastKeyed(log, id).Some? && LastKeyed(log, id).value.Put?
    ensures var w := Rebuilt(kind, log, id);
      w.Present? && w.rights == if EndsWithRights(log, id) then Granted(LastOf(log, id).value.rights.value)
                                else Defaults(LastKeyed(log, id).value.owner)
    decreases |log|
  {
    ViewExistence(kind, log, id, Gone);
    if EndsWithRights(log, id) {
      ViewLastRights(kind, log, id, Gone);
    } else {
      AddressedNext(kind, log);
      KeysApart(log[0], id);
      if log[0].id == id && log[0].command.Put? {
        OnlyRightsLeft(kind, log[1..], id, Receive(Gone, Addressed(kind, log)[0], Key(kind, id)));
      } else {
        KeyedIsOf(log[1..], Message(id, LastKeyed(log, id).value));
        UnrepeatedView(kind, log[1..], id);
      }
    }
  }

  predicate SameGrants(a: map<string, Right>, b: map<string, Right>) {
    forall n | n in a.Keys + b.Keys :: (if n in a then a[n] else NO_RIGHT) == (if n in b then b[n] else NO_RIGHT)
  }

  /** Rights from the one source come out as rights from the other, in whatever way the configured groups
      are added. */
  ghost predicate SourceSurvives(config: Config, k: Key, full: Source, kept: Source) {
    match (full, kept)
    case (Granted(a), Granted(b)) => SameGrants(a.users, b.users) && SameGrants(a.groups, b.groups)
    case (Granted(rights), Defaults(owner)) =>
      forall ranging | RangesOver(ranging, InitialGroups(config, k.kind).Keys) ::
        DefaultsRealize(config, k, owner, rights, ranging)
    case (Defaults(owner), Granted(rights)) => DefaultsGrant(config, k, owner, rights)
    case _ => full == kept
  }

  /** The full log leaves nothing, or rights that survive. */
  ghost predicate RightsSurvive(config: Config, kind: string, log: seq<Message>, cleaned: seq<Message>, id: string) {
    var full, kept := Rebuilt(kind, log, id), Rebuilt(kind, cleaned, id);
    full.Present? ==> kept.Present? && SourceSurvives(config, Key(kind, id), full.rights, kept.rights)
  }

  /** The rebuilt document has the existence, features and rights that the full log gives. */
  ghost predicate RebuildShows(config: Config, kind: string, log: seq<Message>, id: string, kept: seq<Delivery>) {
    AllValid(config, kept) && Shows(config, Key(kind, id), map[], Rebuilt(kind, log, id), Fold(config, map[], kept))
  }

  /** Both logs leave the same existence and features. */
  lemma CleanedView(kind: string, log: seq<Message>, cleaned: seq<Message>, id: string)
    requires Plain(log) && Cleans(log, cleaned) && '/' !in id
    ensures var full, kept := Rebuilt(kind, log, id), Rebuilt(kind, cleaned, id);
      if full.Gone? then kept.Gone?
      else kept.Present? && kept.features == full.features && kept.annotations == full.annotations == map[]
           && !full.rights.Original? && !kept.rights.Original?
  {
    CleanedKeepsLastKeyed(log, cleaned, id);
    CleanedKeepsLastOf(log, cleaned, id);
    ViewExistence(kind, log, id, Gone);
    ViewExistence(kind, cleaned, id, Gone);
    NeverOriginal(kind, log, id, Gone);
    NeverOriginal(kind, cleaned, id, Gone);
  }

  lemma {:induction false} NeverOriginal(kind: string, log: seq<Message>, id: string, w: View)
    requires w.Present? ==> !w.rights.Original?
    ensures var w' := ViewAfter(w, Addressed(kind, log), Key(kind, id)); w'.Present? ==> !w'.rights.Original?
    decreases |log|
  {
    if log != [] {
      AddressedNext(kind, log);
      NeverOriginal(kind, log[1..], id, Receive(w, Addressed(kind, log)[0], Key(kind, id)));
    }
  }

  /** What an execution of the cleaned log shows. */
  lemma CleanedShown(
    config: Config, kind: string, log: seq<Message>, cleaned: seq<Message>, id: string, kept: seq<Delivery>,
    initial: Ranging)
    returns (ranging: Ranging)
    requires Plain(log) && Cleans(log, cleaned) && '/' !in id && Delivers(config, kind, kept, cleaned)
    requires RangesOver(initial, InitialGroups(config, kind).Keys)
    ensures AllValid(config, kept)
    ensures ShowsIn(config, Key(kind, id), map[], Rebuilt(kind, cleaned, id), Fold(config, map[], kept), ranging)
    ensures (forall i | 0 <= i < |kept| :: kept[i].orders.initial == initial) ==> ranging == initial
  {
    CleanedKeepsLastOf(log, cleaned, id);
    DeliversExecutes(config, kind, kept, cleaned);
    ranging := ExecutionShown(config, map[], Gone, map[], Addressed(kind, cleaned), kept, Key(kind, id), initial);
  }

  /** For every log, every way in which compaction may have cleaned it and every resource: every rebuild
      from the cleaned log has the existence, features and rights that the full log gives, exactly when
      the rights survive. */
  lemma RebuildsExactly(config: Config, kind: string, log: seq<Message>, cleaned: seq<Message>, id: string)
    requires Plain(log) && Cleans(log, cleaned) && '/' !in id
    ensures (forall kept | Delivers(config, kind, kept, cleaned) :: RebuildShows(config, kind, log, id, kept))
       <==> RightsSurvive(config, kind, log, cleaned, id)
  {
    if RightsSurvive(config, kind, log, cleaned, id) {
      forall kept | Delivers(config, kind, kept, cleaned) ensures RebuildShows(config, kind, log, id, kept) {
        SurvivingShown(config, kind, log, cleaned, id, kept);
      }
    } else {
      var kept := LostRebuild(config, kind, log, cleaned, id);
    }
  }

  lemma SurvivingShown(
    config: Config, kind: string, log: seq<Message>, cleaned: seq<Message>, id: string, kept: seq<Delivery>)
    requires Plain(log) && Cleans(log, cleaned) && '/' !in id && RightsSurvive(config, kind, log, cleaned, id)
    requires Delivers(config, kind, kept, cleaned)
    ensures RebuildShows(config, kind, log, id, kept)
  {
    CleanedView(kind, log, cleaned, id);
    var k, full, left := Key(kind, id), Rebuilt(kind, log, id), Rebuilt(kind, cleaned, id);
    var docs := Fold(config, map[], kept);
    var ranging := CleanedShown(config, kind, log, cleaned, id, kept, ARanging(InitialGroups(config, kind).Keys));
    if full.Present? && full.rights.Defaults? && left.rights.Granted? {
      ranging :| RangesOver(ranging, InitialGroups(config, kind).Keys)
        && DefaultsRealize(config, k, full.rights.owner, left.rights.rights, ranging);
    } else if full.Present? && full.rights.Granted? && left.rights.Granted? {
      SameGrantsRealize(full.rights.rights.users, left.rights.rights.users, docs[k].users);
      SameGrantsRealize(full.rights.rights.groups, left.rights.rights.groups, docs[k].groups);
    }
    assert ShowsIn(config, k, map[], full, docs, ranging);
  }

  lemma SameGrantsRealize(a: map<string, Right>, b: map<string, Right>, ls: Lists)
    requires Realizes(ls, b)
    ensures Realizes(ls, a) <==> SameGrants(a, b)
  {
    if SameGrants(a, b) {
      forall n, l ensures ls.Holds(n, l) <==> n in a && a[n].Has(l) {
        assert n in a.Keys + b.Keys || (n !in a && n !in b);
      }
    } else {
      var n :| n in a.Keys + b.Keys && (if n in a then a[n] else NO_RIGHT) != (if n in b then b[n] else NO_RIGHT);
      var l := WhereDifferent(if n in a then a[n] else NO_RIGHT, if n in b then b[n] else NO_RIGHT);
      assert ls.Holds(n, l) <==> n in b && b[n].Has(l);
    }
  }

  lemma WhereDifferent(r: Right, s: Right) returns (l: Letter)
    requires r != s
    ensures r.Has(l) != s.Has(l)
  {
    l := if r.administrate != s.administrate then Admin else if r.read != s.read then Read
         else if r.write != s.write then Write else Execute;
  }

  /** Where they do not survive, some rebuild lacks them. */
  lemma LostRebuild(config: Config, kind: string, log: seq<Message>, cleaned: seq<Message>, id: string)
    returns (kept: seq<Delivery>)
    requires Plain(log) && Cleans(log, cleaned) && '/' !in id && !RightsSurvive(config, kind, log, cleaned, id)
    ensures Delivers(config, kind, kept, cleaned) && AllValid(config, kept)
    ensures !RebuildShows(config, kind, log, id, kept)
  {
    CleanedView(kind, log, cleaned, id);
    CleanedKeepsLastOf(log, cleaned, id);
    var k, full, left := Key(kind, id), Rebuilt(kind, log, id).rights, Rebuilt(kind, cleaned, id).rights;
    var initial := ARanging(InitialGroups(config, kind).Keys);
    if full.Granted? && left.Defaults? {
      initial :| RangesOver(initial, InitialGroups(config, kind).Keys)
        && !DefaultsRealize(config, k, left.owner, full.rights, initial);
    }
    kept := Execution(config, Addressed(kind, cleaned), kind, initial);
    DeliversExecutes(config, kind, kept, cleaned);
    var ranging := CleanedShown(config, kind, log, cleaned, id, kept, initial);
    NotFrom(config, k, full, left, Fold(config, map[], kept)[k], initial);
  }

  /** Rights from one source that do not survive are not those of the other. */
  lemma NotFrom(config: Config, k: Key, full: Source, left: Source, d: Doc, ranging: Ranging)
    requires RangesOver(ranging, InitialGroups(config, k.kind).Keys)
    requires !full.Original? && !left.Original? && RightsFrom(config, k, map[], left, d, ranging)
    requires !SourceSurvives(config, k, full, left)
    requires full.Granted? && left.Defaults? ==> !DefaultsRealize(config, k, left.owner, full.rights, ranging)
    ensures forall other | RangesOver(other, InitialGroups(config, k.kind).Keys) ::
      !RightsFrom(config, k, map[], full, d, other)
  {
    forall other | RangesOver(other, InitialGroups(config, k.kind).Keys)
      ensures !RightsFrom(config, k, map[], full, d, other)
    {
      match (full, left)
      case (Granted(a), Granted(b)) =>
        SameGrantsRealize(a.users, b.users, d.users);
        SameGrantsRealize(a.groups, b.groups, d.groups);
      case (Granted(rights), Defaults(owner)) =>
      case (Defaults(owner), Granted(rights)) =>
        assert !DefaultsRealize(config, k, owner, rights, other);
      case (Defaults(a), Defaults(b)) =>
        OwnersDiffer(a, b, d.users);
    }
  }

  /** Default users tell their owner. */
  lemma OwnersDiffer(a: string, b: string, users: Lists)
    requires a != b && users.SameHolders(OwnerLists(NOBODY, b))
    ensures !users.SameHolders(OwnerLists(NOBODY, a))
  {
    var owner := if a != "" then a else b;
    assert OwnerLists(NOBODY, a).Holds(owner, Admin) != OwnerLists(NOBODY, b).Holds(owner, Admin);
  }

  /** The loss is seen against every run of the full log. */
  lemma LossIsSeen(config: Config, kind: string, log: seq<Message>, cleaned: seq<Message>, id: string)
    returns (kept: seq<Delivery>)
    requires Plain(log) && Cleans(log, cleaned) && '/' !in id && !RightsSurvive(config, kind, log, cleaned, id)
    ensures Delivers(config, kind, kept, cleaned) && AllValid(config, kept)
    ensures forall full | Delivers(config, kind, full, log) && AllValid(config, full) ::
      !SameView(Fold(config, map[], full), Fold(config, map[], kept), Key(kind, id))
  {
    kept := LostRebuild(config, kind, log, cleaned, id);
    CleanedView(kind, log, cleaned, id);
    var initial := ARanging(InitialGroups(config, kind).Keys);
    var k, b := Key(kind, id), Fold(config, map[], kept);
    var _ := CleanedShown(config, kind, log, cleaned, id, kept, initial);
    forall full | Delivers(config, kind, full, log) && AllValid(config, full)
      ensures !SameView(Fold(config, map[], full), b, k)
    {
      DeliversExecutes(config, kind, full, log);
      var ranging := ExecutionShown(config, map[], Gone, map[], Addressed(kind, log), full, k, initial);
      if SameView(Fold(config, map[], full), b, k) {
        assert ShowsIn(config, k, map[], Rebuilt(kind, log, id), b, ranging);
      }
    }
  }

  // ----- logs cleaned in full or up to some point -----

  /** Where a document's rights come from when the log has been compacted in full: the rights that come
      last, or the defaults of the last PUT. */
  function CompactedSource(log: seq<Message>, id: string): Source {
    if EndsWithRights(log, id) then Granted(LastOf(log, id).value.rights.value)
    else
      match LastKeyed(log, id)
      case Some(Put(_, owner)) => Defaults(owner)
      case _ => Original
  }

  lemma CompactedView(kind: string, log: seq<Message>, id: string)
    requires Plain(log) && '/' !in id && Rebuilt(kind, log, id).Present?
    ensures var full, kept := Rebuilt(kind, log, id), Rebuilt(kind, Compact(log), id);
      && kept.Present? && kept.rights == CompactedSource(log, id)
      && (kept.rights.Granted? ==> full.rights == kept.rights)
  {
    CompactCleansAll(log);
    CleanedKeepsLastKeyed(log, Compact(log), id);
    CleanedKeepsLastOf(log, Compact(log), id);
    CompactHasNoRepeats(log);
    CleanedView(kind, log, Compact(log), id);
    ViewExistence(kind, log, id, Gone);
    UnrepeatedView(kind, Compact(log), id);
    if EndsWithRights(log, id) { ViewLastRights(kind, log, id, Gone); }
  }

  /** The cleaner works its way from the older messages to the newer: every rebuild has what the full log
      gives exactly when the newer messages delete the resource or set its rights, or its rights survive
      in the compacted older part. */
  lemma PartlyCompactedExactly(config: Config, kind: string, older: seq<Message>, newer: seq<Message>, id: string)
    requires Plain(older) && Plain(newer) && '/' !in id
    ensures (forall kept | Delivers(config, kind, kept, Compact(older) + newer) ::
              RebuildShows(config, kind, older + newer, id, kept))
       <==> var later, k := Addressed(kind, newer), Key(kind, id);
            HasDelete(later, k) || LastRights(later, k).Some? || RightsSurvive(config, kind, older, Compact(older), id)
  {
    CompactCleans(older, newer);
    RebuildsExactly(config, kind, older + newer, Compact(older) + newer, id);
    CompactCleansAll(older);
    CleanedView(kind, older, Compact(older), id);
    RebuiltJoined(kind, older, newer, id);
    RebuiltJoined(kind, Compact(older), newer, id);
    var later, k := Addressed(kind, newer), Key(kind, id);
    var a, b := Rebuilt(kind, older, id), Rebuilt(kind, Compact(older), id);
    if HasDelete(later, k) {
      DeleteForgets(a, b, later, k);
      NeverOriginal(kind, older + newer, id, Gone);
    } else if a.Gone? {
      NeverOriginal(kind, older + newer, id, Gone);
    } else {
      PresentAfter(a, later, k);
      PresentAfter(b, later, k);
    }
  }

  lemma RebuiltJoined(kind: string, a: seq<Message>, b: seq<Message>, id: string)
    ensures Rebuilt(kind, a + b, id) == ViewAfter(Rebuilt(kind, a, id), Addressed(kind, b), Key(kind, id))
  {
    assert Addressed(kind, a + b) == Addressed(kind, a) + Addressed(kind, b);
    ViewJoined(Gone, Addressed(kind, a), Addressed(kind, b), Key(kind, id));
  }

  /** A PUT after the RIGHTS: compaction keeps the later PUT, and bob's rights are set on no document. */
  const REPUT := [
    Message("d1", Put(map[], "ann")),
    Message("d1", SetRights(Some(BOB_ONLY), "")),
    Message("d1", Put(map[], "ann"))]

  /** Two PUTs of different owners: compaction keeps the second, whose owner never had rights. */
  const TWO_OWNERS := [Message("d1", Put(map[], "ann")), Message("d1", Put(map[], "bob"))]

  /** Both lose rights, whatever the configuration. */
  lemma LosingLogs(config: Config)
    ensures Plain(REPUT) && !RightsSurvive(config, "devices", REPUT, Compact(REPUT), "d1")
    ensures Plain(TWO_OWNERS) && !RightsSurvive(config, "devices", TWO_OWNERS, Compact(TWO_OWNERS), "d1")
  {
    LosingReput(config);
    LosingOwners(config);
  }

  lemma LosingReput(config: Config)
    ensures !RightsSurvive(config, "devices", REPUT, Compact(REPUT), "d1")
  {
    var k, log := Key("devices", "d1"), Addressed("devices", REPUT);
    var ann := Present(map[], map[], Defaults("ann"), "ann");
    var bob := ann.(rights := Granted(BOB_ONLY));
    assert Receive(Gone, log[0], k) == ann && Receive(ann, log[1], k) == bob && Receive(bob, log[2], k) == bob;
    assert ViewAfter(ann, log[1..], k) == ViewAfter(bob, log[2..], k) by { assert log[1..][1..] == log[2..]; }
    assert ViewAfter(bob, log[2..], k) == bob by { assert log[2..][1..] == []; }
    assert LastKeyed(REPUT[2..], "d1") == Some(Put(map[], "ann")) == LastOf(REPUT[2..], "d1") by {
      assert REPUT[2..][1..] == [];
    }
    assert LastKeyed(REPUT[1..], "d1") == Some(Put(map[], "ann")) == LastOf(REPUT[1..], "d1") by {
      assert REPUT[1..][1..] == REPUT[2..];
    }
    assert CompactedSource(REPUT, "d1") == Defaults("ann");
    assert Plain(REPUT);
    CompactedView("devices", REPUT, "d1");
    var ranging := ARanging(InitialGroups(config, "devices").Keys);
    assert OwnerLists(NOBODY, "ann").Holds("ann", Admin) && "ann" !in BOB_ONLY.users;
    assert !DefaultsRealize(config, k, "ann", BOB_ONLY, ranging);
  }

  lemma LosingOwners(config: Config)
    ensures !RightsSurvive(config, "devices", TWO_OWNERS, Compact(TWO_OWNERS), "d1")
  {
    var k, log := Key("devices", "d1"), Addressed("devices", TWO_OWNERS);
    var ann := Present(map[], map[], Defaults("ann"), "ann");
    assert Receive(Gone, log[0], k) == ann && Receive(ann, log[1], k) == ann;
    assert ViewAfter(ann, log[1..], k) == ann by { assert log[1..][1..] == []; }
    assert LastKeyed(TWO_OWNERS[1..], "d1") == Some(Put(map[], "bob")) == LastOf(TWO_OWNERS[1..], "d1") by {
      assert TWO_OWNERS[1..][1..] == [];
    }
    assert CompactedSource(TWO_OWNERS, "d1") == Defaults("bob");
    assert Plain(TWO_OWNERS);
    CompactedView("devices", TWO_OWNERS, "d1");
  }

  /** Recoverable resources are among those whose rights survive, however the log was cleaned. */
  lemma RecoverableSurvives(config: Config, kind: string, log: seq<Message>, cleaned: seq<Message>, id: string)
    requires Plain(log) && Cleans(log, cleaned) && '/' !in id && Recoverable(log, id)
    ensures RightsSurvive(config, kind, log, cleaned, id)
  {
    CleanedView(kind, log, cleaned, id);
    CleanedKeepsLastOf(log, cleaned, id);
    ViewExistence(kind, log, id, Gone);
    if Rebuilt(kind, log, id).Present? {
      ViewLastRights(kind, log, id, Gone);
      ViewLastRights(kind, cleaned, id, Gone);
    }
  }
}
