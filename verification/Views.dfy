/** What is seen of one resource after its PUT, RIGHTS and DELETE commands: its features and
    annotations, where its rights come from and who is known to have created it.

    Unlike a document, a view does not depend on the order in which maps are ranged over. */
module Views {
  import opened GoStrings
  import opened Model
  import opened Commands

  datatype Received = Received(key: Key, command: Command)

  /** Where the rights of a document come from: it had them at the start, a PUT created it with the
      defaults of its owner, or a RIGHTS set them. */
  datatype Source = Original | Defaults(owner: string) | Granted(rights: Rights)

  /** An empty creator stands for one that is not known. */
  datatype View = Gone | Present(features: Fields, annotations: Fields, rights: Source, creator: string)

  function Step(w: View, c: Command): View {
    match c
    case Put(features, owner) =>
      if w.Gone? then Present(features, map[], Defaults(owner), owner) else w.(features := features)
    case SetRights(Some(rights), _) => if w.Gone? then Gone else w.(rights := Granted(rights))
    case Delete => Gone
    case _ => w
  }

  function Receive(w: View, m: Received, k: Key): View {
    if m.key == k then Step(w, m.command) else w
  }

  function ViewAfter(w: View, log: seq<Received>, k: Key): View
    decreases |log|
  {
    if log == [] then w else ViewAfter(Receive(w, log[0], k), log[1..], k)
  }

  function ViewOf(docs: Docs, k: Key): View {
    if k in docs then Present(docs[k].features, docs[k].annotations, Original, docs[k].creator) else Gone
  }

  lemma {:induction false} ViewJoined(w: View, a: seq<Received>, b: seq<Received>, k: Key)
    ensures ViewAfter(w, a + b, k) == ViewAfter(ViewAfter(w, a, k), b, k)
    decreases |a|
  {
    if a == [] {
      assert a + b == b;
    } else {
      assert (a + b)[1..] == a[1..] + b;
      ViewJoined(Receive(w, a[0], k), a[1..], b, k);
    }
  }

  // ----- documents that show a view -----

  /** The lists grant exactly what the map says. */
  ghost predicate Realizes(ls: Lists, m: map<string, Right>) {
    forall n, l :: ls.Holds(n, l) <==> n in m && m[n].Has(l)
  }

  /** The rights of a document as their source gives them; the order is one in which the configured
      groups may be ranged over. */
  ghost predicate RightsFrom(config: Config, k: Key, start: Docs, source: Source, d: Doc, ranging: Ranging)
    requires RangesOver(ranging, InitialGroups(config, k.kind).Keys)
  {
    match source
    case Original => k in start && d.users.SameHolders(start[k].users) && d.groups.SameHolders(start[k].groups)
    case Granted(rights) => Realizes(d.users, rights.users) && Realizes(d.groups, rights.groups)
    case Defaults(owner) =>
      && d.users.SameHolders(OwnerLists(NOBODY, owner))
      && d.groups.SameHolders(AddInitial(InitialGroups(config, k.kind), ranging))
  }

  /** The defaults of the owner, with the groups ranged over in this order, are exactly these rights. */
  ghost predicate DefaultsRealize(config: Config, k: Key, owner: string, rights: Rights, ranging: Ranging)
    requires RangesOver(ranging, InitialGroups(config, k.kind).Keys)
  {
    && Realizes(OwnerLists(NOBODY, owner), rights.users)
    && Realizes(AddInitial(InitialGroups(config, k.kind), ranging), rights.groups)
  }

  /** Some way of adding the configured groups gives a new document of the owner exactly these rights. */
  ghost predicate DefaultsGrant(config: Config, k: Key, owner: string, rights: Rights) {
    exists ranging ::
      RangesOver(ranging, InitialGroups(config, k.kind).Keys) && DefaultsRealize(config, k, owner, rights, ranging)
  }

  ghost predicate ShowsIn(config: Config, k: Key, start: Docs, w: View, docs: Docs, ranging: Ranging) {
    && RangesOver(ranging, InitialGroups(config, k.kind).Keys)
    && match w
       case Gone => k !in docs
       case Present(features, annotations, rights, _) =>
         && k in docs && docs[k].features == features && docs[k].annotations == annotations
         && RightsFrom(config, k, start, rights, docs[k], ranging)
  }

  /** The document has the view's features, annotations and rights; default rights are those of some
      order of the configured groups. */
  ghost predicate Shows(config: Config, k: Key, start: Docs, w: View, docs: Docs) {
    exists ranging :: ShowsIn(config, k, start, w, docs, ranging)
  }

  predicate ShowsCreator(k: Key, w: View, docs: Docs) {
    w.Present? && w.creator != "" ==> k in docs && docs[k].creator == w.creator
  }

  /** The deliveries are one execution of the log's commands. */
  ghost predicate Executes(config: Config, vs: seq<Delivery>, log: seq<Received>) {
    && |vs| == |log|
    && forall i | 0 <= i < |log| :: vs[i].key == log[i].key && vs[i].command == log[i].command && Valid(config, vs[i])
  }

  /** The messages of resource topics; a message without id is dropped before it is handled. */
  predicate Resourceful(log: seq<Received>) {
    forall i | 0 <= i < |log| :: log[i].key.id != "" && FromResourceTopic(log[i].command)
  }

  lemma RightedRealizes(d: Doc, rights: Rights, owner: string, o: Orders)
    requires Enumerates(o.users, rights.users.Keys) && Enumerates(o.groups, rights.groups.Keys)
    ensures Realizes(Righted(d, rights, owner, o).users, rights.users)
    ensures Realizes(Righted(d, rights, owner, o).groups, rights.groups)
  {
    forall n, l
      ensures AddRights(NOBODY, rights.users, o.users).Holds(n, l) <==> n in rights.users && rights.users[n].Has(l)
      ensures AddRights(NOBODY, rights.groups, o.groups).Holds(n, l) <==> n in rights.groups && rights.groups[n].Has(l)
    {
      AddRightsHolders(NOBODY, rights.users, o.users, n, l);
      AddRightsHolders(NOBODY, rights.groups, o.groups, n, l);
    }
  }

  /** One command takes a document that shows a view to one that shows the next view. */
  lemma StepShown(config: Config, start: Docs, w: View, docs: Docs, v: Delivery, k: Key, ranging: Ranging)
    returns (next: Ranging)
    requires Filed(docs) && Valid(config, v) && FromResourceTopic(v.command)
    requires ShowsIn(config, k, start, w, docs, ranging) && ShowsCreator(k, w, docs)
    ensures var w' := Receive(w, Received(v.key, v.command), k);
      ShowsIn(config, k, start, w', Deliver(config, docs, v), next) && ShowsCreator(k, w', Deliver(config, docs, v))
    ensures (v.key == k ==> v.orders.initial == ranging) ==> next == ranging
  {
    next := ranging;
    if v.key == k {
      if v.command.Put? && k !in docs {
        next := v.orders.initial;
      } else if v.command.SetRights? && v.command.rights.Some? && k in docs {
        RightedRealizes(docs[k], v.command.rights.value, v.command.owner, v.orders);
      }
    }
  }

  /** So does any execution of a log; one that always ranges over the configured groups in the same
      order shows the defaults of that order. */
  lemma {:induction false} ExecutionShown(
    config: Config, start: Docs, w: View, docs: Docs, log: seq<Received>, vs: seq<Delivery>, k: Key, ranging: Ranging)
    returns (next: Ranging)
    requires Filed(docs) && Resourceful(log) && Executes(config, vs, log)
    requires ShowsIn(config, k, start, w, docs, ranging) && ShowsCreator(k, w, docs)
    ensures AllValid(config, vs) && Filed(Fold(config, docs, vs))
    ensures var w' := ViewAfter(w, log, k);
      ShowsIn(config, k, start, w', Fold(config, docs, vs), next) && ShowsCreator(k, w', Fold(config, docs, vs))
    ensures (forall i | 0 <= i < |vs| :: vs[i].key == k ==> vs[i].orders.initial == ranging) ==> next == ranging
    decreases |log|
  {
    next := ranging;
    if log != [] {
      next := StepShown(config, start, w, docs, vs[0], k, ranging);
      ApplyKeepsFiled(docs, vs[0].key, vs[0].command, vs[0].orders, config);
      var rest := vs[1..];
      assert forall i | 0 <= i < |rest| :: rest[i] == vs[i + 1];
      next := ExecutionShown(config, start, Receive(w, log[0], k), Deliver(config, docs, vs[0]), log[1..], rest, k, next);
    }
  }

  /** An execution that ranges over the configured groups of one kind in a given order. */
  ghost function Execution(config: Config, log: seq<Received>, kind: string, ranging: Ranging): (vs: seq<Delivery>)
    requires RangesOver(ranging, InitialGroups(config, kind).Keys)
    ensures Executes(config, vs, log)
    ensures forall i | 0 <= i < |vs| :: vs[i].key.kind == kind ==> vs[i].orders.initial == ranging
  {
    seq(|log|, i requires 0 <= i < |log| =>
      var m := log[i];
      var initial := if m.key.kind == kind then ranging else ARanging(InitialGroups(config, m.key.kind).Keys);
      Delivery(m.key, m.command, OrdersFor(m.command, initial)))
  }

  ghost function OrdersFor(c: Command, ranging: Ranging): Orders {
    if c.SetRights? && c.rights.Some? then
      Orders(AnOrder(c.rights.value.users.Keys), AnOrder(c.rights.value.groups.Keys), ranging)
    else Orders([], [], ranging)
  }

  // ----- what a stretch of the log does to a view -----

  predicate HasDelete(log: seq<Received>, k: Key) {
    exists m | m in log :: m.key == k && m.command.Delete?
  }

  /** The features of the last PUT. */
  function LastFeatures(log: seq<Received>, k: Key): Option<Fields> {
    if log == [] then None
    else
      match LastFeatures(log[1..], k)
      case Some(f) => Some(f)
      case None => if log[0].key == k && log[0].command.Put? then Some(log[0].command.features) else None
  }

  /** The rights of the last RIGHTS that has any. */
  function LastRights(log: seq<Received>, k: Key): Option<Rights> {
    if log == [] then None
    else
      match LastRights(log[1..], k)
      case Some(r) => Some(r)
      case None => if log[0].key == k && log[0].command.SetRights? then log[0].command.rights else None
  }

  /** The owner of the first PUT. */
  function FirstOwner(log: seq<Received>, k: Key): Option<string> {
    if log == [] then None
    else if log[0].key == k && log[0].command.Put? then Some(log[0].command.owner)
    else FirstOwner(log[1..], k)
  }

  /** A DELETE makes everything before the stretch irrelevant. */
  lemma {:induction false} DeleteForgets(a: View, b: View, log: seq<Received>, k: Key)
    requires HasDelete(log, k)
    ensures ViewAfter(a, log, k) == ViewAfter(b, log, k)
    decreases |log|
  {
    if !(log[0].key == k && log[0].command.Delete?) {
      var m :| m in log && m.key == k && m.command.Delete?;
      assert m in log[1..];
      DeleteForgets(Receive(a, log[0], k), Receive(b, log[0], k), log[1..], k);
    }
  }

  /** Without one, the last PUT and the last RIGHTS decide what becomes of a present resource. */
  lemma {:induction false} PresentAfter(w: View, log: seq<Received>, k: Key)
    requires w.Present? && !HasDelete(log, k)
    ensures ViewAfter(w, log, k) == w.(
      features := match LastFeatures(log, k) case Some(f) => f case None => w.features,
      rights := match LastRights(log, k) case Some(r) => Granted(r) case None => w.rights)
    decreases |log|
  {
    if log != [] {
      assert log[0] in log && forall m | m in log[1..] :: m in log;
      PresentAfter(Receive(w, log[0], k), log[1..], k);
    }
  }

  /** An absent one is created by the first PUT; afterwards it has the last rights or the defaults of
      that PUT's owner. */
  lemma {:induction false} GoneAfter(log: seq<Received>, k: Key)
    requires !HasDelete(log, k)
    ensures LastFeatures(log, k).Some? <==> FirstOwner(log, k).Some?
    ensures var w := ViewAfter(Gone, log, k);
      match FirstOwner(log, k)
      case None => w == Gone
      case Some(owner) =>
        && w.Present? && w.features == LastFeatures(log, k).value && w.annotations == map[] && w.creator == owner
        && (w.rights == Defaults(owner) || (LastRights(log, k).Some? && w.rights == Granted(LastRights(log, k).value)))
    decreases |log|
  {
    if log != [] {
      assert log[0] in log && forall m | m in log[1..] :: m in log;
      if log[0].key == k && log[0].command.Put? {
        PresentAfter(Receive(Gone, log[0], k), log[1..], k);
      } else {
        GoneAfter(log[1..], k);
      }
    }
  }

  // ----- rights for examples -----

  const BOB_ONLY := Rights(map["bob" := Right(true, true, true, true)], map[])
}
