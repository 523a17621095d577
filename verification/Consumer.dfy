/** The resource consumer's at-least-once delivery (lib/worker/kafka/consumer.go): messages are
    handled in order, retried on errors, committed when a run of the handler succeeded, and handled
    again from the committed offset after a crash or a halt.  A commit that fails is only logged: the
    consumer goes on, and the offset stays where it was.

    When the commits succeed the documents end up as if each message had been handled once, whatever
    else happens; the module Redelivery says what becomes of them when commits fail. */
module Consumer {
  import opened Model
  import opened Commands
  import opened Views

  datatype Phase = Idle | Handling | Handled

  /** `committed` is the offset a restart begins at, `position` the one the consumer is at. */
  datatype State = State(docs: Docs, committed: nat, position: nat, phase: Phase)

  datatype Event =
    | Fetch
    | Attempt(orders: Orders, effective: bool, reported: bool)
    | GiveUp                       // retries used up or a timeout: the error handler halts the process
    | CommitOffset(stored: bool)   // the outcome of the commit is only logged
    | Crash

  predicate AllFromResourceTopics(log: seq<Received>) {
    forall i | 0 <= i < |log| :: FromResourceTopic(log[i].command)
  }

  /** An attempt may fail before its effect or after it (lost answer, failed done message); it
      reports success only when it took effect. */
  ghost predicate Enabled(config: Config, log: seq<Received>, s: State, e: Event) {
    match e
    case Fetch => s.phase.Idle? && s.position < |log|
    case Attempt(o, effective, reported) =>
      && s.phase.Handling? && s.position < |log| && (reported ==> effective)
      && ValidOrders(o, log[s.position].key, log[s.position].command, config)
    case GiveUp => s.phase.Handling?
    case CommitOffset(_) => s.phase.Handled?
    case Crash => true
  }

  ghost function Next(config: Config, log: seq<Received>, s: State, e: Event): State
    requires Enabled(config, log, s, e)
  {
    match e
    case Fetch => s.(phase := Handling)
    case Attempt(o, effective, reported) =>
      s.(docs := if effective then Apply(s.docs, log[s.position].key, log[s.position].command, o, config) else s.docs,
         phase := if reported then Handled else Handling)
    case GiveUp => s.(position := s.committed, phase := Idle)
    case CommitOffset(stored) =>
      s.(committed := if stored then s.position + 1 else s.committed, position := s.position + 1, phase := Idle)
    case Crash => s.(position := s.committed, phase := Idle)
  }

  ghost predicate Legal(config: Config, log: seq<Received>, s: State, es: seq<Event>)
    decreases |es|
  {
    es == [] || (Enabled(config, log, s, es[0]) && Legal(config, log, Next(config, log, s, es[0]), es[1..]))
  }

  ghost function Run(config: Config, log: seq<Received>, s: State, es: seq<Event>): State
    requires Legal(config, log, s, es)
    decreases |es|
  {
    if es == [] then s else Run(config, log, Next(config, log, s, es[0]), es[1..])
  }

  /** Whatever may go wrong with a message that was fetched: an attempt may fail with or without its effect,
      and giving up or a crash leads back to the stored offset.  Nothing but a stored commit moves that. */
  lemma WhatMayGoWrong(config: Config, log: seq<Received>, s: State, o: Orders)
    requires s.phase.Handling? && s.position < |log|
    requires ValidOrders(o, log[s.position].key, log[s.position].command, config)
    ensures Enabled(config, log, s, Attempt(o, false, false)) && Next(config, log, s, Attempt(o, false, false)) == s
    ensures Enabled(config, log, s, Attempt(o, true, false))
    ensures Next(config, log, s, Attempt(o, true, false)) ==
            s.(docs := Apply(s.docs, log[s.position].key, log[s.position].command, o, config))
    ensures Enabled(config, log, s, GiveUp) && Enabled(config, log, s, Crash)
    ensures var back := State(s.docs, s.committed, s.committed, Idle);
      Next(config, log, s, GiveUp) == back == Next(config, log, s, Crash)
    ensures Enabled(config, log, s.(phase := Handled), CommitOffset(false))
    ensures Next(config, log, s.(phase := Handled), CommitOffset(false)) ==
            State(s.docs, s.committed, s.position + 1, Idle)
  {}

  /** An attempt that succeeds and a commit that is stored bring the consumer behind the message. */
  lemma MessageHandled(config: Config, log: seq<Received>, s: State, o: Orders)
    requires s.phase.Idle? && s.position < |log|
    requires ValidOrders(o, log[s.position].key, log[s.position].command, config)
    ensures var es := [Fetch, Attempt(o, true, true), CommitOffset(true)];
      && Legal(config, log, s, es)
      && Run(config, log, s, es) ==
         State(Apply(s.docs, log[s.position].key, log[s.position].command, o, config), s.position + 1, s.position + 1, Idle)
  {
    var fetched := Next(config, log, s, Fetch);
    var handled := Next(config, log, fetched, Attempt(o, true, true));
    OneEvent(config, log, handled, CommitOffset(true), []);
    OneEvent(config, log, fetched, Attempt(o, true, true), [CommitOffset(true)] + []);
    OneEvent(config, log, s, Fetch, [Attempt(o, true, true)] + ([CommitOffset(true)] + []));
    assert [Fetch] + ([Attempt(o, true, true)] + ([CommitOffset(true)] + [])) ==
           [Fetch, Attempt(o, true, true), CommitOffset(true)];
  }

  lemma OneEvent(config: Config, log: seq<Received>, s: State, e: Event, es: seq<Event>)
    requires Enabled(config, log, s, e) && Legal(config, log, Next(config, log, s, e), es)
    ensures Legal(config, log, s, [e] + es)
    ensures Run(config, log, s, [e] + es) == Run(config, log, Next(config, log, s, e), es)
  {
    assert ([e] + es)[1..] == es;
  }

  // ----- documents that differ only in the order of their lists -----

  /** The same rights as sets, and everything else equal, the creator included.  While no creator is
      set the admin lists are equal too, as the first admin may still become the creator. */
  ghost predicate SameDoc(a: Doc, b: Doc) {
    && a.resource == b.resource && a.features == b.features && a.annotations == b.annotations
    && a.creator == b.creator && (a.creator == "" ==> a.users.admin == b.users.admin)
    && a.users.SameHolders(b.users) && a.groups.SameHolders(b.groups)
  }

  ghost predicate Same(a: Docs, b: Docs) {
    a.Keys == b.Keys && forall k | k in a :: SameDoc(a[k], b[k])
  }

  /** Handling a message keeps documents the same that were the same. */
  lemma SameKept(config: Config, a: Docs, b: Docs, v: Delivery)
    requires Same(a, b) && Valid(config, v) && FromResourceTopic(v.command)
    ensures Same(Deliver(config, a, v), Deliver(config, b, v))
  {}

  lemma SameRights(rights: Rights, o: Orders, p: Orders)
    requires Enumerates(o.users, rights.users.Keys) && Enumerates(o.groups, rights.groups.Keys)
    requires Enumerates(p.users, rights.users.Keys) && Enumerates(p.groups, rights.groups.Keys)
    ensures AddRights(NOBODY, rights.users, o.users).SameHolders(AddRights(NOBODY, rights.users, p.users))
    ensures AddRights(NOBODY, rights.groups, o.groups).SameHolders(AddRights(NOBODY, rights.groups, p.groups))
  {
    forall n, l
      ensures AddRights(NOBODY, rights.users, o.users).Holds(n, l) <==> AddRights(NOBODY, rights.users, p.users).Holds(n, l)
      ensures AddRights(NOBODY, rights.groups, o.groups).Holds(n, l) <==> AddRights(NOBODY, rights.groups, p.groups).Holds(n, l)
    {
      AddRightsHolders(NOBODY, rights.users, o.users, n, l);
      AddRightsHolders(NOBODY, rights.users, p.users, n, l);
      AddRightsHolders(NOBODY, rights.groups, o.groups, n, l);
      AddRightsHolders(NOBODY, rights.groups, p.groups, n, l);
    }
  }

  lemma PutAgain(config: Config, docs: Docs, now: Docs, v: Delivery, o: Orders)
    requires Valid(config, v) && v.command.Put? && Same(Deliver(config, docs, v), now)
    requires ValidOrders(o, v.key, v.command, config)
    ensures Deliver(config, now, v.(orders := o)) == now
  {
    var x := Deliver(config, docs, v);
    var d, e := x[v.key], now[v.key];
    assert SameDoc(d, e);
    assert d.resource != "" ==>
      d.features == v.command.features && CreatorOr(d.creator, d.users.admin, v.command.owner) == d.creator;
    assert e.resource != "" ==> Featured(e, v.command.features, v.command.owner) == e;
  }

  lemma RightedAgain(d: Doc, e: Doc, rights: Rights, owner: string, o: Orders, p: Orders) returns (w: Orders)
    requires Enumerates(o.users, rights.users.Keys) && Enumerates(o.groups, rights.groups.Keys)
    requires Enumerates(p.users, rights.users.Keys) && Enumerates(p.groups, rights.groups.Keys)
    requires SameDoc(Righted(d, rights, owner, o), e)
    ensures w == o || w == p
    ensures SameDoc(Righted(d, rights, owner, w), Righted(e, rights, owner, p))
  {
    w := if Righted(d, rights, owner, o).creator == "" then p else o;
    SameRights(rights, o, p);
  }

  lemma RightsAgain(config: Config, docs: Docs, now: Docs, v: Delivery, o: Orders) returns (w: Delivery)
    requires Valid(config, v) && v.command.SetRights? && v.command.rights.Some? && Same(Deliver(config, docs, v), now)
    requires v.key in docs && docs[v.key].resource != "" && ValidOrders(o, v.key, v.command, config)
    ensures w == v || w == v.(orders := o)
    ensures Same(Deliver(config, docs, w), Deliver(config, now, v.(orders := o)))
  {
    var x := Deliver(config, docs, v);
    assert SameDoc(x[v.key], now[v.key]);
    var orders := RightedAgain(docs[v.key], now[v.key], v.command.rights.value, v.command.owner, v.orders, o);
    w := v.(orders := orders);
    OnlyThatDoc(docs, now, v.key, x[v.key], Deliver(config, docs, w)[v.key], Deliver(config, now, v.(orders := o))[v.key]);
  }

  lemma OnlyThatDoc(docs: Docs, now: Docs, k: Key, before: Doc, d: Doc, e: Doc)
    requires Same(docs[k := before], now) && SameDoc(d, e)
    ensures Same(docs[k := d], now[k := e])
  {
    forall j | j in docs && j != k ensures j in now && SameDoc(docs[j], now[j]) {
      assert docs[k := before][j] == docs[j];
    }
  }

  /** PUT, RIGHTS and DELETE are idempotent: handling the message again, ranging over its maps in
      any other order, gives what handling it once gives in one of the two orders. */
  lemma HandledAgain(config: Config, docs: Docs, now: Docs, v: Delivery, o: Orders) returns (w: Delivery)
    requires Valid(config, v) && FromResourceTopic(v.command) && Same(Deliver(config, docs, v), now)
    requires ValidOrders(o, v.key, v.command, config)
    ensures w == v || w == v.(orders := o)
    ensures Same(Deliver(config, docs, w), Deliver(config, now, v.(orders := o)))
  {
    w := v;
    if v.command.Put? {
      PutAgain(config, docs, now, v, o);
    } else if v.command.SetRights? && v.command.rights.Some? && v.key in docs && docs[v.key].resource != "" {
      w := RightsAgain(config, docs, now, v, o);
    } else {
      assert v.key in now ==> SameDoc(Deliver(config, docs, v)[v.key], now[v.key]);
      assert Deliver(config, now, v.(orders := o)) == now;
    }
  }

  // ----- exactly once -----

  /** The deliveries carry out the first n messages, once each. */
  ghost predicate Carries(config: Config, log: seq<Received>, n: nat, vs: seq<Delivery>) {
    && n <= |log| && |vs| == n
    && forall i | 0 <= i < n :: vs[i].key == log[i].key && vs[i].command == log[i].command && Valid(config, vs[i])
  }

  /** The documents are as after handling the first n messages once each. */
  ghost predicate AfterOnce(config: Config, start: Docs, log: seq<Received>, n: nat, docs: Docs) {
    exists vs | Carries(config, log, n, vs) && AllValid(config, vs) :: Same(Fold(config, start, vs), docs)
  }

  /** The first `done` messages have taken effect: the committed ones, and perhaps the next. */
  ghost predicate Inv(config: Config, start: Docs, log: seq<Received>, s: State, done: nat) {
    && s.position == s.committed <= done <= |log| && done <= s.committed + 1
    && (s.phase.Handled? ==> done == s.committed + 1)
    && AfterOnce(config, start, log, done, s.docs)
  }

  ghost predicate Follows(config: Config, log: seq<Received>, n: nat, v: Delivery) {
    n < |log| && v.key == log[n].key && v.command == log[n].command && Valid(config, v)
  }

  lemma ExtendOnce(config: Config, start: Docs, log: seq<Received>, n: nat, vs: seq<Delivery>, v: Delivery, docs: Docs)
    requires Carries(config, log, n, vs) && AllValid(config, vs) && Follows(config, log, n, v)
    requires Same(Deliver(config, Fold(config, start, vs), v), docs)
    ensures AfterOnce(config, start, log, n + 1, docs)
  {
    FoldSnoc(config, start, vs, v);
    assert Carries(config, log, n + 1, vs + [v]);
  }

  lemma SplitOnce(config: Config, start: Docs, log: seq<Received>, n: nat, docs: Docs) returns (vs: seq<Delivery>, v: Delivery)
    requires AfterOnce(config, start, log, n + 1, docs)
    ensures Carries(config, log, n, vs) && AllValid(config, vs) && Follows(config, log, n, v)
    ensures Same(Deliver(config, Fold(config, start, vs), v), docs)
  {
    var ws :| Carries(config, log, n + 1, ws) && AllValid(config, ws) && Same(Fold(config, start, ws), docs);
    vs, v := ws[..n], ws[n];
    assert ws == vs + [v];
    FoldSnoc(config, start, vs, v);
  }

  lemma FirstAttempt(config: Config, start: Docs, log: seq<Received>, n: nat, docs: Docs, v: Delivery)
    requires AllFromResourceTopics(log) && AfterOnce(config, start, log, n, docs) && Follows(config, log, n, v)
    ensures AfterOnce(config, start, log, n + 1, Deliver(config, docs, v))
  {
    var vs :| Carries(config, log, n, vs) && AllValid(config, vs) && Same(Fold(config, start, vs), docs);
    SameKept(config, Fold(config, start, vs), docs, v);
    ExtendOnce(config, start, log, n, vs, v, Deliver(config, docs, v));
  }

  lemma RepeatedAttempt(config: Config, start: Docs, log: seq<Received>, n: nat, docs: Docs, v: Delivery)
    requires AllFromResourceTopics(log) && AfterOnce(config, start, log, n + 1, docs) && Follows(config, log, n, v)
    ensures AfterOnce(config, start, log, n + 1, Deliver(config, docs, v))
  {
    var vs, last := SplitOnce(config, start, log, n, docs);
    var w := HandledAgain(config, Fold(config, start, vs), docs, last, v.orders);
    assert last.(orders := v.orders) == v;
    ExtendOnce(config, start, log, n, vs, w, Deliver(config, docs, v));
  }

  /** An effective attempt, be it the first or a repeated one, leaves the message handled once. */
  lemma AttemptCounts(config: Config, start: Docs, log: seq<Received>, n: nat, docs: Docs, o: Orders)
    requires AllFromResourceTopics(log) && n < |log| && ValidOrders(o, log[n].key, log[n].command, config)
    requires AfterOnce(config, start, log, n, docs) || AfterOnce(config, start, log, n + 1, docs)
    ensures AfterOnce(config, start, log, n + 1, Apply(docs, log[n].key, log[n].command, o, config))
  {
    var v := Delivery(log[n].key, log[n].command, o);
    if AfterOnce(config, start, log, n, docs) {
      FirstAttempt(config, start, log, n, docs, v);
    } else {
      RepeatedAttempt(config, start, log, n, docs, v);
    }
  }

  lemma AttemptKept(config: Config, start: Docs, log: seq<Received>, s: State, e: Event, done: nat)
    requires AllFromResourceTopics(log) && Inv(config, start, log, s, done)
    requires Enabled(config, log, s, e) && e.Attempt? && e.effective
    ensures Inv(config, start, log, Next(config, log, s, e), s.committed + 1)
  {
    var n := s.committed;
    assert done == n || done == n + 1;
    AttemptCounts(config, start, log, n, s.docs, e.orders);
  }

  lemma InvKept(config: Config, start: Docs, log: seq<Received>, s: State, e: Event, done: nat) returns (done': nat)
    requires AllFromResourceTopics(log) && Inv(config, start, log, s, done)
    requires Enabled(config, log, s, e) && e != CommitOffset(false)
    ensures Inv(config, start, log, Next(config, log, s, e), done')
  {
    done' := if e.Attempt? && e.effective then s.committed + 1 else done;
    if e.Attempt? && e.effective { AttemptKept(config, start, log, s, e, done); }
  }

  lemma {:induction false} InvOverRun(config: Config, start: Docs, log: seq<Received>, s: State, es: seq<Event>, done: nat)
    returns (done': nat)
    requires AllFromResourceTopics(log) && Inv(config, start, log, s, done)
    requires Legal(config, log, s, es) && CommitOffset(false) !in es
    ensures Inv(config, start, log, Run(config, log, s, es), done')
    decreases |es|
  {
    done' := done;
    if es != [] {
      done' := InvKept(config, start, log, s, es[0], done);
      done' := InvOverRun(config, start, log, Next(config, log, s, es[0]), es[1..], done');
    }
  }

  /** As long as the commits succeed, any run that ends between messages leaves what handling each
      message once leaves: the committed ones, and possibly the next.  A run that committed
      everything handled every message once. */
  lemma EveryMessageOnce(config: Config, start: Docs, log: seq<Received>, es: seq<Event>)
    requires AllFromResourceTopics(log) && Legal(config, log, State(start, 0, 0, Idle), es)
    requires CommitOffset(false) !in es
    ensures var s := Run(config, log, State(start, 0, 0, Idle), es);
            && s.committed <= |log|
            && (AfterOnce(config, start, log, s.committed, s.docs) ||
                (s.committed < |log| && AfterOnce(config, start, log, s.committed + 1, s.docs)))
            && (s.committed == |log| ==> AfterOnce(config, start, log, |log|, s.docs))
  {
    assert Carries(config, log, 0, []) && AllValid(config, []) && Same(Fold(config, start, []), start);
    var done := InvOverRun(config, start, log, State(start, 0, 0, Idle), es, 0);
  }
}
