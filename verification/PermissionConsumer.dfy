/** The permission consumer (lib/worker/event.go:36-45, lib/worker/kafka/consumer.go:29-82): every error of
    its handler is logged and turned into success, so a message is committed after one run of the handler,
    whether or not that run took effect.  Only a timeout or a crash makes it handle a message again. */
module PermissionConsumer {
  import opened GoStrings
  import opened Model
  import opened Commands
  import opened PermissionHistory

  datatype Message = Message(key: Key, perm: Perm)

  datatype Phase = Idle | Fetched | Handled

  /** `committed` is the offset a restart begins at, `position` the one the consumer is at. */
  datatype State = State(docs: Docs, committed: nat, position: nat, phase: Phase)

  datatype Event =
    | Fetch
    | Run(effective: bool)         // reported as a success in either case
    | TimeOut(effective: bool)     // the error handler halts the process
    | CommitOffset(stored: bool)   // the outcome of the commit is ignored
    | Crash

  /** What the handler of one message does when it takes effect. */
  function Handle(docs: Docs, m: Message): Docs {
    if m.key in docs then docs[m.key := ApplyPerm(m.perm, docs[m.key])] else docs
  }

  lemma HandleIsApply(config: Config, docs: Docs, m: Message, o: Orders)
    requires ValidOrders(o, m.key, Permission(m.perm), config)
    ensures Handle(docs, m) == Apply(docs, m.key, Permission(m.perm), o, config)
  {}

  predicate Enabled(log: seq<Message>, s: State, e: Event) {
    match e
    case Fetch => s.phase.Idle? && s.position < |log|
    case Run(_) => s.phase.Fetched? && s.position < |log|
    case TimeOut(_) => s.phase.Fetched? && s.position < |log|
    case CommitOffset(_) => s.phase.Handled?
    case Crash => true
  }

  function Next(log: seq<Message>, s: State, e: Event): State
    requires Enabled(log, s, e)
  {
    match e
    case Fetch => s.(phase := Fetched)
    case Run(effective) =>
      s.(docs := if effective then Handle(s.docs, log[s.position]) else s.docs, phase := Handled)
    case TimeOut(effective) =>
      State(if effective then Handle(s.docs, log[s.position]) else s.docs, s.committed, s.committed, Idle)
    case CommitOffset(stored) =>
      State(s.docs, if stored then s.position + 1 else s.committed, s.position + 1, Idle)
    case Crash => s.(position := s.committed, phase := Idle)
  }

  predicate Legal(log: seq<Message>, s: State, es: seq<Event>)
    decreases |es|
  {
    es == [] || (Enabled(log, s, es[0]) && Legal(log, Next(log, s, es[0]), es[1..]))
  }

  function RunAll(log: seq<Message>, s: State, es: seq<Event>): State
    requires Legal(log, s, es)
    decreases |es|
  {
    if es == [] then s else RunAll(log, Next(log, s, es[0]), es[1..])
  }

  function Start(docs: Docs): State { State(docs, 0, 0, Idle) }

  /** A run that takes effect and one that does not are both committed: an error drops the command for
      good. */
  lemma ErrorsDropTheCommand(log: seq<Message>, s: State, effective: bool)
    requires s.phase.Idle? && s.position < |log|
    ensures var es, n := [Fetch, Run(effective), CommitOffset(true)], s.position;
      && Legal(log, s, es)
      && RunAll(log, s, es) == State(if effective then Handle(s.docs, log[n]) else s.docs, n + 1, n + 1, Idle)
  {
    var fetched := Next(log, s, Fetch);
    var handled := Next(log, fetched, Run(effective));
    OneEvent(log, handled, CommitOffset(true), []);
    OneEvent(log, fetched, Run(effective), [CommitOffset(true)] + []);
    OneEvent(log, s, Fetch, [Run(effective)] + ([CommitOffset(true)] + []));
    assert [Fetch] + ([Run(effective)] + ([CommitOffset(true)] + [])) == [Fetch, Run(effective), CommitOffset(true)];
  }

  lemma OneEvent(log: seq<Message>, s: State, e: Event, es: seq<Event>)
    requires Enabled(log, s, e) && Legal(log, Next(log, s, e), es)
    ensures Legal(log, s, [e] + es) && RunAll(log, s, [e] + es) == RunAll(log, Next(log, s, e), es)
  {
    assert ([e] + es)[1..] == es;
  }

  /** After a timeout, with or without an effect, and after a crash the consumer goes on from the stored
      offset; a commit that fails does not move that. */
  lemma BackToTheStoredOffset(log: seq<Message>, s: State, effective: bool)
    requires s.phase.Fetched? && s.position < |log|
    ensures Enabled(log, s, TimeOut(effective)) && Enabled(log, s, Crash)
    ensures var docs := if effective then Handle(s.docs, log[s.position]) else s.docs;
      Next(log, s, TimeOut(effective)) == State(docs, s.committed, s.committed, Idle)
    ensures Next(log, s, Crash) == State(s.docs, s.committed, s.committed, Idle)
    ensures Enabled(log, s.(phase := Handled), CommitOffset(false))
    ensures Next(log, s.(phase := Handled), CommitOffset(false)) == State(s.docs, s.committed, s.position + 1, Idle)
  {}

  // ----- subsequences -----

  /** Some of the elements in their order, each at most once. */
  predicate Subsequence<T(==)>(kept: seq<T>, all: seq<T>) {
    if all == [] then kept == []
    else
      var n, last := |all| - 1, all[|all| - 1];
      || Subsequence(kept, all[..n])
      || (kept != [] && kept[|kept| - 1] == last && Subsequence(kept[..|kept| - 1], all[..n]))
  }

  lemma {:induction false} NothingKept<T>(all: seq<T>)
    ensures Subsequence([], all)
  {
    if all != [] {
      NothingKept(all[..|all| - 1]);
    }
  }

  lemma NextKept<T>(kept: seq<T>, all: seq<T>, n: nat)
    requires n < |all| && Subsequence(kept, all[..n])
    ensures Subsequence(kept, all[..n + 1]) && Subsequence(kept + [all[n]], all[..n + 1])
  {
    assert all[..n + 1][..n] == all[..n] && (kept + [all[n]])[..|kept|] == kept;
  }

  function HandleAll(docs: Docs, ms: seq<Message>): Docs {
    if ms == [] then docs else Handle(HandleAll(docs, ms[..|ms| - 1]), ms[|ms| - 1])
  }

  lemma HandleOneMore(docs: Docs, ms: seq<Message>, m: Message)
    ensures HandleAll(docs, ms + [m]) == Handle(HandleAll(docs, ms), m)
  {
    assert (ms + [m])[..|ms|] == ms;
  }

  // ----- a command twice in a row -----

  lemma {:induction false} RemoveAgain(list: seq<string>, name: string)
    ensures Remove(Remove(list, name), name) == Remove(list, name)
    ensures Remove(list + [name], name) == Remove(list, name)
  {
    if list == [] {
      assert [name][1..] == [];
    } else {
      RemoveAgain(list[1..], name);
      assert (list + [name])[1..] == list[1..] + [name];
      assert ([list[0]] + Remove(list[1..], name))[1..] == Remove(list[1..], name);
    }
  }

  lemma WithoutAgain(ls: Lists, name: string)
    ensures Without(Without(ls, name), name) == Without(ls, name)
  {
    RemoveAgain(ls.admin, name);
    RemoveAgain(ls.read, name);
    RemoveAgain(ls.write, name);
    RemoveAgain(ls.execute, name);
  }

  lemma AddedLetterRemoved(ls: Lists, name: string, c: char)
    ensures Without(AddLetter(ls, name, c), name) == Without(ls, name)
  {
    match c
    case 'a' => RemoveAgain(ls.admin, name);
    case 'r' => RemoveAgain(ls.read, name);
    case 'w' => RemoveAgain(ls.write, name);
    case 'x' => RemoveAgain(ls.execute, name);
    case _ =>
  }

  lemma {:induction false} AddedUserRemoved(ls: Lists, name: string, rights: string)
    ensures Without(AddUser(ls, name, rights), name) == Without(ls, name)
    decreases |rights|
  {
    if rights != "" {
      AddedUserRemoved(AddLetter(ls, name, rights[0]), name, rights[1..]);
      AddedLetterRemoved(ls, name, rights[0]);
    }
  }

  /** Apart from the execute list, which an x rebuilds. */
  lemma {:induction false} AddedGroupRemoved(ls: Lists, name: string, rights: string)
    ensures var left, was := Without(AddGroup(ls, name, rights), name), Without(ls, name);
      left == was.(execute := left.execute) && ('x' !in rights ==> left == was)
    decreases |rights|
  {
    if rights != "" {
      AddedGroupRemoved(AddGroupLetter(ls, name, rights[0]), name, rights[1..]);
      AddedLetterRemoved(ls, name, rights[0]);
    }
  }

  lemma {:induction false} ExecuteRebuilt(ls: Lists, other: Lists, name: string, rights: string)
    requires other == ls.(execute := other.execute) && 'x' in rights
    ensures AddGroup(ls, name, rights) == AddGroup(other, name, rights)
    decreases |rights|
  {
    if rights[0] != 'x' {
      ExecuteRebuilt(AddGroupLetter(ls, name, rights[0]), AddGroupLetter(other, name, rights[0]), name, rights[1..]);
    }
  }

  /** Handling a message twice in a row is handling it once, also for a group's x. */
  lemma TwiceInARow(p: Perm, d: Doc)
    ensures ApplyPerm(p, ApplyPerm(p, d)) == ApplyPerm(p, d)
  {
    match p
    case PutUser(user, rights) =>
      AddedUserRemoved(Without(d.users, user), user, rights);
      WithoutAgain(d.users, user);
    case PutGroup(group, rights) =>
      var ls := Without(d.groups, group);
      AddedGroupRemoved(ls, group, rights);
      WithoutAgain(d.groups, group);
      if 'x' in rights { ExecuteRebuilt(ls, Without(AddGroup(ls, group, rights), group), group, rights); }
    case DeleteUser(user) => WithoutAgain(d.users, user);
    case DeleteGroup(group) => WithoutAgain(d.groups, group);
  }

  // ----- while the commits are stored -----

  /** The documents are as after some of the messages before the committed offset and then, if one run
      of the next message took effect, that message. */
  predicate Reached(start: Docs, log: seq<Message>, s: State, kept: seq<Message>, pending: bool) {
    && s.position == s.committed <= |log| && (s.phase != Idle ==> s.committed < |log|)
    && (pending ==> s.committed < |log|)
    && Subsequence(kept, log[..s.committed])
    && var before := HandleAll(start, kept);
       s.docs == if pending then Handle(before, log[s.committed]) else before
  }

  lemma StepReached(start: Docs, log: seq<Message>, s: State, e: Event, kept: seq<Message>, pending: bool)
    returns (kept': seq<Message>, pending': bool)
    requires Reached(start, log, s, kept, pending) && Enabled(log, s, e) && e != CommitOffset(false)
    ensures Reached(start, log, Next(log, s, e), kept', pending')
  {
    kept', pending' := kept, pending;
    var n := s.committed;
    match e
    case Run(effective) => pending' := RunReached(start, log, s, effective, kept, pending);
    case TimeOut(effective) => pending' := RunReached(start, log, s, effective, kept, pending);
    case CommitOffset(_) =>
      NextKept(kept, log, n);
      HandleOneMore(start, kept, log[n]);
      kept', pending' := if pending then kept + [log[n]] else kept, false;
    case _ =>
  }

  lemma RunReached(start: Docs, log: seq<Message>, s: State, effective: bool, kept: seq<Message>, pending: bool)
    returns (pending': bool)
    requires Reached(start, log, s, kept, pending) && s.position < |log|
    ensures var docs := if effective then Handle(s.docs, log[s.position]) else s.docs;
      Reached(start, log, s.(docs := docs), kept, pending')
  {
    pending' := pending || effective;
    var before, m := HandleAll(start, kept), log[s.committed];
    if m.key in before { TwiceInARow(m.perm, before[m.key]); }
  }

  lemma {:induction false} RunsReached(
    start: Docs, log: seq<Message>, s: State, es: seq<Event>, kept: seq<Message>, pending: bool)
    returns (kept': seq<Message>, pending': bool)
    requires Reached(start, log, s, kept, pending) && Legal(log, s, es) && CommitOffset(false) !in es
    ensures Reached(start, log, RunAll(log, s, es), kept', pending')
    decreases |es|
  {
    kept', pending' := kept, pending;
    if es != [] {
      kept', pending' := StepReached(start, log, s, es[0], kept, pending);
      kept', pending' := RunsReached(start, log, Next(log, s, es[0]), es[1..], kept', pending');
    }
  }

  /** The documents that some of the first n messages leave, each handled at most once and in their
      order. */
  ghost predicate SomeOnce(start: Docs, log: seq<Message>, n: nat, docs: Docs) {
    exists kept :: n <= |log| && Subsequence(kept, log[..n]) && docs == HandleAll(start, kept)
  }

  lemma ReachedSome(start: Docs, log: seq<Message>, s: State, kept: seq<Message>, pending: bool)
    requires Reached(start, log, s, kept, pending)
    ensures SomeOnce(start, log, if s.committed < |log| then s.committed + 1 else |log|, s.docs)
  {
    var n := s.committed;
    if n < |log| {
      NextKept(kept, log, n);
      HandleOneMore(start, kept, log[n]);
      var all := if pending then kept + [log[n]] else kept;
      assert Subsequence(all, log[..n + 1]) && s.docs == HandleAll(start, all);
    } else {
      assert Subsequence(kept, log[..n]) && s.docs == HandleAll(start, kept);
    }
  }

  /** As long as the commits are stored, every run leaves exactly the documents that some of the messages
      leave, each handled at most once and in their order: those before the committed offset and possibly
      the next one. */
  lemma SomeMessagesOnce(start: Docs, log: seq<Message>, es: seq<Event>)
    requires Legal(log, Start(start), es) && CommitOffset(false) !in es
    ensures var s := RunAll(log, Start(start), es);
      s.committed <= |log| && SomeOnce(start, log, if s.committed < |log| then s.committed + 1 else |log|, s.docs)
  {
    NothingKept(log[..0]);
    var kept, pending := RunsReached(start, log, Start(start), es, [], false);
    ReachedSome(start, log, RunAll(log, Start(start), es), kept, pending);
  }

  // ----- when commits may fail -----

  /** The commands for one document. */
  function PermsFor(ms: seq<Message>, k: Key): seq<Perm> {
    if ms == [] then []
    else
      var n := |ms| - 1;
      PermsFor(ms[..n], k) + if ms[n].key == k then [ms[n].perm] else []
  }

  lemma {:induction false} DocumentAfter(start: Docs, ms: seq<Message>, k: Key)
    requires k in start
    ensures k in HandleAll(start, ms) && HandleAll(start, ms)[k] == Perms(PermsFor(ms, k), start[k])
  {
    if ms != [] {
      var n := |ms| - 1;
      DocumentAfter(start, ms[..n], k);
      if ms[n].key == k {
        PermsJoined(PermsFor(ms[..n], k), [ms[n].perm], start[k]);
        assert [ms[n].perm][1..] == [];
      } else {
        assert PermsFor(ms[..n], k) + [] == PermsFor(ms[..n], k);
      }
    }
  }

  lemma {:induction false} PermsForIn(ms: seq<Message>, k: Key, p: Perm)
    ensures p in PermsFor(ms, k) <==> Message(k, p) in ms
  {
    if ms != [] {
      var n := |ms| - 1;
      PermsForIn(ms[..n], k, p);
      assert ms == ms[..n] + [ms[n]];
    }
  }

  /** The commands that leave their holder the letters it has after the given history. */
  function Decisive(log: seq<Perm>, ps: seq<Perm>): seq<Perm> {
    if log == [] then []
    else
      var n := |log| - 1;
      Decisive(log[..n], ps) + if LastLetters(ps, Names(log[n])) == Some(Letters(log[n])) then [log[n]] else []
  }

  lemma {:induction false} DecisiveIsSubsequence(log: seq<Perm>, ps: seq<Perm>)
    ensures Subsequence(Decisive(log, ps), log)
  {
    if log != [] {
      var n := |log| - 1;
      DecisiveIsSubsequence(log[..n], ps);
      assert log[..n + 1] == log;
      NextKept(Decisive(log[..n], ps), log, n);
      assert Decisive(log[..n], ps) + [] == Decisive(log[..n], ps);
    }
  }

  lemma {:induction false} DecisiveLetters(log: seq<Perm>, ps: seq<Perm>, h: Holder)
    ensures LastLetters(Decisive(log, ps), h) ==
            if exists p :: p in log && Names(p) == h && LastLetters(ps, h) == Some(Letters(p)) then LastLetters(ps, h)
            else None
  {
    if log != [] {
      var n := |log| - 1;
      assert log == log[..n] + [log[n]];
      DecisiveLetters(log[..n], ps, h);
      var last := if LastLetters(ps, Names(log[n])) == Some(Letters(log[n])) then [log[n]] else [];
      LastLettersJoined(Decisive(log[..n], ps), last, h);
      assert last != [] ==> last[1..] == [];
    }
  }

  lemma {:induction false} LastLettersOfOne(ps: seq<Perm>, h: Holder)
    ensures LastLetters(ps, h).Some? <==> exists p :: p in ps && Names(p) == h
    ensures LastLetters(ps, h).Some? ==>
            exists p :: p in ps && Names(p) == h && LastLetters(ps, h) == Some(Letters(p))
  {
    if ps != [] {
      LastLettersOfOne(ps[1..], h);
      assert ps == [ps[0]] + ps[1..];
    }
  }

  /** Handled in any order, repeated or dropped, commands leave what some of them leave once each and in
      their own order: for users all rights, for groups admin, read and write. */
  lemma AnyOrderAsSome(log: seq<Perm>, ps: seq<Perm>, d: Doc)
    requires forall p | p in ps :: p in log
    ensures Subsequence(Decisive(log, ps), log)
    ensures forall h: Holder, l | h.Group? ==> l != Execute ::
      HasRight(Perms(ps, d), h, l) <==> HasRight(Perms(Decisive(log, ps), d), h, l)
  {
    DecisiveIsSubsequence(log, ps);
    forall h: Holder ensures LastLetters(Decisive(log, ps), h) == LastLetters(ps, h) {
      DecisiveLetters(log, ps, h);
      LastLettersOfOne(ps, h);
    }
    OnlyLastCommandsMatter(ps, Decisive(log, ps), d);
  }

  predicate Sound(start: Docs, log: seq<Message>, s: State, done: seq<Message>) {
    && s.docs == HandleAll(start, done) && s.committed <= s.position <= |log|
    && (s.phase != Idle ==> s.position < |log|) && forall m | m in done :: m in log
  }

  lemma {:induction false} RunsSound(start: Docs, log: seq<Message>, s: State, es: seq<Event>, done: seq<Message>)
    returns (done': seq<Message>)
    requires Sound(start, log, s, done) && Legal(log, s, es)
    ensures Sound(start, log, RunAll(log, s, es), done')
    decreases |es|
  {
    done' := done;
    if es != [] {
      if (es[0].Run? || es[0].TimeOut?) && es[0].effective {
        done' := done + [log[s.position]];
        HandleOneMore(start, done, log[s.position]);
      }
      done' := RunsSound(start, log, Next(log, s, es[0]), es[1..], done');
    }
  }

  predicate AsSome(log: seq<Perm>, d: Doc, after: Doc, qs: seq<Perm>, h: Holder, l: Letter) {
    Subsequence(qs, log) && (HasRight(after, h, l) <==> HasRight(Perms(qs, d), h, l))
  }

  /** Whichever commits fail: every document has the rights that some of its commands leave, each handled
      at most once and in their order; groups' execute rights excepted. */
  lemma FailedCommits(start: Docs, log: seq<Message>, es: seq<Event>, k: Key) returns (qs: seq<Perm>)
    requires Legal(log, Start(start), es) && k in start
    ensures k in RunAll(log, Start(start), es).docs
    ensures forall h: Holder, l | h.Group? ==> l != Execute ::
      AsSome(PermsFor(log, k), start[k], RunAll(log, Start(start), es).docs[k], qs, h, l)
  {
    var done := RunsSound(start, log, Start(start), es, []);
    var ps := PermsFor(done, k);
    DocumentAfter(start, done, k);
    forall p | p in ps ensures p in PermsFor(log, k) {
      PermsForIn(done, k, p);
      PermsForIn(log, k, p);
    }
    AnyOrderAsSome(PermsFor(log, k), ps, start[k]);
    qs := Decisive(PermsFor(log, k), ps);
  }

  // ----- and a group's x -----

  const OPS := PutGroup("ops", "x")
  const DEV := PutGroup("dev", "ax")

  lemma OneOrNone<T>(a: T, kept: seq<T>)
    requires Subsequence(kept, [a])
    ensures kept == [] || kept == [a]
  {
    assert [a][..0] == [];
    if kept != [] {
      assert kept == kept[..|kept| - 1] + [kept[|kept| - 1]];
    }
  }

  lemma FourSubsequences<T>(a: T, b: T, kept: seq<T>)
    requires Subsequence(kept, [a, b])
    ensures kept == [] || kept == [a] || kept == [b] || kept == [a, b]
  {
    assert [a, b][..1] == [a];
    if Subsequence(kept, [a]) {
      OneOrNone(a, kept);
    } else {
      OneOrNone(a, kept[..|kept| - 1]);
      assert kept == kept[..|kept| - 1] + [b];
    }
  }

  lemma PermsOfOne(p: Perm, d: Doc)
    ensures Perms([p], d) == ApplyPerm(p, d)
  {
    assert [p][1..] == [];
  }

  lemma PermsOfMore(p: Perm, q: Perm, r: Perm, d: Doc)
    ensures Perms([p, q], d) == ApplyPerm(q, ApplyPerm(p, d))
    ensures Perms([p, q, r], d) == ApplyPerm(r, ApplyPerm(q, ApplyPerm(p, d)))
  {
    var d1, d2 := ApplyPerm(p, d), ApplyPerm(q, ApplyPerm(p, d));
    assert [p, q, r][1..] == [q, r] && [q, r][1..] == [r] && [p, q][1..] == [q];
    PermsOfOne(q, d1);
    PermsOfOne(r, d2);
    assert Perms([q, r], d1) == Perms([r], d2);
  }

  lemma OpsGranted(d: Doc)
    ensures ApplyPerm(OPS, d).groups ==
      var ls := Without(d.groups, "ops"); ls.(execute := ls.admin + ["ops"])
  {
    assert "x"[1..] == "";
  }

  lemma DevGranted(d: Doc)
    requires "dev" !in d.groups.admin
    ensures ApplyPerm(DEV, d).groups ==
      var ls := Without(d.groups, "dev"); ls.(admin := ls.admin + ["dev"], execute := ls.admin + ["dev", "dev"])
  {
    var ls := Without(d.groups, "dev");
    assert "ax"[1..] == "x" && "x"[1..] == "";
    assert ls.admin + ["dev"] + ["dev"] == ls.admin + ["dev", "dev"];
  }

  /** Handling "ops" again after "dev", and then dropping "dev", leaves both groups with execute. */
  lemma ExecuteAfterRedelivery(d: Doc)
    requires d.groups == NOBODY
    ensures Perms([OPS, DEV, OPS], d).groups.execute == ["dev", "ops"]
  {
    var d1, d2 := ApplyPerm(OPS, d), ApplyPerm(DEV, ApplyPerm(OPS, d));
    PermsOfMore(OPS, DEV, OPS, d);
    OpsGranted(d);
    DevGranted(d1);
    OpsGranted(d2);
    assert Remove(["dev"], "ops") == ["dev"] by { assert ["dev"][1..] == [] && "dev" != "ops"; }
    assert d2.groups.admin == ["dev"];
  }

  /** Handling some of the two once each and in their order never does. */
  lemma NeverBothOtherwise(d: Doc, qs: seq<Perm>)
    requires d.groups == NOBODY && Subsequence(qs, [OPS, DEV])
    ensures !(HasRight(Perms(qs, d), Group("ops"), Execute) && HasRight(Perms(qs, d), Group("dev"), Execute))
  {
    FourSubsequences(OPS, DEV, qs);
    PermsOfMore(OPS, DEV, OPS, d);
    PermsOfOne(OPS, d);
    PermsOfOne(DEV, d);
    OpsGranted(d);
    DevGranted(d);
    DevGranted(ApplyPerm(OPS, d));
  }
}
