/** What becomes of the documents when several messages are handled again, as happens when commits
    fail (lib/worker/kafka/consumer.go). */
module Redelivery {
  import opened GoStrings
  import opened Model
  import opened Commands
  import opened Views
  import opened Consumer

  // ----- one stretch of messages, handled twice -----

  predicate PutAt(block: seq<Received>, k: Key, i: int) {
    0 <= i < |block| && block[i].key == k && block[i].command.Put?
  }

  predicate RightsAt(block: seq<Received>, k: Key, i: int) {
    0 <= i < |block| && block[i].key == k && block[i].command.SetRights? && block[i].command.rights.Some?
  }

  /** There is a PUT, and every RIGHTS with rights comes before the first one. */
  ghost predicate RightsOnlyBeforePut(block: seq<Received>, k: Key) {
    && (exists i :: PutAt(block, k, i))
    && forall i, j | PutAt(block, k, i) && RightsAt(block, k, j) :: j < i
  }

  /** Rights that found no resource the first time find one the second time: the stretch does not
      delete the resource, and it sets its rights, but only before it creates it. */
  ghost predicate Harmful(present: bool, block: seq<Received>, k: Key) {
    !present && !HasDelete(block, k) && LastRights(block, k).Some? && RightsOnlyBeforePut(block, k)
  }

  lemma {:induction false} LastRightsAt(block: seq<Received>, k: Key)
    ensures LastRights(block, k).Some? <==> exists j :: RightsAt(block, k, j)
  {
    if block != [] {
      LastRightsAt(block[1..], k);
      PositionsShift(block, k);
      if j :| RightsAt(block, k, j) {
        assert j > 0 ==> RightsAt(block[1..], k, j - 1);
      }
      if LastRights(block[1..], k).Some? {
        var j :| RightsAt(block[1..], k, j);
        assert RightsAt(block, k, j + 1);
      } else if LastRights(block, k).Some? {
        assert RightsAt(block, k, 0);
      }
    }
  }

  lemma PositionsShift(block: seq<Received>, k: Key)
    requires block != []
    ensures forall i | i > 0 :: PutAt(block, k, i) <==> PutAt(block[1..], k, i - 1)
    ensures forall i | i > 0 :: RightsAt(block, k, i) <==> RightsAt(block[1..], k, i - 1)
  {}

  /** Those stretches leave a resource that was gone with the defaults of the PUT that created it. */
  lemma {:induction false} DefaultsLeftExactly(block: seq<Received>, k: Key)
    requires !HasDelete(block, k)
    ensures RightsOnlyBeforePut(block, k) <==>
            ViewAfter(Gone, block, k).Present? && ViewAfter(Gone, block, k).rights.Defaults?
    decreases |block|
  {
    if block != [] {
      var rest := block[1..];
      assert block[0] in block && forall m | m in rest :: m in block;
      PositionsShift(block, k);
      if PutAt(block, k, 0) {
        PresentAfter(Receive(Gone, block[0], k), rest, k);
        LastRightsAt(block, k);
        LastRightsAt(rest, k);
      } else {
        DefaultsLeftExactly(rest, k);
        OnlyBeforePutShifts(block, k);
      }
    }
  }

  lemma OnlyBeforePutShifts(block: seq<Received>, k: Key)
    requires block != [] && !PutAt(block, k, 0)
    ensures RightsOnlyBeforePut(block, k) <==> RightsOnlyBeforePut(block[1..], k)
  {
    var rest := block[1..];
    PositionsShift(block, k);
    forall i | PutAt(block, k, i) ensures i > 0 && PutAt(rest, k, i - 1) {}
    if RightsOnlyBeforePut(block, k) {
      forall i, j | PutAt(rest, k, i) && RightsAt(rest, k, j) ensures j < i {
        assert PutAt(block, k, i + 1) && RightsAt(block, k, j + 1);
      }
    }
    if RightsOnlyBeforePut(rest, k) {
      forall i, j | PutAt(block, k, i) && RightsAt(block, k, j) ensures j < i {
        assert j > 0 ==> RightsAt(rest, k, j - 1);
      }
      var i :| PutAt(rest, k, i);
      assert PutAt(block, k, i + 1);
    }
  }

  /** The view is the same after the second time exactly when the stretch is not harmful. */
  lemma TwiceIsOnceExactly(w: View, block: seq<Received>, k: Key)
    ensures ViewAfter(ViewAfter(w, block, k), block, k) == ViewAfter(w, block, k) <==> !Harmful(w.Present?, block, k)
  {
    if HasDelete(block, k) {
      DeleteForgets(ViewAfter(w, block, k), w, block, k);
    } else {
      DefaultsLeftExactly(block, k);
      if w.Present? { PresentAfter(w, block, k); } else { GoneAfter(block, k); }
      if ViewAfter(w, block, k).Present? { PresentAfter(ViewAfter(w, block, k), block, k); }
    }
  }

  /** A harmful stretch leaves the second time what it left the first time, but with the last rights. */
  lemma HarmfulTwice(block: seq<Received>, k: Key)
    requires Harmful(false, block, k)
    ensures FirstOwner(block, k).Some?
    ensures var once := ViewAfter(Gone, block, k);
      once.Present? && once.rights == Defaults(FirstOwner(block, k).value) &&
      ViewAfter(once, block, k) == once.(rights := Granted(LastRights(block, k).value))
  {
    DefaultsLeftExactly(block, k);
    GoneAfter(block, k);
    PresentAfter(ViewAfter(Gone, block, k), block, k);
  }

  /** The stretch is not harmful, or its last rights happen to be defaults of the owner named by the PUT
      that created the document. */
  ghost predicate Redeliverable(config: Config, present: bool, block: seq<Received>, k: Key) {
    || !Harmful(present, block, k)
    || (FirstOwner(block, k).Some? && DefaultsGrant(config, k, FirstOwner(block, k).value, LastRights(block, k).value))
  }

  /** Handling the stretch a second time leaves a document that handling it once can leave. */
  ghost predicate HandledTwiceShows(
    config: Config, docs: Docs, block: seq<Received>, k: Key, vs: seq<Delivery>, ws: seq<Delivery>)
  {
    && AllValid(config, vs) && AllValid(config, ws)
    && var once, after := ViewAfter(ViewOf(docs, k), block, k), Fold(config, Fold(config, docs, vs), ws);
       Shows(config, k, docs, once, after) && ShowsCreator(k, once, after)
  }

  lemma StartShown(config: Config, docs: Docs, k: Key) returns (ranging: Ranging)
    ensures ShowsIn(config, k, docs, ViewOf(docs, k), docs, ranging) && ShowsCreator(k, ViewOf(docs, k), docs)
  {
    ranging := ARanging(InitialGroups(config, k.kind).Keys);
  }

  /** What both executions together leave. */
  lemma TwiceShown(config: Config, docs: Docs, block: seq<Received>, k: Key, vs: seq<Delivery>, ws: seq<Delivery>)
    returns (ranging: Ranging)
    requires Filed(docs) && Resourceful(block) && Executes(config, vs, block) && Executes(config, ws, block)
    ensures AllValid(config, vs) && AllValid(config, ws)
    ensures var twice := ViewAfter(ViewAfter(ViewOf(docs, k), block, k), block, k);
      var after := Fold(config, Fold(config, docs, vs), ws);
      ShowsIn(config, k, docs, twice, after, ranging) && ShowsCreator(k, twice, after)
  {
    ranging := StartShown(config, docs, k);
    ranging := ExecutionShown(config, docs, ViewOf(docs, k), docs, block, vs, k, ranging);
    ranging := ExecutionShown(config, docs, ViewAfter(ViewOf(docs, k), block, k), Fold(config, docs, vs), block, ws, k, ranging);
  }

  /** For every stretch of messages, documents and resource: handling it twice always leaves a document
      that handling it once can leave, a known creator included, exactly when it is redeliverable. */
  lemma RedeliveryExactly(config: Config, docs: Docs, block: seq<Received>, k: Key)
    requires Filed(docs) && Resourceful(block)
    ensures (forall vs, ws | Executes(config, vs, block) && Executes(config, ws, block) ::
              HandledTwiceShows(config, docs, block, k, vs, ws))
       <==> Redeliverable(config, k in docs, block, k)
  {
    if Redeliverable(config, k in docs, block, k) {
      forall vs, ws | Executes(config, vs, block) && Executes(config, ws, block)
        ensures HandledTwiceShows(config, docs, block, k, vs, ws)
      {
        HarmlessShown(config, docs, block, k, vs, ws);
      }
    } else {
      var vs := Execution(config, block, k.kind, ARanging(InitialGroups(config, k.kind).Keys));
      HarmShows(config, docs, block, k, vs, vs);
    }
  }

  /** Otherwise no execution does. */
  lemma HarmShows(config: Config, docs: Docs, block: seq<Received>, k: Key, vs: seq<Delivery>, ws: seq<Delivery>)
    requires Filed(docs) && Resourceful(block) && Executes(config, vs, block) && Executes(config, ws, block)
    requires !Redeliverable(config, k in docs, block, k)
    ensures AllValid(config, vs) && AllValid(config, ws)
    ensures !Shows(config, k, docs, ViewAfter(ViewOf(docs, k), block, k), Fold(config, Fold(config, docs, vs), ws))
  {
    HarmfulTwice(block, k);
    var _ := TwiceShown(config, docs, block, k, vs, ws);
    var once, after := ViewAfter(Gone, block, k), Fold(config, Fold(config, docs, vs), ws);
    var owner, rights := FirstOwner(block, k).value, LastRights(block, k).value;
    forall ranging ensures !ShowsIn(config, k, docs, once, after, ranging) {
      assert ShowsIn(config, k, docs, once, after, ranging) ==> DefaultsRealize(config, k, owner, rights, ranging);
    }
  }

  lemma HarmlessShown(config: Config, docs: Docs, block: seq<Received>, k: Key, vs: seq<Delivery>, ws: seq<Delivery>)
    requires Filed(docs) && Resourceful(block) && Executes(config, vs, block) && Executes(config, ws, block)
    requires Redeliverable(config, k in docs, block, k)
    ensures HandledTwiceShows(config, docs, block, k, vs, ws)
  {
    var ranging := TwiceShown(config, docs, block, k, vs, ws);
    var once, after := ViewAfter(ViewOf(docs, k), block, k), Fold(config, Fold(config, docs, vs), ws);
    if Harmful(k in docs, block, k) {
      HarmfulTwice(block, k);
      var owner, rights := FirstOwner(block, k).value, LastRights(block, k).value;
      var other :| RangesOver(other, InitialGroups(config, k.kind).Keys) && DefaultsRealize(config, k, owner, rights, other);
      assert ShowsIn(config, k, docs, once, after, other);
    } else {
      TwiceIsOnceExactly(ViewOf(docs, k), block, k);
      assert ShowsIn(config, k, docs, once, after, ranging);
    }
  }

  // ----- a losing pair -----

  const KEY := Key("devices", "d1")
  const GRANT := Delivery(KEY, SetRights(Some(BOB_ONLY), ""), Orders(["bob"], [], Ranging([], [])))
  const CREATE := Delivery(KEY, Put(map[], "ann"), Orders([], [], Ranging([], [])))

  /** Rights that found no document the first time find one the second time. */
  lemma RedeliveredPairDiffers()
    ensures Valid(map[], GRANT) && Valid(map[], CREATE)
    ensures !Same(Deliver(map[], Deliver(map[], map[], GRANT), CREATE),
                  Deliver(map[], Deliver(map[], Deliver(map[], Deliver(map[], map[], GRANT), CREATE), GRANT), CREATE))
  {
    var once := Deliver(map[], Deliver(map[], map[], GRANT), CREATE);
    var twice := Deliver(map[], Deliver(map[], once, GRANT), CREATE);
    assert once[KEY].users.Holds("ann", Admin);
    AddRightsHolders(NOBODY, BOB_ONLY.users, ["bob"], "ann", Admin);
    assert !twice[KEY].users.Holds("ann", Admin);
  }

  // ----- runs whose commits may fail -----

  /** Every rest of the log can be handled again from where it begins. */
  ghost predicate RestsRedeliverable(config: Config, w: View, log: seq<Received>, k: Key) {
    forall j | 0 <= j <= |log| :: Redeliverable(config, ViewAfter(w, log[..j], k).Present?, log[j..], k)
  }

  /** The views are equal, or the second has defaults and the first the same rights granted. */
  ghost predicate Alike(config: Config, k: Key, a: View, b: View) {
    || a == b
    || (a.Present? && b.Present? && a == b.(rights := a.rights) && a.rights.Granted? && b.rights.Defaults? &&
        DefaultsGrant(config, k, b.rights.owner, a.rights.rights))
  }

  lemma {:induction false} Contained(log: seq<Received>, q: nat, k: Key)
    requires q < |log| && log[q].key == k
    ensures log[q].command.Put? ==> LastFeatures(log, k).Some?
    ensures log[q].command.SetRights? && log[q].command.rights.Some? ==> LastRights(log, k).Some?
  {
    if q > 0 {
      assert log[1..][q - 1] == log[q];
      Contained(log[1..], q - 1, k);
    }
  }

  /** A message that is still to be handled again may take effect now without changing the outcome. */
  lemma Absorbs(config: Config, w: View, z: View, block: seq<Received>, q: nat, k: Key)
    requires q < |block| && Redeliverable(config, w.Present?, block, k)
    requires Alike(config, k, ViewAfter(z, block, k), ViewAfter(w, block, k))
    requires Alike(config, k, ViewAfter(z, block[q..], k), ViewAfter(w, block, k))
    ensures Alike(config, k, ViewAfter(Receive(z, block[q], k), block, k), ViewAfter(w, block, k))
  {
    var next := Receive(z, block[q], k);
    if next != z {
      if HasDelete(block, k) {
        DeleteForgets(next, z, block, k);
      } else {
        Contained(block, q, k);
        assert block[q] in block && next.Present?;
        PresentAfter(next, block, k);
        if z.Present? {
          PresentAfter(z, block, k);
        } else {
          CreationAbsorbed(config, w, block, q, k);
        }
      }
    }
  }

  /** The case of a PUT that creates the document: it names the owner of the first PUT, and rights set
      in the stretch are set after that or are defaults of that owner. */
  lemma CreationAbsorbed(config: Config, w: View, block: seq<Received>, q: nat, k: Key)
    requires q < |block| && Redeliverable(config, w.Present?, block, k) && !HasDelete(block, k)
    requires block[q].key == k && block[q].command.Put?
    requires Alike(config, k, ViewAfter(Gone, block, k), ViewAfter(w, block, k))
    requires Alike(config, k, ViewAfter(Gone, block[q..], k), ViewAfter(w, block, k))
    ensures LastFeatures(block, k).Some?
    ensures var owner := block[q].command.owner;
      Alike(config, k,
        Present(LastFeatures(block, k).value, map[],
          match LastRights(block, k) case Some(r) => Granted(r) case None => Defaults(owner), owner),
        ViewAfter(w, block, k))
  {
    assert forall m | m in block[q..] :: m in block;
    DefaultsLeftExactly(block, k);
    GoneAfter(block, k);
    GoneAfter(block[q..], k);
    Contained(block, q, k);
    if w.Present? { PresentAfter(w, block, k); }
  }

  /** Handling the log from j on would leave what handling all of it once leaves. */
  ghost predicate Converges(config: Config, w: View, log: seq<Received>, k: Key, z: View, j: nat)
    requires j <= |log|
  {
    Alike(config, k, ViewAfter(z, log[j..], k), ViewAfter(w, log, k))
  }

  ghost predicate AllConverge(config: Config, w: View, log: seq<Received>, k: Key, z: View, from: nat, to: nat)
    requires to <= |log|
  {
    forall j | from <= j <= to :: Converges(config, w, log, k, z, j)
  }

  lemma StillConverges(config: Config, w: View, log: seq<Received>, k: Key, z: View, j: nat, q: nat)
    requires RestsRedeliverable(config, w, log, k) && j <= q < |log|
    requires Converges(config, w, log, k, z, j) && Converges(config, w, log, k, z, q)
    ensures Converges(config, w, log, k, Receive(z, log[q], k), j)
  {
    var w0, block := ViewAfter(w, log[..j], k), log[j..];
    RestAt(config, w, log, k, j);
    assert block[q - j..] == log[q..] && block[q - j] == log[q];
    Absorbs(config, w0, z, block, q - j, k);
  }

  lemma RestAt(config: Config, w: View, log: seq<Received>, k: Key, j: nat)
    requires RestsRedeliverable(config, w, log, k) && j <= |log|
    ensures Redeliverable(config, ViewAfter(w, log[..j], k).Present?, log[j..], k)
    ensures ViewAfter(w, log, k) == ViewAfter(ViewAfter(w, log[..j], k), log[j..], k)
  {
    assert log == log[..j] + log[j..];
    ViewJoined(w, log[..j], log[j..], k);
  }

  /** An attempt that takes effect keeps everything converging, also from behind its message. */
  lemma AttemptConverges(config: Config, w: View, log: seq<Received>, k: Key, z: View, from: nat, q: nat, to: nat)
    requires RestsRedeliverable(config, w, log, k) && from <= q <= to <= |log| && q < |log|
    requires AllConverge(config, w, log, k, z, from, to)
    ensures AllConverge(config, w, log, k, Receive(z, log[q], k), from, q + 1)
  {
    assert Converges(config, w, log, k, z, q);
    forall j | from <= j <= q ensures Converges(config, w, log, k, Receive(z, log[q], k), j) {
      assert Converges(config, w, log, k, z, j);
      StillConverges(config, w, log, k, z, j, q);
    }
    assert log[q..][1..] == log[q + 1..];
  }

  /** The documents show a view from which handling on, or again from the committed offset, leads to
      what handling every message once leads to. */
  ghost predicate OnTrack(
    config: Config, start: Docs, log: seq<Received>, k: Key, s: Consumer.State, z: View, ranging: Ranging, to: nat)
  {
    && s.committed <= s.position <= to <= |log| && to <= s.position + 1
    && (s.phase.Idle? ==> to == s.position) && (s.phase.Handled? ==> to == s.position + 1)
    && Filed(s.docs) && ShowsIn(config, k, start, z, s.docs, ranging) && ShowsCreator(k, z, s.docs)
    && AllConverge(config, ViewOf(start, k), log, k, z, s.committed, to)
  }

  lemma StaysOnTrack(
    config: Config, start: Docs, log: seq<Received>, k: Key, s: Consumer.State, e: Event, z: View, ranging: Ranging, to: nat)
    returns (z': View, ranging': Ranging, to': nat)
    requires Resourceful(log) && RestsRedeliverable(config, ViewOf(start, k), log, k)
    requires OnTrack(config, start, log, k, s, z, ranging, to) && Enabled(config, log, s, e)
    ensures OnTrack(config, start, log, k, Next(config, log, s, e), z', ranging', to')
  {
    var s' := Next(config, log, s, e);
    z', ranging' := z, ranging;
    to' := if s'.phase.Idle? then s'.position else to;
    if e.Attempt? && e.effective {
      var q := s.position;
      var v := Delivery(log[q].key, log[q].command, e.orders);
      assert s'.docs == Deliver(config, s.docs, v);
      ranging' := StepShown(config, start, z, s.docs, v, k, ranging);
      ApplyKeepsFiled(s.docs, v.key, v.command, v.orders, config);
      AttemptConverges(config, ViewOf(start, k), log, k, z, s.committed, q, to);
      z', to' := Receive(z, log[q], k), q + 1;
    }
  }

  lemma {:induction false} OnTrackOverRun(
    config: Config, start: Docs, log: seq<Received>, k: Key, s: Consumer.State, es: seq<Event>,
    z: View, ranging: Ranging, to: nat)
    returns (z': View, ranging': Ranging, to': nat)
    requires Resourceful(log) && RestsRedeliverable(config, ViewOf(start, k), log, k)
    requires OnTrack(config, start, log, k, s, z, ranging, to) && Legal(config, log, s, es)
    ensures OnTrack(config, start, log, k, Run(config, log, s, es), z', ranging', to')
    decreases |es|
  {
    z', ranging', to' := z, ranging, to;
    if es != [] {
      z', ranging', to' := StaysOnTrack(config, start, log, k, s, es[0], z, ranging, to);
      z', ranging', to' := OnTrackOverRun(config, start, log, k, Next(config, log, s, es[0]), es[1..], z', ranging', to');
    }
  }

  lemma StartOnTrack(config: Config, start: Docs, log: seq<Received>, k: Key) returns (ranging: Ranging)
    requires Filed(start)
    ensures OnTrack(config, start, log, k, State(start, 0, 0, Idle), ViewOf(start, k), ranging, 0)
  {
    ranging := StartShown(config, start, k);
    assert log[0..] == log;
    assert Converges(config, ViewOf(start, k), log, k, ViewOf(start, k), 0);
  }

  lemma AlikeShown(config: Config, k: Key, start: Docs, a: View, b: View, docs: Docs, ranging: Ranging)
    requires Alike(config, k, a, b) && ShowsIn(config, k, start, a, docs, ranging) && ShowsCreator(k, a, docs)
    ensures Shows(config, k, start, b, docs) && ShowsCreator(k, b, docs)
  {
    if a == b {
      assert ShowsIn(config, k, start, b, docs, ranging);
    } else {
      var owner, rights := b.rights.owner, a.rights.rights;
      var other :| RangesOver(other, InitialGroups(config, k.kind).Keys) && DefaultsRealize(config, k, owner, rights, other);
      assert ShowsIn(config, k, start, b, docs, other);
    }
  }

  /** The consumer is at the end of the log, and the document is one that handling every message once
      can leave. */
  ghost predicate EndsAsOnce(config: Config, start: Docs, log: seq<Received>, k: Key, s: Consumer.State) {
    var once := ViewAfter(ViewOf(start, k), log, k);
    s.position == |log| ==> Shows(config, k, start, once, s.docs) && ShowsCreator(k, once, s.docs)
  }

  /** Whichever commits fail and however often the consumer starts again behind the last stored one:
      at the end of the log each document is one that handling every message once can leave, if every
      rest of the log is redeliverable. */
  lemma FailedCommitsDoNoHarm(config: Config, start: Docs, log: seq<Received>, es: seq<Event>, k: Key)
    requires Resourceful(log) && Filed(start) && RestsRedeliverable(config, ViewOf(start, k), log, k)
    requires Legal(config, log, State(start, 0, 0, Idle), es)
    ensures EndsAsOnce(config, start, log, k, Run(config, log, State(start, 0, 0, Idle), es))
  {
    var ranging := StartOnTrack(config, start, log, k);
    var z, ranging', to := OnTrackOverRun(config, start, log, k, State(start, 0, 0, Idle), es, ViewOf(start, k), ranging, 0);
    EndOfTrack(config, start, log, k, Run(config, log, State(start, 0, 0, Idle), es), z, ranging', to);
  }

  lemma EndOfTrack(
    config: Config, start: Docs, log: seq<Received>, k: Key, s: Consumer.State, z: View, ranging: Ranging, to: nat)
    requires OnTrack(config, start, log, k, s, z, ranging, to)
    ensures EndsAsOnce(config, start, log, k, s)
  {
    if s.position == |log| {
      assert Converges(config, ViewOf(start, k), log, k, z, |log|);
      assert log[|log|..] == [];
      AlikeShown(config, k, start, z, ViewAfter(ViewOf(start, k), log, k), s.docs, ranging);
    }
  }

  // ----- a rest that is not redeliverable meets its run -----

  ghost predicate RunsTo(config: Config, log: seq<Received>, s: Consumer.State, es: seq<Event>, s': Consumer.State) {
    Legal(config, log, s, es) && Run(config, log, s, es) == s'
  }

  lemma FirstEvent(config: Config, log: seq<Received>, s: Consumer.State, e: Event, es: seq<Event>, s': Consumer.State)
    requires Enabled(config, log, s, e) && RunsTo(config, log, Next(config, log, s, e), es, s')
    ensures RunsTo(config, log, s, [e] + es, s')
  {
    assert ([e] + es)[1..] == es;
  }

  /** The consumer handles the messages from n up to m without an error, and either all commits are
      stored or none. */
  lemma {:induction false} Handles(
    config: Config, log: seq<Received>, docs: Docs, c: nat, n: nat, m: nat, vs: seq<Delivery>, stored: bool)
    returns (es: seq<Event>)
    requires n <= m <= |log| && Executes(config, vs, log[n..m])
    ensures AllValid(config, vs)
    ensures RunsTo(config, log, State(docs, c, n, Idle), es,
                   State(Fold(config, docs, vs), if stored && n < m then m else c, m, Idle))
    decreases m - n
  {
    if n == m {
      es := [];
    } else {
      var v, next := vs[0], Deliver(config, docs, vs[0]);
      assert log[n..m][0] == log[n] && log[n..m][1..] == log[n + 1..m];
      assert v.key == log[n].key && v.command == log[n].command && Valid(config, v);
      var c' := if stored then n + 1 else c;
      es := Handles(config, log, next, c', n + 1, m, vs[1..], stored);
      var end := State(Fold(config, docs, vs), if stored then m else c, m, Idle);
      FirstEvent(config, log, State(next, c, n, Handled), CommitOffset(stored), es, end);
      es := [CommitOffset(stored)] + es;
      FirstEvent(config, log, State(docs, c, n, Handling), Attempt(v.orders, true, true), es, end);
      es := [Attempt(v.orders, true, true)] + es;
      FirstEvent(config, log, State(docs, c, n, Idle), Fetch, es, end);
      es := [Fetch] + es;
    }
  }

  lemma {:induction false} RunsJoin(
    config: Config, log: seq<Received>, s: Consumer.State, a: seq<Event>, mid: Consumer.State, b: seq<Event>, s': Consumer.State)
    requires RunsTo(config, log, s, a, mid) && RunsTo(config, log, mid, b, s')
    ensures RunsTo(config, log, s, a + b, s')
    decreases |a|
  {
    if a == [] {
      assert a + b == b;
    } else {
      assert (a + b)[1..] == a[1..] + b;
      RunsJoin(config, log, Next(config, log, s, a[0]), a[1..], mid, b, s');
    }
  }

  /** Any two executions of a rest of the log follow each other in some run: the commits are stored up
      to where the rest begins and fail from there on, and at the end the consumer crashes. */
  lemma Redelivers(
    config: Config, start: Docs, log: seq<Received>, j: nat, us: seq<Delivery>, vs: seq<Delivery>, ws: seq<Delivery>)
    returns (es: seq<Event>)
    requires j <= |log| && Executes(config, us, log[..j]) && Executes(config, vs, log[j..]) && Executes(config, ws, log[j..])
    ensures AllValid(config, us) && AllValid(config, vs) && AllValid(config, ws)
    ensures RunsTo(config, log, State(start, 0, 0, Idle), es,
                   State(Fold(config, Fold(config, Fold(config, start, us), vs), ws), j, |log|, Idle))
  {
    assert log[0..j] == log[..j] && log[j..|log|] == log[j..];
    var before := Fold(config, start, us);
    var once := Fold(config, before, vs);
    var end := State(Fold(config, once, ws), j, |log|, Idle);
    var last := Handles(config, log, once, j, j, |log|, ws, false);
    FirstEvent(config, log, State(once, j, |log|, Idle), Crash, last, end);
    var rest := Handles(config, log, before, j, j, |log|, vs, false);
    RunsJoin(config, log, State(before, j, j, Idle), rest, State(once, j, |log|, Idle), [Crash] + last, end);
    var first := Handles(config, log, start, 0, 0, j, us, true);
    RunsJoin(config, log, State(start, 0, 0, Idle), first, State(before, j, j, Idle), rest + ([Crash] + last), end);
    es := first + (rest + ([Crash] + last));
  }

  /** From a document that is gone, what is shown does not depend on the documents of the start. */
  lemma ShownFromGone(config: Config, k: Key, a: Docs, b: Docs, log: seq<Received>, docs: Docs)
    requires !HasDelete(log, k)
    ensures Shows(config, k, a, ViewAfter(Gone, log, k), docs) <==> Shows(config, k, b, ViewAfter(Gone, log, k), docs)
  {
    GoneAfter(log, k);
    var w := ViewAfter(Gone, log, k);
    forall ranging ensures ShowsIn(config, k, a, w, docs, ranging) <==> ShowsIn(config, k, b, w, docs, ranging) {}
  }

  /** If some rest of the log is not redeliverable, some run comes to the end of the log and leaves a
      document that handling every message once never leaves. */
  lemma HarmHappens(config: Config, start: Docs, log: seq<Received>, k: Key, j: nat) returns (es: seq<Event>)
    requires Resourceful(log) && Filed(start) && j <= |log|
    requires !Redeliverable(config, ViewAfter(ViewOf(start, k), log[..j], k).Present?, log[j..], k)
    ensures Legal(config, log, State(start, 0, 0, Idle), es)
    ensures !EndsAsOnce(config, start, log, k, Run(config, log, State(start, 0, 0, Idle), es))
  {
    var initial := ARanging(InitialGroups(config, k.kind).Keys);
    var us, vs := Execution(config, log[..j], k.kind, initial), Execution(config, log[j..], k.kind, initial);
    es := Redelivers(config, start, log, j, us, vs, vs);
    var ranging := StartShown(config, start, k);
    ranging := ExecutionShown(config, start, ViewOf(start, k), start, log[..j], us, k, ranging);
    var before := Fold(config, start, us);
    HarmShows(config, before, log[j..], k, vs, vs);
    ShownFromGone(config, k, before, start, log[j..], Fold(config, Fold(config, before, vs), vs));
    assert log == log[..j] + log[j..];
    ViewJoined(ViewOf(start, k), log[..j], log[j..], k);
  }

  /** Every run to the end of the log leaves a document as handling every message once can leave it,
      exactly when every rest of the log is redeliverable. */
  lemma FailedCommitsExactly(config: Config, start: Docs, log: seq<Received>, k: Key)
    requires Resourceful(log) && Filed(start)
    ensures (forall es | Legal(config, log, State(start, 0, 0, Idle), es) ::
              EndsAsOnce(config, start, log, k, Run(config, log, State(start, 0, 0, Idle), es)))
       <==> RestsRedeliverable(config, ViewOf(start, k), log, k)
  {
    if RestsRedeliverable(config, ViewOf(start, k), log, k) {
      forall es | Legal(config, log, State(start, 0, 0, Idle), es)
        ensures EndsAsOnce(config, start, log, k, Run(config, log, State(start, 0, 0, Idle), es))
      {
        FailedCommitsDoNoHarm(config, start, log, es, k);
      }
    } else {
      var j :| 0 <= j <= |log| && !Redeliverable(config, ViewAfter(ViewOf(start, k), log[..j], k).Present?, log[j..], k);
      var es := HarmHappens(config, start, log, k, j);
    }
  }
}
