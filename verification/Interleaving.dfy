/** The command handlers as concurrent processes over one OpenSearch cluster.

    A handler makes up to three store calls (exists, get, write), and any other handler may run
    between them.  Reads and writes may fail, and a write may take effect although its answer is
    lost.  A conditional write succeeds only on the document version that was read; creating and
    deleting are unconditional. */
module Interleaving {
  import opened Model
  import opened Commands

  datatype Version = Version(seqNo: nat, primaryTerm: nat)

  datatype Stored = Stored(doc: Doc, version: Version)

  datatype Outcome =
    | Succeeded   // the handler returned nil
    | Failed      // it returned an error and changed nothing
    | Unclear     // it returned an error although its write took effect

  datatype Phase =
    | Begun
    | SeenPresent
    | SeenAbsent
    | Holding(doc: Doc, version: Version)
    | Finished(outcome: Outcome, at: nat, end: nat)

  /** `start` and `end` are the lengths of the log when the handler began and finished. */
  datatype Handler = Handler(delivery: Delivery, phase: Phase, start: nat)

  datatype Commit = Commit(handler: nat, delivery: Delivery)

  datatype State = State(
    docs: map<Key, Stored>,
    nextSeq: nat,
    term: nat,
    handlers: map<nat, Handler>,
    log: seq<Commit>)

  datatype Action =
    | Start(h: nat, delivery: Delivery)
    | CheckExists(h: nat)
    | Get(h: nat)
    | Write(h: nat, answerLost: bool)
    | Fail(h: nat)
    | Merge(h: nat, delivery: Delivery, dropped: bool)   // the bulk indexer's annotation update
    | Failover

  function DocsOf(s: State): Docs {
    map k | k in s.docs :: s.docs[k].doc
  }

  function Deliveries(log: seq<Commit>): seq<Delivery> {
    seq(|log|, i requires 0 <= i < |log| => log[i].delivery)
  }

  // ----- one step -----

  function WithPhase(s: State, h: nat, p: Phase): State
    requires h in s.handlers
  {
    s.(handlers := s.handlers[h := s.handlers[h].(phase := p)])
  }

  /** The handler takes effect now, in the state it is in. */
  function Committed(s: State, h: nat, o: Outcome): State
    requires h in s.handlers
  {
    WithPhase(s, h, Finished(o, |s.log|, |s.log| + 1)).(log := s.log + [Commit(h, s.handlers[h].delivery)])
  }

  function Abandoned(s: State, h: nat): State
    requires h in s.handlers
  {
    WithPhase(s, h, Finished(Failed, |s.log|, |s.log|))
  }

  function Stores(s: State, k: Key, d: Doc): State {
    s.(docs := s.docs[k := Stored(d, Version(s.nextSeq, s.term))], nextSeq := s.nextSeq + 1)
  }

  function Removes(s: State, k: Key): State {
    s.(docs := s.docs - {k}, nextSeq := s.nextSeq + 1)
  }

  predicate InFlight(s: State, h: nat) {
    h in s.handlers && !s.handlers[h].phase.Finished?
  }

  ghost predicate Enabled(config: Config, s: State, a: Action) {
    match a
    case Start(h, v) => h !in s.handlers && v.key.id != "" && Valid(config, v)
    case Merge(h, v, _) => h !in s.handlers && v.key.id != "" && Valid(config, v) && v.command.Annotate?
    case CheckExists(h) => h in s.handlers && s.handlers[h].phase.Begun? && Valid(config, s.handlers[h].delivery)
    case Get(h) => h in s.handlers && s.handlers[h].phase.SeenPresent? && !s.handlers[h].delivery.command.Delete?
    case Write(h, _) =>
      && InFlight(s, h) && Valid(config, s.handlers[h].delivery)
      && (s.handlers[h].phase.Holding? ||
          (s.handlers[h].phase.SeenAbsent? && s.handlers[h].delivery.command.Put?) ||
          (s.handlers[h].phase.SeenPresent? && s.handlers[h].delivery.command.Delete?))
    case Fail(h) => InFlight(s, h)
    case Failover => true
  }

  function ExistsStep(s: State, h: nat): State
    requires h in s.handlers
  {
    var v := s.handlers[h].delivery;
    if v.command.SetRights? && v.command.rights.None? then Committed(s, h, Succeeded)
    else if v.command.Annotate? || v.key in s.docs then WithPhase(s, h, SeenPresent)
    else if v.command.Put? then WithPhase(s, h, SeenAbsent)
    else Committed(s, h, Succeeded)
  }

  function GetStep(s: State, h: nat): State
    requires h in s.handlers
  {
    var v := s.handlers[h].delivery;
    if v.key !in s.docs then
      if v.command.Permission? then Committed(s, h, Succeeded) else Abandoned(s, h)
    else
      var found := s.docs[v.key];
      if (v.command.Put? || v.command.SetRights?) && found.doc.resource == "" then Committed(s, h, Succeeded)
      else WithPhase(s, h, Holding(found.doc, found.version))
  }

  ghost function WriteStep(config: Config, s: State, h: nat, o: Outcome): State
    requires h in s.handlers && Enabled(config, s, Action.Write(h, o == Unclear))
  {
    var v := s.handlers[h].delivery;
    match s.handlers[h].phase
    case Holding(doc, version) =>
      if v.key in s.docs && s.docs[v.key].version == version then
        Committed(Stores(s, v.key, Change(v.command, v.key, doc, v.orders, config)), h, o)
      else Abandoned(s, h)
    case SeenAbsent =>
      Committed(Stores(s, v.key, Created(v.key, v.command.features, v.command.owner, v.orders, config)), h, o)
    case SeenPresent =>
      if v.key in s.docs then Committed(Removes(s, v.key), h, o) else Abandoned(s, h)
  }

  ghost function MergeStep(config: Config, s: State, h: nat, v: Delivery, dropped: bool): State
    requires v.command.Annotate? && Valid(config, v)
  {
    var started := s.(handlers := s.handlers[h := Handler(v, Begun, |s.log|)]);
    if dropped || v.key !in s.docs then Abandoned(started, h)
    else Committed(Stores(started, v.key, Change(v.command, v.key, s.docs[v.key].doc, v.orders, config)), h, Succeeded)
  }

  ghost function Next(config: Config, s: State, a: Action): State
    requires Enabled(config, s, a)
  {
    match a
    case Start(h, v) => s.(handlers := s.handlers[h := Handler(v, Begun, |s.log|)])
    case CheckExists(h) => ExistsStep(s, h)
    case Get(h) => GetStep(s, h)
    case Write(h, lost) => WriteStep(config, s, h, if lost then Unclear else Succeeded)
    case Fail(h) => Abandoned(s, h)
    case Merge(h, v, dropped) => MergeStep(config, s, h, v, dropped)
    case Failover => s.(term := s.term + 1)
  }

  /** At most one PUT is under way for a document, as one consumer takes them from one partition in
      order. */
  ghost predicate Disciplined(s: State, a: Action) {
    a.Start? && a.delivery.command.Put? ==>
      forall h | InFlight(s, h) && s.handlers[h].delivery.command.Put? :: s.handlers[h].delivery.key != a.delivery.key
  }

  /** The step that goes wrong: a creation that finds the document there by now. */
  ghost predicate Collides(s: State, a: Action) {
    && a.Write? && a.h in s.handlers && s.handlers[a.h].phase.SeenAbsent?
    && s.handlers[a.h].delivery.key in s.docs
  }

  // ----- runs -----

  ghost predicate Legal(config: Config, s: State, acts: seq<Action>)
    decreases |acts|
  {
    acts == [] || (Enabled(config, s, acts[0]) && Legal(config, Next(config, s, acts[0]), acts[1..]))
  }

  ghost predicate LegalDisciplined(config: Config, s: State, acts: seq<Action>)
    decreases |acts|
  {
    acts == [] || (Enabled(config, s, acts[0]) && Disciplined(s, acts[0]) &&
                   LegalDisciplined(config, Next(config, s, acts[0]), acts[1..]))
  }

  ghost function Run(config: Config, s: State, acts: seq<Action>): State
    requires Legal(config, s, acts)
    decreases |acts|
  {
    if acts == [] then s else Run(config, Next(config, s, acts[0]), acts[1..])
  }

  ghost predicate CollisionFree(config: Config, s: State, acts: seq<Action>)
    requires Legal(config, s, acts)
    decreases |acts|
  {
    acts == [] || (!Collides(s, acts[0]) && CollisionFree(config, Next(config, s, acts[0]), acts[1..]))
  }

  /** The state after the first i steps. */
  ghost function StateAt(config: Config, s: State, acts: seq<Action>, i: nat): State
    requires Legal(config, s, acts) && i <= |acts|
    decreases |acts|
  {
    if i == 0 then s else StateAt(config, Next(config, s, acts[0]), acts[1..], i - 1)
  }

  ghost predicate Initial(s: State) {
    && s.handlers == map[] && s.log == []
    && Fresh(s)
  }

  // ----- what every step keeps -----

  /** Sequence numbers in use are below the next one. */
  ghost predicate Fresh(s: State) {
    forall k | k in s.docs :: s.docs[k].version.seqNo < s.nextSeq
  }

  ghost predicate TruthfulAt(s: State, v: Delivery, doc: Doc, version: Version) {
    && version.seqNo < s.nextSeq
    && (v.key in s.docs && s.docs[v.key].version == version ==> s.docs[v.key].doc == doc)
    && !v.command.Delete?
    && (v.command.Put? || v.command.SetRights? ==> doc.resource != "")
  }

  /** A version that was read names the content that was read. */
  ghost predicate Truthful(s: State) {
    forall h | h in s.handlers && s.handlers[h].phase.Holding? ::
      TruthfulAt(s, s.handlers[h].delivery, s.handlers[h].phase.doc, s.handlers[h].phase.version)
  }

  ghost predicate Exclusive(s: State) {
    forall h, g | h != g && InFlight(s, h) && InFlight(s, g) &&
                  s.handlers[h].delivery.command.Put? && s.handlers[g].delivery.command.Put? ::
      s.handlers[h].delivery.key != s.handlers[g].delivery.key
  }

  /** What an exists check told a creating handler still holds. */
  ghost predicate Current(s: State) {
    forall h | h in s.handlers && s.handlers[h].phase.SeenAbsent? ::
      s.handlers[h].delivery.command.Put? && s.handlers[h].delivery.key !in s.docs
  }

  /** The log names each handler that took effect once, within its lifetime, and no other. */
  ghost predicate Accounted(config: Config, s: State) {
    && (forall h | h in s.handlers ::
          Valid(config, s.handlers[h].delivery) && s.handlers[h].delivery.key.id != "" && s.handlers[h].start <= |s.log|)
    && (forall h | h in s.handlers && s.handlers[h].phase.Finished? ::
          var p := s.handlers[h].phase;
          && p.end <= |s.log|
          && (p.outcome != Failed ==>
                s.handlers[h].start <= p.at < p.end && s.log[p.at] == Commit(h, s.handlers[h].delivery)))
    && (forall i | 0 <= i < |s.log| ::
          var h := s.log[i].handler;
          && h in s.handlers && s.handlers[h].phase.Finished?
          && s.handlers[h].phase.outcome != Failed && s.handlers[h].phase.at == i
          && s.log[i].delivery == s.handlers[h].delivery)
  }

  /** The documents are those of the committed commands run one at a time, in log order. */
  ghost predicate Refines(config: Config, start: Docs, s: State) {
    && AllValid(config, Deliveries(s.log))
    && DocsOf(s) == Fold(config, start, Deliveries(s.log))
  }

  /** What every legal step keeps. */
  ghost predicate Sound(config: Config, s: State) {
    Fresh(s) && Truthful(s) && Accounted(config, s)
  }

  lemma FreshKept(config: Config, s: State, a: Action)
    requires Fresh(s) && Enabled(config, s, a)
    ensures Fresh(Next(config, s, a))
  {}

  /** A document is left alone or written under a sequence number never used before. */
  lemma WritesAreFresh(config: Config, s: State, a: Action)
    requires Enabled(config, s, a)
    ensures var s' := Next(config, s, a);
            && s.nextSeq <= s'.nextSeq
            && forall k | k in s'.docs ::
                 (k in s.docs && s'.docs[k] == s.docs[k]) || s'.docs[k].version.seqNo >= s.nextSeq
  {}

  lemma TruthfulKept(config: Config, s: State, a: Action)
    requires Fresh(s) && Truthful(s) && Enabled(config, s, a)
    ensures Truthful(Next(config, s, a))
  {
    WritesAreFresh(config, s, a);
    var s' := Next(config, s, a);
    forall h | h in s'.handlers && s'.handlers[h].phase.Holding?
      ensures TruthfulAt(s', s'.handlers[h].delivery, s'.handlers[h].phase.doc, s'.handlers[h].phase.version)
    {
      if !(a.Get? && a.h == h) {
        assert h in s.handlers && s.handlers[h] == s'.handlers[h];
      }
    }
  }

  /** Whoever is still under way afterwards was under way before, with the same delivery. */
  ghost predicate Narrows(s: State, s': State) {
    forall h | InFlight(s', h) :: InFlight(s, h) && s'.handlers[h].delivery == s.handlers[h].delivery
  }

  lemma ExclusiveKept(config: Config, s: State, a: Action)
    requires Exclusive(s) && Enabled(config, s, a) && Disciplined(s, a)
    ensures Exclusive(Next(config, s, a))
  {
    var s' := Next(config, s, a);
    if !a.Start? {
      assert Narrows(s, s');
    } else {
      assert forall h | InFlight(s', h) && h != a.h :: InFlight(s, h) && s'.handlers[h] == s.handlers[h];
    }
  }

  lemma CurrentKept(config: Config, s: State, a: Action)
    requires Exclusive(s) && Current(s) && Enabled(config, s, a)
    ensures Current(Next(config, s, a))
  {
    var s' := Next(config, s, a);
    forall h | h in s'.handlers && s'.handlers[h].phase.SeenAbsent?
      ensures s'.handlers[h].delivery.command.Put? && s'.handlers[h].delivery.key !in s'.docs
    {
      assert h in s.handlers && InFlight(s, h);
      if a.Write? && a.h != h {
        assert InFlight(s, a.h);
      }
    }
  }

  lemma AccountedPhase(config: Config, s: State, h: nat, p: Phase)
    requires Accounted(config, s) && InFlight(s, h) && !p.Finished?
    ensures Accounted(config, WithPhase(s, h, p))
  {}

  lemma AccountedCommit(config: Config, s: State, h: nat, o: Outcome)
    requires Accounted(config, s) && InFlight(s, h) && o != Failed
    ensures Accounted(config, Committed(s, h, o))
  {}

  lemma AccountedAbandon(config: Config, s: State, h: nat)
    requires Accounted(config, s) && InFlight(s, h)
    ensures Accounted(config, Abandoned(s, h))
  {}

  lemma AccountedStart(config: Config, s: State, h: nat, v: Delivery)
    requires Accounted(config, s) && h !in s.handlers && Valid(config, v) && v.key.id != ""
    ensures Accounted(config, s.(handlers := s.handlers[h := Handler(v, Begun, |s.log|)]))
  {}

  lemma AccountedWrite(config: Config, s: State, a: Action)
    requires Accounted(config, s) && Enabled(config, s, a) && a.Write?
    ensures Accounted(config, Next(config, s, a))
  {
    var s' := Next(config, s, a);
    AccountedAbandon(config, s, a.h);
    AccountedCommit(config, s.(docs := s'.docs, nextSeq := s'.nextSeq), a.h, if a.answerLost then Unclear else Succeeded);
  }

  lemma AccountedMerge(config: Config, s: State, a: Action)
    requires Accounted(config, s) && Enabled(config, s, a) && a.Merge?
    ensures Accounted(config, Next(config, s, a))
  {
    AccountedStart(config, s, a.h, a.delivery);
    var s', started := Next(config, s, a), s.(handlers := s.handlers[a.h := Handler(a.delivery, Begun, |s.log|)]);
    AccountedAbandon(config, started, a.h);
    AccountedCommit(config, started.(docs := s'.docs, nextSeq := s'.nextSeq), a.h, Succeeded);
  }

  lemma AccountedRead(config: Config, s: State, a: Action)
    requires Accounted(config, s) && Enabled(config, s, a) && (a.CheckExists? || a.Get?)
    ensures Accounted(config, Next(config, s, a))
  {
    AccountedCommit(config, s, a.h, Succeeded);
    AccountedAbandon(config, s, a.h);
    var s' := Next(config, s, a);
    if s' != Committed(s, a.h, Succeeded) && s' != Abandoned(s, a.h) {
      AccountedPhase(config, s, a.h, s'.handlers[a.h].phase);
    }
  }

  lemma AccountedKept(config: Config, s: State, a: Action)
    requires Accounted(config, s) && Enabled(config, s, a)
    ensures Accounted(config, Next(config, s, a))
  {
    match a
    case Start(h, v) => AccountedStart(config, s, h, v);
    case CheckExists(_) => AccountedRead(config, s, a);
    case Get(_) => AccountedRead(config, s, a);
    case Write(_, _) => AccountedWrite(config, s, a);
    case Fail(h) => AccountedAbandon(config, s, h);
    case Merge(_, _, _) => AccountedMerge(config, s, a);
    case Failover =>
  }

  // ----- refinement -----

  lemma CommitRefines(config: Config, start: Docs, s: State, s': State, c: Commit)
    requires Refines(config, start, s) && Valid(config, c.delivery)
    requires s'.log == s.log + [c] && DocsOf(s') == Deliver(config, DocsOf(s), c.delivery)
    ensures Refines(config, start, s')
  {
    assert Deliveries(s'.log) == Deliveries(s.log) + [c.delivery];
    FoldSnoc(config, start, Deliveries(s.log), c.delivery);
  }

  /** Either nothing is logged and no document changes, or one delivery is logged and the documents
      change as that delivery changes them alone. */
  ghost predicate Effect(config: Config, s: State, s': State) {
    if s'.log == s.log then DocsOf(s') == DocsOf(s)
    else
      && |s'.log| == |s.log| + 1 && s'.log == s.log + [s'.log[|s.log|]]
      && Valid(config, s'.log[|s.log|].delivery)
      && DocsOf(s') == Deliver(config, DocsOf(s), s'.log[|s.log|].delivery)
  }

  lemma CommitEffect(config: Config, s: State, changed: State, h: nat, o: Outcome)
    requires h in s.handlers && Valid(config, s.handlers[h].delivery)
    requires h in changed.handlers && changed.handlers[h].delivery == s.handlers[h].delivery && changed.log == s.log
    requires DocsOf(changed) == Deliver(config, DocsOf(s), s.handlers[h].delivery)
    ensures Effect(config, s, Committed(changed, h, o))
  {
    var s' := Committed(changed, h, o);
    assert DocsOf(s') == DocsOf(changed);
    assert s'.log[|s.log|] == Commit(h, s.handlers[h].delivery);
  }

  lemma StoresDocs(s: State, k: Key, d: Doc)
    ensures DocsOf(Stores(s, k, d)) == DocsOf(s)[k := d]
    ensures DocsOf(Removes(s, k)) == DocsOf(s) - {k}
  {}

  /** Commands that find nothing to do change nothing. */
  lemma NothingToDo(config: Config, docs: Docs, v: Delivery)
    requires Valid(config, v)
    requires (v.command.SetRights? && v.command.rights.None?) ||
             (v.key !in docs && !v.command.Put?) ||
             (v.key in docs && docs[v.key].resource == "" && (v.command.Put? || v.command.SetRights?))
    ensures Deliver(config, docs, v) == docs
  {}

  lemma ReadEffect(config: Config, s: State, a: Action)
    requires Enabled(config, s, a) && Accounted(config, s) && (a.CheckExists? || a.Get?)
    ensures Effect(config, s, Next(config, s, a))
  {
    var s' := Next(config, s, a);
    if s'.log == s.log {
      assert DocsOf(s') == DocsOf(s);
    } else {
      NothingToDo(config, DocsOf(s), s.handlers[a.h].delivery);
      CommitEffect(config, s, s, a.h, Succeeded);
    }
  }

  lemma WriteEffect(config: Config, s: State, a: Action)
    requires Enabled(config, s, a) && Truthful(s) && !Collides(s, a) && a.Write?
    ensures Effect(config, s, Next(config, s, a))
  {
    var s', h, o := Next(config, s, a), a.h, if a.answerLost then Unclear else Succeeded;
    var v := s.handlers[h].delivery;
    match s.handlers[h].phase
    case Holding(doc, version) =>
      if v.key in s.docs && s.docs[v.key].version == version {
        var d := Change(v.command, v.key, doc, v.orders, config);
        StoresDocs(s, v.key, d);
        assert TruthfulAt(s, v, doc, version);
        assert DocsOf(s)[v.key] == doc;
        CommitEffect(config, s, Stores(s, v.key, d), h, o);
      } else {
        assert DocsOf(s') == DocsOf(s);
      }
    case SeenAbsent =>
      var d := Created(v.key, v.command.features, v.command.owner, v.orders, config);
      StoresDocs(s, v.key, d);
      CommitEffect(config, s, Stores(s, v.key, d), h, o);
    case SeenPresent =>
      if v.key in s.docs {
        StoresDocs(s, v.key, EMPTY);
        CommitEffect(config, s, Removes(s, v.key), h, o);
      } else {
        assert DocsOf(s') == DocsOf(s);
      }
  }

  const EMPTY := Doc("", map[], map[], NOBODY, NOBODY, "")

  lemma MergeEffect(config: Config, s: State, a: Action)
    requires Enabled(config, s, a) && a.Merge?
    ensures Effect(config, s, Next(config, s, a))
  {
    var v, s' := a.delivery, Next(config, s, a);
    var started := s.(handlers := s.handlers[a.h := Handler(v, Begun, |s.log|)]);
    assert DocsOf(started) == DocsOf(s);
    if a.dropped || v.key !in s.docs {
      assert DocsOf(s') == DocsOf(s);
    } else {
      var d := Change(v.command, v.key, s.docs[v.key].doc, v.orders, config);
      StoresDocs(started, v.key, d);
      CommitEffect(config, started, Stores(started, v.key, d), a.h, Succeeded);
    }
  }

  lemma StepEffect(config: Config, s: State, a: Action)
    requires Truthful(s) && Accounted(config, s) && Enabled(config, s, a) && !Collides(s, a)
    ensures Effect(config, s, Next(config, s, a))
  {
    match a
    case CheckExists(_) => ReadEffect(config, s, a);
    case Get(_) => ReadEffect(config, s, a);
    case Write(_, _) => WriteEffect(config, s, a);
    case Merge(_, _, _) => MergeEffect(config, s, a);
    case _ => assert DocsOf(Next(config, s, a)) == DocsOf(s);
  }

  lemma RefinesKept(config: Config, start: Docs, s: State, a: Action)
    requires Sound(config, s) && Refines(config, start, s) && Enabled(config, s, a) && !Collides(s, a)
    ensures Refines(config, start, Next(config, s, a))
  {
    StepEffect(config, s, a);
    var s' := Next(config, s, a);
    if s'.log != s.log {
      CommitRefines(config, start, s, s', s'.log[|s.log|]);
    }
  }

  lemma SoundKept(config: Config, s: State, a: Action)
    requires Sound(config, s) && Enabled(config, s, a)
    ensures Sound(config, Next(config, s, a))
  {
    FreshKept(config, s, a);
    TruthfulKept(config, s, a);
    AccountedKept(config, s, a);
  }

  lemma {:induction false} SoundOverRun(config: Config, s: State, acts: seq<Action>)
    requires Sound(config, s) && Legal(config, s, acts)
    ensures Sound(config, Run(config, s, acts))
    decreases |acts|
  {
    if acts != [] {
      SoundKept(config, s, acts[0]);
      SoundOverRun(config, Next(config, s, acts[0]), acts[1..]);
    }
  }

  lemma {:induction false} RefinesOverRun(config: Config, start: Docs, s: State, acts: seq<Action>)
    requires Sound(config, s) && Refines(config, start, s)
    requires Legal(config, s, acts) && CollisionFree(config, s, acts)
    ensures Refines(config, start, Run(config, s, acts))
    decreases |acts|
  {
    if acts != [] {
      SoundKept(config, s, acts[0]);
      RefinesKept(config, start, s, acts[0]);
      RefinesOverRun(config, start, Next(config, s, acts[0]), acts[1..]);
    }
  }

  /** Whatever runs at the same time: as long as no creation finds its document there, the documents
      are those that the committed commands leave when run one at a time, in the order they were
      committed. */
  lemma CollisionFreeRunsRefine(config: Config, s: State, acts: seq<Action>)
    requires Initial(s) && Legal(config, s, acts) && CollisionFree(config, s, acts)
    ensures var s' := Run(config, s, acts);
            AllValid(config, Deliveries(s'.log)) && DocsOf(s') == Fold(config, DocsOf(s), Deliveries(s'.log))
  {
    RefinesOverRun(config, DocsOf(s), s, acts);
  }

  /** With at most one PUT per document under way no creation does. */
  lemma {:induction false} DisciplinedIsCollisionFree(config: Config, s: State, acts: seq<Action>)
    requires Exclusive(s) && Current(s) && LegalDisciplined(config, s, acts)
    ensures Legal(config, s, acts) && CollisionFree(config, s, acts)
    decreases |acts|
  {
    if acts != [] {
      ExclusiveKept(config, s, acts[0]);
      CurrentKept(config, s, acts[0]);
      DisciplinedIsCollisionFree(config, Next(config, s, acts[0]), acts[1..]);
    }
  }

  /** Every interleaving of any number of handlers, with at most one PUT per document under way, leaves
      the documents that the committed commands leave when run one at a time, in the order they were
      committed. */
  lemma InterleavingsRefineCommands(config: Config, s: State, acts: seq<Action>)
    requires Initial(s) && LegalDisciplined(config, s, acts)
    ensures Legal(config, s, acts)
    ensures var s' := Run(config, s, acts);
            AllValid(config, Deliveries(s'.log)) && DocsOf(s') == Fold(config, DocsOf(s), Deliveries(s'.log))
  {
    DisciplinedIsCollisionFree(config, s, acts);
    CollisionFreeRunsRefine(config, s, acts);
  }

  // ----- every legal run -----

  /** No update is lost or doubled: a handler that reported success stands in that order exactly
      once, at a place between its start and its end; one that failed does not stand in it. */
  lemma SuccessMeansOnce(config: Config, s: State, acts: seq<Action>, h: nat)
    requires Initial(s) && Legal(config, s, acts)
    requires h in Run(config, s, acts).handlers && Run(config, s, acts).handlers[h].phase.Finished?
    ensures var s' := Run(config, s, acts);
            var p := s'.handlers[h].phase;
            if p.outcome == Failed then forall i | 0 <= i < |s'.log| :: s'.log[i].handler != h
            else s'.handlers[h].start <= p.at < p.end <= |s'.log| &&
                 forall i | 0 <= i < |s'.log| :: s'.log[i].handler == h <==> i == p.at
  {
    SoundOverRun(config, s, acts);
  }

  lemma OthersStay(config: Config, s: State, a: Action, h: nat)
    requires h in s.handlers && Enabled(config, s, a)
    ensures var s' := Next(config, s, a);
      && h in s'.handlers && s'.handlers[h].start == s.handlers[h].start && s'.handlers[h].delivery == s.handlers[h].delivery
      && (s.handlers[h].phase.Finished? ==> s'.handlers[h] == s.handlers[h])
  {}

  lemma NewcomersStart(config: Config, s: State, a: Action, g: nat)
    requires g !in s.handlers && Enabled(config, s, a) && g in Next(config, s, a).handlers
    ensures Next(config, s, a).handlers[g].start == |s.log|
  {}

  /** A handler that ended stays as it is, and whoever begins later begins behind its end. */
  lemma {:induction false} BeginsBehind(config: Config, s: State, acts: seq<Action>, h: nat, g: nat)
    requires Accounted(config, s) && Legal(config, s, acts)
    requires h in s.handlers && s.handlers[h].phase.Finished?
    requires g in s.handlers ==> s.handlers[h].phase.end <= s.handlers[g].start
    ensures var s' := Run(config, s, acts);
      && h in s'.handlers && s'.handlers[h] == s.handlers[h]
      && (g in s'.handlers ==> s.handlers[h].phase.end <= s'.handlers[g].start)
    decreases |acts|
  {
    if acts != [] {
      var s' := Next(config, s, acts[0]);
      AccountedKept(config, s, acts[0]);
      OthersStay(config, s, acts[0], h);
      if g in s.handlers {
        OthersStay(config, s, acts[0], g);
      } else if g in s'.handlers {
        NewcomersStart(config, s, acts[0], g);
        assert s.handlers[h].phase.end <= |s.log|;
      }
      BeginsBehind(config, s', acts[1..], h, g);
    }
  }

  lemma {:induction false} RunFrom(config: Config, s: State, acts: seq<Action>, i: nat)
    requires Legal(config, s, acts) && i <= |acts|
    ensures Legal(config, StateAt(config, s, acts, i), acts[i..])
    ensures Run(config, StateAt(config, s, acts, i), acts[i..]) == Run(config, s, acts)
    decreases |acts|
  {
    if i == 0 {
      assert acts[0..] == acts;
    } else {
      RunFrom(config, Next(config, s, acts[0]), acts[1..], i - 1);
      assert acts[1..][i - 1..] == acts[i..];
    }
  }

  lemma {:induction false} SoundAt(config: Config, s: State, acts: seq<Action>, i: nat)
    requires Sound(config, s) && Legal(config, s, acts) && i <= |acts|
    ensures Sound(config, StateAt(config, s, acts, i))
    decreases |acts|
  {
    if i > 0 {
      SoundKept(config, s, acts[0]);
      SoundAt(config, Next(config, s, acts[0]), acts[1..], i - 1);
    }
  }

  /** The order respects real time: if at some point of the run one handler had ended and another had
      not begun, the one stands before the other. */
  lemma OrderRespectsTime(config: Config, s: State, acts: seq<Action>, i: nat, h: nat, g: nat)
    requires Initial(s) && Legal(config, s, acts) && i <= |acts|
    requires var now := StateAt(config, s, acts, i);
      h in now.handlers && now.handlers[h].phase.Finished? && now.handlers[h].phase.outcome != Failed && g !in now.handlers
    requires var s' := Run(config, s, acts);
      g in s'.handlers && s'.handlers[g].phase.Finished? && s'.handlers[g].phase.outcome != Failed
    ensures var s' := Run(config, s, acts);
      h in s'.handlers && s'.handlers[h].phase.Finished? && s'.handlers[h].phase.at < s'.handlers[g].phase.at
  {
    SoundAt(config, s, acts, i);
    RunFrom(config, s, acts, i);
    BeginsBehind(config, StateAt(config, s, acts, i), acts[i..], h, g);
    SuccessMeansOnce(config, s, acts, g);
  }

  /** The content a handler holds is filed under its document's id. */
  ghost predicate HoldsFiled(s: State) {
    forall h | h in s.handlers && s.handlers[h].phase.Holding? ::
      s.handlers[h].phase.doc.resource == s.handlers[h].delivery.key.id
  }

  /** A step stores a document only under the id it is filed under. */
  lemma StoresFiled(config: Config, s: State, a: Action, k: Key)
    requires HoldsFiled(s) && Accounted(config, s) && Enabled(config, s, a)
    requires k in s.docs ==> s.docs[k].doc.resource == k.id && k.id != ""
    ensures var s' := Next(config, s, a); k in s'.docs ==> s'.docs[k].doc.resource == k.id && k.id != ""
  {
    if a.Write? { WritesFiled(config, s, a, k); }
  }

  lemma WritesFiled(config: Config, s: State, a: Action, k: Key)
    requires HoldsFiled(s) && Accounted(config, s) && Enabled(config, s, a) && a.Write?
    requires k in s.docs ==> s.docs[k].doc.resource == k.id && k.id != ""
    ensures var s' := Next(config, s, a); k in s'.docs ==> s'.docs[k].doc.resource == k.id && k.id != ""
  {
    assert s.handlers[a.h].delivery.key.id != "";
    if s.handlers[a.h].phase.Holding? {
      assert s.handlers[a.h].phase.doc.resource == s.handlers[a.h].delivery.key.id;
    }
  }

  lemma HoldsStayFiled(config: Config, s: State, a: Action)
    requires Filed(DocsOf(s)) && HoldsFiled(s) && Enabled(config, s, a)
    ensures HoldsFiled(Next(config, s, a))
  {
    var s' := Next(config, s, a);
    forall h | h in s'.handlers && s'.handlers[h].phase.Holding?
      ensures s'.handlers[h].phase.doc.resource == s'.handlers[h].delivery.key.id
    {
      if a.Get? && a.h == h {
        assert s.handlers[h].delivery.key in DocsOf(s);
      } else {
        assert h in s.handlers && s.handlers[h] == s'.handlers[h];
      }
    }
  }

  lemma FiledKept(config: Config, s: State, a: Action)
    requires Filed(DocsOf(s)) && HoldsFiled(s) && Accounted(config, s) && Enabled(config, s, a)
    ensures Filed(DocsOf(Next(config, s, a))) && HoldsFiled(Next(config, s, a))
  {
    HoldsStayFiled(config, s, a);
    forall k | k in Next(config, s, a).docs
      ensures Next(config, s, a).docs[k].doc.resource == k.id && k.id != ""
    {
      assert k in s.docs ==> DocsOf(s)[k].resource == k.id && k.id != "";
      StoresFiled(config, s, a, k);
    }
  }

  lemma {:induction false} FiledOverRun(config: Config, s: State, acts: seq<Action>)
    requires Filed(DocsOf(s)) && HoldsFiled(s) && Accounted(config, s) && Legal(config, s, acts)
    ensures Filed(DocsOf(Run(config, s, acts)))
    decreases |acts|
  {
    if acts != [] {
      FiledKept(config, s, acts[0]);
      AccountedKept(config, s, acts[0]);
      FiledOverRun(config, Next(config, s, acts[0]), acts[1..]);
    }
  }

  /** In every state reached, each document is filed under its own resource id. */
  lemma ReachableDocsAreFiled(config: Config, s: State, acts: seq<Action>)
    requires Initial(s) && Filed(DocsOf(s)) && Legal(config, s, acts)
    ensures Filed(DocsOf(Run(config, s, acts)))
  {
    FiledOverRun(config, s, acts);
  }

  /** No PUT for the document is under way. */
  ghost predicate NoPutUnderWay(s: State, k: Key) {
    forall h | InFlight(s, h) && s.handlers[h].delivery.key == k :: !s.handlers[h].delivery.command.Put?
  }

  lemma NoPutStep(config: Config, s: State, a: Action, k: Key)
    requires Enabled(config, s, a) && NoPutUnderWay(s, k)
    requires a.Start? && a.delivery.key == k ==> !a.delivery.command.Put?
    ensures NoPutUnderWay(Next(config, s, a), k)
    ensures k in Next(config, s, a).docs ==> k in s.docs
  {
    var s' := Next(config, s, a);
    forall h | InFlight(s', h) && s'.handlers[h].delivery.key == k ensures !s'.handlers[h].delivery.command.Put? {
      if h in s.handlers { OthersStay(config, s, a, h); }
    }
  }

  /** Only a PUT for a document makes it appear: without one under way or started, whatever else runs
      and whatever PUTs for other documents do, the document is neither created nor resurrected. */
  lemma {:induction false} OnlyPutCreates(config: Config, s: State, acts: seq<Action>, k: Key)
    requires Legal(config, s, acts) && NoPutUnderWay(s, k)
    requires forall a | a in acts && a.Start? && a.delivery.key == k :: !a.delivery.command.Put?
    ensures k in Run(config, s, acts).docs ==> k in s.docs
    decreases |acts|
  {
    if acts != [] {
      assert acts[0] in acts && forall a | a in acts[1..] :: a in acts;
      NoPutStep(config, s, acts[0], k);
      OnlyPutCreates(config, Next(config, s, acts[0]), acts[1..], k);
    }
  }

  // ----- two PUTs for one document -----

  ghost predicate RunsTo(config: Config, s: State, acts: seq<Action>, s': State) {
    Legal(config, s, acts) && Run(config, s, acts) == s'
  }

  lemma FirstStep(config: Config, s: State, a: Action, acts: seq<Action>, s': State)
    requires Enabled(config, s, a) && RunsTo(config, Next(config, s, a), acts, s')
    ensures RunsTo(config, s, [a] + acts, s')
  {
    assert ([a] + acts)[1..] == acts;
  }

  ghost function CreatedBy(config: Config, v: Delivery): Doc
    requires Valid(config, v) && v.command.Put?
  {
    Created(v.key, v.command.features, v.command.owner, v.orders, config)
  }

  lemma CreateStep(config: Config, s: State, h: nat)
    requires h in s.handlers && s.handlers[h].phase.SeenAbsent?
    requires Valid(config, s.handlers[h].delivery) && s.handlers[h].delivery.command.Put?
    ensures var v := s.handlers[h].delivery;
      && Enabled(config, s, Action.Write(h, false))
      && var s' := Next(config, s, Action.Write(h, false));
         && DocsOf(s') == DocsOf(s)[v.key := CreatedBy(config, v)]
         && s'.log == s.log + [Commit(h, v)]
         && s'.handlers.Keys == s.handlers.Keys
         && forall g | g in s.handlers && g != h :: s'.handlers[g] == s.handlers[g]
  {
    var v := s.handlers[h].delivery;
    StoresDocs(s, v.key, CreatedBy(config, v));
  }

  /** Two handlers that both saw the document missing: the second creation overwrites the first. */
  lemma BothCreate(config: Config, s: State, h: nat, g: nat, v: Delivery, w: Delivery)
    returns (acts: seq<Action>, s': State)
    requires Valid(config, v) && Valid(config, w) && v.command.Put? && w.command.Put? && v.key == w.key
    requires h != g && h in s.handlers && s.handlers[h].phase.SeenAbsent? && s.handlers[h].delivery == v
    requires g in s.handlers && s.handlers[g].phase.SeenAbsent? && s.handlers[g].delivery == w
    ensures RunsTo(config, s, acts, s')
    ensures DocsOf(s') == DocsOf(s)[w.key := CreatedBy(config, w)]
    ensures s'.log == s.log + [Commit(h, v), Commit(g, w)]
  {
    CreateStep(config, s, h);
    var s1 := Next(config, s, Action.Write(h, false));
    CreateStep(config, s1, g);
    s' := Next(config, s1, Action.Write(g, false));
    assert s.log + [Commit(h, v)] + [Commit(g, w)] == s.log + [Commit(h, v), Commit(g, w)];
    acts := TwoSteps(config, s, Action.Write(h, false), Action.Write(g, false));
  }

  lemma TwoSteps(config: Config, s: State, a: Action, b: Action) returns (acts: seq<Action>)
    requires Enabled(config, s, a) && Enabled(config, Next(config, s, a), b)
    ensures RunsTo(config, s, acts, Next(config, Next(config, s, a), b))
  {
    var s' := Next(config, Next(config, s, a), b);
    FirstStep(config, Next(config, s, a), b, [], s');
    FirstStep(config, s, a, [b] + [], s');
    acts := [a] + ([b] + []);
  }

  /** From any state in which the document is missing, two PUTs for it can run like that. */
  lemma OverlappingPuts(config: Config, s: State, h: nat, g: nat, v: Delivery, w: Delivery)
    returns (acts: seq<Action>, s': State)
    requires h != g && h !in s.handlers && g !in s.handlers && v.key == w.key && v.key !in s.docs && v.key.id != ""
    requires Valid(config, v) && Valid(config, w) && v.command.Put? && w.command.Put?
    ensures RunsTo(config, s, acts, s')
    ensures DocsOf(s') == DocsOf(s)[w.key := CreatedBy(config, w)]
    ensures s'.log == s.log + [Commit(h, v), Commit(g, w)]
  {
    var s1 := Next(config, s, Start(h, v));
    var s2 := Next(config, s1, Start(g, w));
    var s3 := Next(config, s2, CheckExists(h));
    var s4 := Next(config, s3, CheckExists(g));
    acts, s' := BothCreate(config, s4, h, g, v, w);
    FirstStep(config, s3, CheckExists(g), acts, s');
    acts := [CheckExists(g)] + acts;
    FirstStep(config, s2, CheckExists(h), acts, s');
    acts := [CheckExists(h)] + acts;
    FirstStep(config, s1, Start(g, w), acts, s');
    acts := [Start(g, w)] + acts;
    FirstStep(config, s, Start(h, v), acts, s');
    acts := [Start(h, v)] + acts;
    assert DocsOf(s4) == DocsOf(s);
  }

  /** Some order of the two commands, each ranging over its maps in some order, leaves these documents. */
  ghost predicate Explained(config: Config, docs: Docs, v: Delivery, w: Delivery, after: Docs) {
    exists o, p :: ExplainedBy(config, docs, v.(orders := o), w.(orders := p), after)
  }

  ghost predicate ExplainedBy(config: Config, docs: Docs, v: Delivery, w: Delivery, after: Docs) {
    && Valid(config, v) && Valid(config, w)
    && (after == Deliver(config, Deliver(config, docs, v), w) || after == Deliver(config, Deliver(config, docs, w), v))
  }

  /** When the overwriting can be explained: the owners are equal, or the features are and the later
      PUT names an owner. */
  predicate Harmless(v: Command, w: Command)
    requires v.Put? && w.Put?
  {
    v.owner == w.owner || (v.features == w.features && w.owner != "")
  }

  lemma OverwritingExplained(config: Config, docs: Docs, v: Delivery, w: Delivery)
    requires v.key == w.key && v.key !in docs && v.key.id != ""
    requires Valid(config, v) && Valid(config, w) && v.command.Put? && w.command.Put?
    ensures Explained(config, docs, v, w, docs[w.key := CreatedBy(config, w)]) <==> Harmless(v.command, w.command)
  {
    var after := docs[w.key := CreatedBy(config, w)];
    if v.command.owner == w.command.owner {
      assert ExplainedBy(config, docs, v.(orders := w.orders), w.(orders := w.orders), after);
    } else if Harmless(v.command, w.command) {
      assert Deliver(config, docs, w) == after;
      assert ExplainedBy(config, docs, v.(orders := v.orders), w.(orders := w.orders), after);
    } else {
      forall o, p ensures !ExplainedBy(config, docs, v.(orders := o), w.(orders := p), after) {
        OverwritingUnexplained(config, docs, v.(orders := o), w.(orders := p), CreatedBy(config, w));
      }
    }
  }

  lemma OverwritingUnexplained(config: Config, docs: Docs, v: Delivery, w: Delivery, d: Doc)
    requires v.key == w.key && v.key !in docs && v.key.id != "" && v.command.Put? && w.command.Put?
    requires !Harmless(v.command, w.command)
    requires d.features == w.command.features && d.users == OwnerLists(NOBODY, w.command.owner) && d.creator == w.command.owner
    ensures !ExplainedBy(config, docs, v, w, docs[w.key := d])
  {
    if Valid(config, v) && Valid(config, w) {
      var k := v.key;
      var vw, wv := Deliver(config, Deliver(config, docs, v), w), Deliver(config, Deliver(config, docs, w), v);
      assert vw[k].users == OwnerLists(NOBODY, v.command.owner) && vw[k].users != d.users;
      assert wv[k].features == v.command.features;
      assert w.command.owner == "" ==> wv[k].creator == v.command.owner;
      assert docs[k := d][k] == d;
    }
  }

  /** From any state, for any two PUTs for a document that is missing: there is a run in which both are
      under way together, the first commits before the second, and what they leave is explained by no
      order of the two exactly when their owners differ and either their features do or the second
      names no owner. */
  lemma OverlappingPutsLoseUpdates(config: Config, s: State, h: nat, g: nat, v: Delivery, w: Delivery)
    returns (acts: seq<Action>)
    requires h != g && h !in s.handlers && g !in s.handlers && v.key == w.key && v.key !in s.docs && v.key.id != ""
    requires Valid(config, v) && Valid(config, w) && v.command.Put? && w.command.Put?
    ensures Legal(config, s, acts)
    ensures var s' := Run(config, s, acts);
      && s'.log == s.log + [Commit(h, v), Commit(g, w)]
      && (!Explained(config, DocsOf(s), v, w, DocsOf(s')) <==>
          v.command.owner != w.command.owner && (v.command.features != w.command.features || w.command.owner == ""))
  {
    var s';
    acts, s' := OverlappingPuts(config, s, h, g, v, w);
    OverwritingExplained(config, DocsOf(s), v, w);
  }
}
