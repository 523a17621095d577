/** What the handlers of the module Interleaving get done: when a write lands, and that every command
    can run to its end (lib/worker/command.go). */
module Progress {
  import opened Commands
  import opened Interleaving

  /** The write finds what the handler relies on: the version it read, or the document it deletes. */
  predicate Lands(s: State, h: nat) {
    && h in s.handlers
    && var k := s.handlers[h].delivery.key;
       match s.handlers[h].phase
       case Holding(_, version) => k in s.docs && s.docs[k].version == version
       case SeenPresent => k in s.docs
       case SeenAbsent => true
       case _ => false
  }

  /** The handler has ended with this outcome, and nothing else of the handlers has changed. */
  predicate Ended(s: State, s': State, h: nat, o: Outcome) {
    && h in s'.handlers && s'.handlers[h].phase.Finished? && s'.handlers[h].phase.outcome == o
    && s'.handlers.Keys == s.handlers.Keys + {h}
    && forall g | g in s.handlers && g != h :: s'.handlers[g] == s.handlers[g]
  }

  /** A write that lands is logged, does what its command does alone and reports success unless the answer
      is lost; any other changes nothing and fails. */
  ghost predicate WritesOrFails(config: Config, s: State, h: nat, lost: bool, s': State)
    requires h in s.handlers && Valid(config, s.handlers[h].delivery)
  {
    var v := s.handlers[h].delivery;
    if Lands(s, h) then
      && Ended(s, s', h, if lost then Unclear else Succeeded)
      && s'.log == s.log + [Commit(h, v)] && DocsOf(s') == Deliver(config, DocsOf(s), v)
    else
      Ended(s, s', h, Failed) && s'.log == s.log && s'.docs == s.docs
  }

  lemma WriteExactly(config: Config, s: State, h: nat, lost: bool)
    requires Sound(config, s) && Enabled(config, s, Action.Write(h, lost))
    requires !Collides(s, Action.Write(h, lost))
    ensures WritesOrFails(config, s, h, lost, Next(config, s, Action.Write(h, lost)))
  {
    match s.handlers[h].phase
    case Holding(_, _) => HeldWrite(config, s, h, lost);
    case SeenAbsent => CreatingWrite(config, s, h, lost);
    case SeenPresent => DeletingWrite(config, s, h, lost);
  }

  lemma HeldWrite(config: Config, s: State, h: nat, lost: bool)
    requires Truthful(s) && Enabled(config, s, Action.Write(h, lost)) && s.handlers[h].phase.Holding?
    ensures WritesOrFails(config, s, h, lost, Next(config, s, Action.Write(h, lost)))
  {
    var v, p := s.handlers[h].delivery, s.handlers[h].phase;
    assert TruthfulAt(s, v, p.doc, p.version);
    if Lands(s, h) {
      assert DocsOf(s)[v.key] == p.doc;
      StoresDocs(s, v.key, Change(v.command, v.key, p.doc, v.orders, config));
    }
  }

  lemma CreatingWrite(config: Config, s: State, h: nat, lost: bool)
    requires Enabled(config, s, Action.Write(h, lost)) && s.handlers[h].phase.SeenAbsent?
    requires !Collides(s, Action.Write(h, lost))
    ensures WritesOrFails(config, s, h, lost, Next(config, s, Action.Write(h, lost)))
  {
    StoresDocs(s, s.handlers[h].delivery.key, CreatedBy(config, s.handlers[h].delivery));
  }

  lemma DeletingWrite(config: Config, s: State, h: nat, lost: bool)
    requires Enabled(config, s, Action.Write(h, lost)) && s.handlers[h].phase.SeenPresent?
    ensures WritesOrFails(config, s, h, lost, Next(config, s, Action.Write(h, lost)))
  {
    StoresDocs(s, s.handlers[h].delivery.key, EMPTY);
  }

  // ----- every command can be carried out -----

  /** How a command ends that nobody disturbs: an annotation needs its document. */
  function Undisturbed(s: State, v: Delivery): Outcome {
    if v.command.Annotate? && v.key !in s.docs then Failed else Succeeded
  }

  /** The handler's own steps, none of which fails, take it to its end and the documents to what its
      command leaves. */
  ghost predicate Finishes(config: Config, s: State, h: nat, acts: seq<Action>, s': State) {
    && RunsTo(config, s, acts, s') && h in s.handlers
    && (forall a | a in acts :: a == CheckExists(h) || a == Action.Get(h) || a == Action.Write(h, false))
    && var v := s.handlers[h].delivery;
       && Valid(config, v) && Ended(s, s', h, Undisturbed(s, v))
       && DocsOf(s') == Deliver(config, DocsOf(s), v)
  }

  /** A read that lets the handler go on leaves everything else as it was. */
  lemma ReadKeeps(config: Config, s: State, h: nat, a: Action)
    requires h in s.handlers && (a == CheckExists(h) || a == Action.Get(h)) && Enabled(config, s, a)
    ensures var next := Next(config, s, a);
      && next.docs == s.docs && next.handlers.Keys == s.handlers.Keys
      && next.handlers[h].delivery == s.handlers[h].delivery
      && forall g | g in s.handlers && g != h :: next.handlers[g] == s.handlers[g]
  {}

  lemma ReadFirst(config: Config, s: State, h: nat, a: Action, acts: seq<Action>, s': State)
    requires h in s.handlers && (a == CheckExists(h) || a == Action.Get(h)) && Enabled(config, s, a)
    requires Finishes(config, Next(config, s, a), h, acts, s')
    ensures Finishes(config, s, h, [a] + acts, s')
  {
    var next := Next(config, s, a);
    FirstStep(config, s, a, acts, s');
    ReadKeeps(config, s, h, a);
    EndedFrom(config, s, next, h, acts, s');
  }

  lemma EndedFrom(config: Config, s: State, next: State, h: nat, acts: seq<Action>, s': State)
    requires h in s.handlers && next.docs == s.docs && next.handlers.Keys == s.handlers.Keys
    requires next.handlers[h].delivery == s.handlers[h].delivery
    requires forall g | g in s.handlers && g != h :: next.handlers[g] == s.handlers[g]
    requires Finishes(config, next, h, acts, s')
    ensures var v := s.handlers[h].delivery;
      Valid(config, v) && Ended(s, s', h, Undisturbed(s, v)) && DocsOf(s') == Deliver(config, DocsOf(s), v)
  {
    assert DocsOf(next) == DocsOf(s);
  }

  lemma OneStep(config: Config, s: State, a: Action)
    requires Enabled(config, s, a)
    ensures RunsTo(config, s, [a], Next(config, s, a))
  {
    FirstStep(config, s, a, [], Next(config, s, a));
    assert [a] + [] == [a];
  }

  lemma FromHolding(config: Config, s: State, h: nat) returns (acts: seq<Action>, s': State)
    requires h in s.handlers && Valid(config, s.handlers[h].delivery) && s.handlers[h].phase.Holding?
    requires var k, p := s.handlers[h].delivery.key, s.handlers[h].phase; k in s.docs && s.docs[k] == Stored(p.doc, p.version)
    requires !s.handlers[h].delivery.command.Delete?
    ensures Finishes(config, s, h, acts, s')
  {
    var v, doc := s.handlers[h].delivery, s.handlers[h].phase.doc;
    var a := Action.Write(h, false);
    acts, s' := [a], Next(config, s, a);
    OneStep(config, s, a);
    StoresDocs(s, v.key, Change(v.command, v.key, doc, v.orders, config));
  }

  lemma FromPresent(config: Config, s: State, h: nat) returns (acts: seq<Action>, s': State)
    requires h in s.handlers && Valid(config, s.handlers[h].delivery) && s.handlers[h].phase.SeenPresent?
    requires s.handlers[h].delivery.command.Annotate? || s.handlers[h].delivery.key in s.docs
    ensures Finishes(config, s, h, acts, s')
  {
    var v := s.handlers[h].delivery;
    var a := if v.command.Delete? then Action.Write(h, false) else Action.Get(h);
    var next := Next(config, s, a);
    if next.handlers[h].phase.Holding? {
      acts, s' := FromHolding(config, next, h);
      ReadFirst(config, s, h, a, acts, s');
      acts := [a] + acts;
    } else {
      acts, s' := [a], next;
      OneStep(config, s, a);
      StoresDocs(s, v.key, EMPTY);
      assert !v.command.Delete? ==> s'.docs == s.docs;
    }
  }

  lemma FromBegun(config: Config, s: State, h: nat) returns (acts: seq<Action>, s': State)
    requires h in s.handlers && Valid(config, s.handlers[h].delivery) && s.handlers[h].phase.Begun?
    ensures Finishes(config, s, h, acts, s')
  {
    var v, a := s.handlers[h].delivery, CheckExists(h);
    var next := Next(config, s, a);
    match next.handlers[h].phase
    case SeenPresent =>
      acts, s' := FromPresent(config, next, h);
      ReadFirst(config, s, h, a, acts, s');
      acts := [a] + acts;
    case SeenAbsent =>
      acts, s' := FromAbsent(config, next, h);
      ReadFirst(config, s, h, a, acts, s');
      acts := [a] + acts;
    case _ =>
      acts, s' := [a], next;
      OneStep(config, s, a);
  }

  lemma FromAbsent(config: Config, s: State, h: nat) returns (acts: seq<Action>, s': State)
    requires h in s.handlers && Valid(config, s.handlers[h].delivery) && s.handlers[h].phase.SeenAbsent?
    requires s.handlers[h].delivery.command.Put? && s.handlers[h].delivery.key !in s.docs
    ensures Finishes(config, s, h, acts, s')
  {
    var a := Action.Write(h, false);
    CreateStep(config, s, h);
    acts, s' := [a], Next(config, s, a);
    OneStep(config, s, a);
  }

  /** From any state, whatever is under way, every command can be started and carried out by its own steps
      alone: it reports success and leaves what it does alone, or is an annotation of a missing document,
      which fails and changes nothing. */
  lemma EveryCommandRuns(config: Config, s: State, h: nat, v: Delivery) returns (acts: seq<Action>, s': State)
    requires h !in s.handlers && v.key.id != "" && Valid(config, v)
    ensures RunsTo(config, s, [Start(h, v)] + acts, s')
    ensures forall a | a in acts :: a == CheckExists(h) || a == Action.Get(h) || a == Action.Write(h, false)
    ensures Ended(s, s', h, if v.command.Annotate? && v.key !in s.docs then Failed else Succeeded)
    ensures DocsOf(s') == Deliver(config, DocsOf(s), v)
  {
    var a := Start(h, v);
    var next := Next(config, s, a);
    assert DocsOf(next) == DocsOf(s);
    acts, s' := FromBegun(config, next, h);
    FirstStep(config, s, a, acts, s');
  }

  // ----- commands that end with a read -----

  /** RIGHTS without rights, and any command but PUT and annotations on a missing document, are done once the
      document is looked for, and write nothing. */
  lemma DoneAtOnce(config: Config, s: State, h: nat)
    requires Enabled(config, s, CheckExists(h))
    requires var v := s.handlers[h].delivery;
      || (v.command.SetRights? && v.command.rights.None?)
      || (v.key !in s.docs && !v.command.Put? && !v.command.Annotate?)
    ensures var s' := Next(config, s, CheckExists(h)); Ended(s, s', h, Succeeded) && s'.docs == s.docs
  {}

  /** A document that is gone by the time it is read: for a permission command there is nothing to do, any
      other fails.  One without an id is left alone by PUT and RIGHTS. */
  lemma GoneMeanwhile(config: Config, s: State, h: nat)
    requires Enabled(config, s, Action.Get(h))
    ensures var s', v := Next(config, s, Action.Get(h)), s.handlers[h].delivery;
      && s'.docs == s.docs
      && (v.key !in s.docs ==>
            Ended(s, s', h, if v.command.Permission? then Succeeded else Failed) &&
            s'.log == if v.command.Permission? then s.log + [Commit(h, v)] else s.log)
      && (v.key in s.docs && s.docs[v.key].doc.resource == "" && (v.command.Put? || v.command.SetRights?) ==>
            Ended(s, s', h, Succeeded))
  {}

  // ----- the bulk update and what the cluster may do -----

  /** An annotation that is not dropped changes its document if there is one. */
  lemma MergeExactly(config: Config, s: State, h: nat, v: Delivery, dropped: bool)
    requires Enabled(config, s, Merge(h, v, dropped))
    ensures var s' := Next(config, s, Merge(h, v, dropped));
      if dropped || v.key !in s.docs then Ended(s, s', h, Failed) && DocsOf(s') == DocsOf(s) && s'.log == s.log
      else Ended(s, s', h, Succeeded) && DocsOf(s') == Deliver(config, DocsOf(s), v) && s'.log == s.log + [Commit(h, v)]
  {
    if v.key in s.docs { StoresDocs(s, v.key, Change(v.command, v.key, s.docs[v.key].doc, v.orders, config)); }
  }

  /** Any handler under way may fail at any point, which changes no document, and a change of the primary
      lets every later write have a new version. */
  lemma AnythingMayFail(config: Config, s: State, h: nat)
    requires InFlight(s, h)
    ensures Enabled(config, s, Fail(h))
    ensures var s' := Next(config, s, Fail(h)); Ended(s, s', h, Failed) && s'.docs == s.docs && s'.log == s.log
    ensures Enabled(config, s, Failover) && Next(config, s, Failover).docs == s.docs
    ensures Next(config, s, Failover).term > s.term && Next(config, s, Failover).handlers == s.handlers
  {}
}
