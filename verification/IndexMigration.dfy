/** Versioned indexes behind an alias, and the switch from one version to the next
    (lib/opensearchclient/client.go).

    The cluster records every state it passes through.  Each call may be refused, and may be
    reported as failed although it took effect; reindexing may stop after any document. */
module IndexMigration {
  import opened GoStrings
  import opened Model

  datatype Index = Index(docs: map<string, Doc>, aliases: set<string>)

  type State = map<string, Index>

  // ----- version names -----

  function Name(kind: string, version: int): string {
    kind + "_v" + Itoa(version)
  }

  function VersionOf(kind: string, index: string): Option<goint> {
    Atoi(RemoveAll(index, kind + "_v"))
  }

  /** Version names read back for every kind and every Go int. */
  lemma VersionReadsBack(kind: string, version: goint)
    ensures VersionOf(kind, Name(kind, version)) == Some(version)
  {
    var prefix, digits := kind + "_v", Itoa(version);
    var name := Name(kind, version);
    assert name[..|prefix|] == prefix && name[|prefix|..] == digits;
    ItoaHasNoV(version);
    assert prefix[|prefix| - 1] == 'v';
    RemoveAbsent(digits, prefix);
    AtoiUndoesItoa(version);
  }

  lemma ItoaHasNoV(n: int)
    ensures 'v' !in Itoa(n)
  {
    var s := Digits(if n < 0 then -n else n);
    assert forall c | c in s :: IsDigit(c);
  }

  function NextName(kind: string, index: string): Option<string> {
    match VersionOf(kind, index)
    case Some(v) => Some(Name(kind, Wrap(v + 1)))
    case None => None
  }

  lemma NextNameIs(kind: string, version: goint)
    ensures NextName(kind, Name(kind, version)) == Some(Name(kind, Wrap(version + 1)))
  {
    VersionReadsBack(kind, version);
  }

  lemma DigitsLook()
    ensures Itoa(1) == "1" && Itoa(2) == "2" && Itoa(10) == "10"
  {}

  /** The number stands behind "_v" in decimal. */
  lemma NamesLook(kind: string)
    ensures Name(kind, 1) == kind + "_v1" && Name(kind, 2) == kind + "_v2" && Name(kind, 10) == kind + "_v10"
  {
    DigitsLook();
    Regroup(kind, "_v", "1");
    Regroup(kind, "_v", "2");
    Regroup(kind, "_v", "10");
    assert "_v" + "1" == "_v1" && "_v" + "2" == "_v2" && "_v" + "10" == "_v10";
  }

  lemma Regroup(a: string, b: string, c: string)
    ensures (a + b) + c == a + (b + c)
  {}

  /** The next number is one higher exactly as long as there is a higher Go int. */
  lemma NumberRises(version: goint)
    ensures Wrap(version + 1) == version + 1 <==> version < MAX_INT
  {}

  /** The next version is always another index. */
  lemma NextDiffers(kind: string, index: string)
    ensures NextName(kind, index) != Some(index)
  {
    if VersionOf(kind, index).Some? {
      VersionReadsBack(kind, Wrap(VersionOf(kind, index).value + 1));
    }
  }

  // ----- aliases -----

  function Behind(s: State, alias: string): set<string> {
    set name | name in s && alias in s[name].aliases
  }

  /** The indexes a request for a name reaches. */
  function Targets(s: State, name: string): set<string> {
    if name in s then {name} else Behind(s, name)
  }

  /** The index of that name, or every index the name is an alias of. */
  lemma TargetsExactly(s: State, name: string, target: string)
    ensures target in Targets(s, name) <==>
            target in s && (target == name || (name !in s && name in s[target].aliases))
  {}

  /** The documents an alias stands for: those of the one index behind it. */
  ghost predicate Resolves(s: State, alias: string, docs: map<string, Doc>) {
    exists name :: name in s && Behind(s, alias) == {name} && s[name].docs == docs
  }

  /** indicesWithAlias over the answer to the alias request. */
  method IndicesWithAlias(mapping: map<string, set<string>>, alias: string) returns (result: seq<string>)
    ensures forall name :: name in result <==> name in mapping && alias in mapping[name]
    ensures forall i, j | 0 <= i < j < |result| :: result[i] != result[j]
  {
    result := [];
    var todo := mapping.Keys;
    while todo != {}
      invariant todo <= mapping.Keys
      invariant forall name :: name in result <==> name in mapping && name !in todo && alias in mapping[name]
      invariant forall i, j | 0 <= i < j < |result| :: result[i] != result[j]
      decreases |todo|
    {
      var index :| index in todo;
      if alias in mapping[index] {
        result := result + [index];
      }
      todo := todo - {index};
    }
  }

  // ----- the cluster -----

  class Cluster {
    var indices: State
    ghost var history: seq<State>
    /** The requests that were refused, or reported as failed, for no reason in the indexes. */
    ghost var faults: nat

    ghost predicate Recorded()
      reads this
    {
      history != [] && history[|history| - 1] == indices
    }

    constructor (s: State)
      ensures Recorded() && indices == s && history == [s] && faults == 0
    {
      indices, history, faults := s, [s], 0;
    }

    method Create(name: string) returns (ok: bool)
      requires Recorded()
      modifies this
      ensures Recorded()
      ensures ok ==> name !in old(indices)
      ensures name in old(indices) ==> indices == old(indices)
      ensures indices == old(indices) || indices == old(indices)[name := Index(map[], {})]
      ensures ok ==> name in indices
      ensures history == old(history) || history == old(history) + [indices]
      ensures faults >= old(faults) && (!ok ==> name in old(indices) || faults > old(faults))
    {
      var takesEffect, fails: bool := *, *;
      if name in indices {
        return false;
      }
      if !takesEffect || fails { faults := faults + 1; }
      if !takesEffect {
        return false;
      }
      indices := indices[name := Index(map[], {})];
      history := history + [indices];
      ok := !fails;
    }

    /** Copies documents one at a time, in any order, and may stop after any of them. */
    method Reindex(source: string, dest: string) returns (ok: bool)
      requires Recorded() && source != dest
      modifies this
      ensures Recorded()
      ensures source !in old(indices) || dest !in old(indices) ==> !ok && indices == old(indices) && history == old(history)
      ensures source in old(indices) && dest in old(indices) ==>
        && OnlyFilled(old(indices), indices, dest)
        && (ok ==> indices[dest].docs == old(indices)[dest].docs + old(indices)[source].docs)
        && old(history) <= history
        && FilledSince(old(indices), history, |old(history)|, dest)
      ensures faults >= old(faults)
      ensures !ok ==> source !in old(indices) || dest !in old(indices) || faults > old(faults)
    {
      if source !in indices || dest !in indices {
        return false;
      }
      ok := Copy(indices[source].docs, dest);
      var fails: bool := *;
      if !ok || fails {
        faults := faults + 1;
        ok := false;
      }
    }

    method Copy(docs: map<string, Doc>, dest: string) returns (done: bool)
      requires Recorded() && dest in indices
      modifies this
      ensures Recorded() && faults == old(faults)
      ensures OnlyFilled(old(indices), indices, dest)
      ensures done ==> indices[dest].docs == old(indices)[dest].docs + docs
      ensures old(history) <= history && FilledSince(old(indices), history, |old(history)|, dest)
    {
      ghost var before, since := indices, |history|;
      var todo := docs.Keys;
      assert docs - todo == map[] && indices[dest].docs + map[] == indices[dest].docs;
      while todo != {}
        invariant Recorded() && faults == old(faults) && todo <= docs.Keys
        invariant dest in indices && indices[dest].docs == before[dest].docs + (docs - todo)
        invariant OnlyFilled(before, indices, dest)
        invariant old(history) <= history && FilledSince(before, history, since, dest)
        decreases |todo|
      {
        var stops: bool := *;
        if stops {
          return false;
        }
        var id :| id in todo;
        OneMoreCopied(before[dest].docs, docs, todo, id);
        todo := todo - {id};
        CopyOne(id, docs[id], dest);
      }
      assert docs - {} == docs;
      done := true;
    }

    method CopyOne(id: string, d: Doc, dest: string)
      requires Recorded() && dest in indices
      modifies this
      ensures Recorded() && faults == old(faults)
      ensures indices == old(indices)[dest := old(indices)[dest].(docs := old(indices)[dest].docs[id := d])]
      ensures history == old(history) + [indices]
    {
      indices := indices[dest := indices[dest].(docs := indices[dest].docs[id := d])];
      history := history + [indices];
    }

    /** One request that moves an alias from one index to another, all or nothing. */
    method MoveAlias(from: string, to: string, alias: string) returns (ok: bool)
      requires Recorded() && from in indices && to in indices && from != to
      modifies this
      ensures Recorded()
      ensures indices == old(indices) || indices == Moved(old(indices), from, to, alias)
      ensures ok ==> indices == Moved(old(indices), from, to, alias)
      ensures history == old(history) || history == old(history) + [indices]
      ensures faults >= old(faults) && (!ok ==> faults > old(faults))
    {
      var takesEffect, fails: bool := *, *;
      if !takesEffect || fails { faults := faults + 1; }
      if !takesEffect {
        return false;
      }
      indices := indices[from := indices[from].(aliases := indices[from].aliases - {alias})]
                        [to := indices[to].(aliases := indices[to].aliases + {alias})];
      history := history + [indices];
      ok := !fails;
    }

    method PutAlias(name: string, alias: string) returns (ok: bool)
      requires Recorded()
      modifies this
      ensures Recorded()
      ensures indices == old(indices) || indices == WithAlias(old(indices), Targets(old(indices), name), alias)
      ensures ok ==> Targets(old(indices), name) != {}
      ensures ok ==> indices == WithAlias(old(indices), Targets(old(indices), name), alias)
      ensures history == old(history) || history == old(history) + [indices]
      ensures faults >= old(faults) && (!ok ==> Targets(old(indices), name) == {} || faults > old(faults))
    {
      var takesEffect, fails: bool := *, *;
      if Targets(indices, name) == {} {
        return false;
      }
      if !takesEffect || fails { faults := faults + 1; }
      if !takesEffect {
        return false;
      }
      indices := WithAlias(indices, Targets(indices, name), alias);
      history := history + [indices];
      ok := !fails;
    }

    method Delete(name: string) returns (ok: bool)
      requires Recorded()
      modifies this
      ensures Recorded()
      ensures indices == old(indices) || indices == old(indices) - {name}
      ensures ok ==> name in old(indices) && indices == old(indices) - {name}
      ensures history == old(history) || history == old(history) + [indices]
      ensures faults >= old(faults) && (!ok ==> name !in old(indices) || faults > old(faults))
    {
      var takesEffect, fails: bool := *, *;
      if name !in indices {
        return false;
      }
      if !takesEffect || fails { faults := faults + 1; }
      if !takesEffect {
        return false;
      }
      indices := indices - {name};
      history := history + [indices];
      ok := !fails;
    }
  }

  lemma OneMoreCopied(target: map<string, Doc>, docs: map<string, Doc>, todo: set<string>, id: string)
    requires todo <= docs.Keys && id in todo
    ensures (target + (docs - todo))[id := docs[id]] == target + (docs - (todo - {id}))
  {}

  /** Whether a request gets an answer. */
  method Answers(cluster: Cluster) returns (reachable: bool)
    modifies cluster`faults
    ensures cluster.faults >= old(cluster.faults) && (!reachable ==> cluster.faults > old(cluster.faults))
  {
    reachable := *;
    if !reachable { cluster.faults := cluster.faults + 1; }
  }

  /** Nothing changed but the documents of one index. */
  ghost predicate OnlyFilled(s: State, t: State, dest: string) {
    && t.Keys == s.Keys
    && (forall name | name in s && name != dest :: t[name] == s[name])
    && (dest in s ==> t[dest].aliases == s[dest].aliases)
  }

  ghost predicate FilledSince(s: State, history: seq<State>, since: nat, dest: string) {
    forall i | since <= i < |history| :: OnlyFilled(s, history[i], dest)
  }

  function Moved(s: State, from: string, to: string, alias: string): State
    requires from in s && to in s && from != to
  {
    s[from := s[from].(aliases := s[from].aliases - {alias})][to := s[to].(aliases := s[to].aliases + {alias})]
  }

  function WithAlias(s: State, names: set<string>, alias: string): State {
    map n | n in s :: if n in names then s[n].(aliases := s[n].aliases + {alias}) else s[n]
  }

  datatype Versions = Known(current: string, next: string) | Unexpected | Unreachable

  /** GetIndexVersionsOfAlias */
  method GetIndexVersions(cluster: Cluster, kind: string) returns (versions: Versions)
    modifies cluster`faults
    ensures cluster.faults >= old(cluster.faults)
    ensures versions.Unreachable? ==> cluster.faults > old(cluster.faults)
    ensures versions.Known? ==>
      Behind(cluster.indices, kind) == {versions.current} && NextName(kind, versions.current) == Some(versions.next)
    ensures versions.Unexpected? ==> forall c | Behind(cluster.indices, kind) == {c} :: NextName(kind, c).None?
  {
    var reachable := Answers(cluster);
    if !reachable {
      return Unreachable;
    }
    var mapping := map name | name in cluster.indices && kind in cluster.indices[name].aliases :: cluster.indices[name].aliases;
    var indexes := IndicesWithAlias(mapping, kind);
    assert forall name :: name in indexes <==> name in Behind(cluster.indices, kind);
    if |indexes| != 1 {
      OneBehind(indexes, Behind(cluster.indices, kind));
      return Unexpected;
    }
    var current := indexes[0];
    assert Behind(cluster.indices, kind) == {current};
    var version := Atoi(RemoveAll(current, kind + "_v"));
    if version.None? {
      return Unexpected;
    }
    var v: int := version.value;
    versions := Known(current, kind + "_v" + Itoa(Wrap(v + 1)));
  }

  lemma OneBehind(indexes: seq<string>, behind: set<string>)
    requires forall name :: name in indexes <==> name in behind
    requires forall i, j | 0 <= i < j < |indexes| :: indexes[i] != indexes[j]
    requires |indexes| != 1
    ensures forall c :: behind != {c}
  {
    if |indexes| > 1 {
      assert indexes[0] in behind && indexes[1] in behind && indexes[0] != indexes[1];
    }
  }

  // ----- the run -----

  /** Before the alias moves: nothing but the next index is new, and no alias points at it. */
  ghost predicate Preparing(s: State, t: State, current: string, next: string) {
    && current in t
    && (forall name | name != next :: name in t <==> name in s)
    && (forall name | name in t && name != next :: t[name] == s[name])
    && (next in t ==> t[next].aliases == {})
  }

  /** After it has moved: the next index has all documents and the old one may be gone. */
  ghost predicate Switched(s: State, t: State, kind: string, current: string, next: string)
    requires current in s
  {
    && next in t && t[next] == Index(s[current].docs, {kind})
    && (forall name | name != next && name != current :: name in t <==> name in s)
    && (forall name | name in t && name != next && name != current :: t[name] == s[name])
    && (current in t ==> kind !in t[current].aliases)
  }

  ghost predicate Starts(s: State, kind: string, current: string, next: string) {
    current in s && Behind(s, kind) == {current} && next !in s && next != current
  }

  lemma PreparingServes(s: State, t: State, kind: string, current: string, next: string)
    requires Starts(s, kind, current, next) && Preparing(s, t, current, next)
    ensures Behind(t, kind) == {current} && Resolves(t, kind, s[current].docs)
  {
    assert current in Behind(s, kind);
    forall name | name in Behind(t, kind) ensures name == current {
      assert name in Behind(s, kind);
    }
    assert Behind(t, kind) == {current};
  }

  lemma SwitchedServes(s: State, t: State, kind: string, current: string, next: string)
    requires Starts(s, kind, current, next) && Switched(s, t, kind, current, next)
    ensures Behind(t, kind) == {next} && Resolves(t, kind, s[current].docs)
  {
    assert forall name | name in t && name != next && name != current && kind in t[name].aliases :: name in Behind(s, kind);
    assert Behind(t, kind) == {next};
  }

  lemma OnlyOneResolves(s: State, kind: string, current: string, docs: map<string, Doc>)
    requires current in s && Behind(s, kind) == {current} && Resolves(s, kind, docs)
    ensures docs == s[current].docs
  {
    var name :| name in s && Behind(s, kind) == {name} && s[name].docs == docs;
    assert name in Behind(s, kind);
  }

  /** The state a completed run leaves: the next version instead of the current one, with its
      documents, and everything else as it was. */
  ghost predicate Completed(s: State, t: State, kind: string) {
    exists current, next ::
      && Starts(s, kind, current, next) && NextName(kind, current) == Some(next)
      && t == (s - {current})[next := Index(s[current].docs, {kind})]
  }

  /** One index is behind the alias, its name has a number, and the next one is free. */
  ghost predicate Migratable(s: State, kind: string) {
    exists current ::
      Behind(s, kind) == {current} && NextName(kind, current).Some? && NextName(kind, current).value !in s
  }

  /** In every state of a run, wherever it stops, the alias resolves to what it resolved to before;
      a completed run replaces the index by its next version.  A run that could be made is completed
      unless a request fails. */
  method UpdateIndexMapping(cluster: Cluster, kind: string) returns (ok: bool)
    requires cluster.Recorded()
    modifies cluster
    ensures cluster.Recorded() && old(cluster.history) <= cluster.history
    ensures forall docs, i | Resolves(old(cluster.indices), kind, docs) && |old(cluster.history)| <= i < |cluster.history| ::
      Resolves(cluster.history[i], kind, docs)
    ensures forall docs | Resolves(old(cluster.indices), kind, docs) :: Resolves(cluster.indices, kind, docs)
    ensures ok ==> Completed(old(cluster.indices), cluster.indices, kind)
    ensures Migratable(old(cluster.indices), kind) && !ok ==> cluster.faults > old(cluster.faults)
    ensures (forall c :: Behind(old(cluster.indices), kind) != {c}) ==> !ok && cluster.indices == old(cluster.indices)
  {
    ghost var s := cluster.indices;
    var versions := GetIndexVersions(cluster, kind);
    if !versions.Known? {
      return false;
    }
    var current, next := versions.current, versions.next;
    NextDiffers(kind, current);
    assert current in Behind(s, kind);
    ok := Migrate(cluster, kind, current, next);
    forall docs | Resolves(s, kind, docs) ensures docs == s[current].docs {
      OnlyOneResolves(s, kind, current, docs);
    }
  }

  /** Every state recorded since the given length resolves the alias to the documents, and so does
      the present one. */
  ghost predicate Served(cluster: Cluster, since: nat, kind: string, docs: map<string, Doc>)
    reads cluster
  {
    && cluster.Recorded() && since <= |cluster.history|
    && Resolves(cluster.indices, kind, docs)
    && forall i | since <= i < |cluster.history| :: Resolves(cluster.history[i], kind, docs)
  }

  /** The requests of a run once the two names are known. */
  method Migrate(cluster: Cluster, kind: string, current: string, next: string) returns (ok: bool)
    requires cluster.Recorded() && current in cluster.indices
    requires Behind(cluster.indices, kind) == {current} && next != current
    modifies cluster
    ensures cluster.faults >= old(cluster.faults)
    ensures next !in old(cluster.indices) && !ok ==> cluster.faults > old(cluster.faults)
    ensures old(cluster.history) <= cluster.history
    ensures Served(cluster, |old(cluster.history)|, kind, old(cluster.indices)[current].docs)
    ensures ok ==> next !in old(cluster.indices)
    ensures ok ==> cluster.indices ==
                   (old(cluster.indices) - {current})[next := Index(old(cluster.indices)[current].docs, {kind})]
  {
    ok := Prepare(cluster, kind, current, next);
    if !ok {
      return;
    }
    ok := Switch(cluster, kind, current, next, old(cluster.indices), |old(cluster.history)|);
  }

  /** Create the next index and fill it. */
  method Prepare(cluster: Cluster, kind: string, current: string, next: string) returns (ok: bool)
    requires cluster.Recorded() && current in cluster.indices
    requires Behind(cluster.indices, kind) == {current} && next != current
    modifies cluster
    ensures cluster.faults >= old(cluster.faults)
    ensures next !in old(cluster.indices) && !ok ==> cluster.faults > old(cluster.faults)
    ensures old(cluster.history) <= cluster.history
    ensures Served(cluster, |old(cluster.history)|, kind, old(cluster.indices)[current].docs)
    ensures ok ==> Starts(old(cluster.indices), kind, current, next)
    ensures ok ==> cluster.indices == old(cluster.indices)[next := Index(old(cluster.indices)[current].docs, {})]
  {
    ghost var s, since := cluster.indices, |cluster.history|;
    assert Resolves(s, kind, s[current].docs);
    ok := cluster.Create(next);
    if next !in s {
      PreparingServes(s, cluster.indices, kind, current, next);
    }
    if !ok {
      return;
    }
    ghost var created, length := cluster.indices, |cluster.history|;
    ok := cluster.Reindex(current, next);
    FilledServes(s, created, cluster.indices, kind, current, next);
    forall i | length <= i < |cluster.history| ensures Resolves(cluster.history[i], kind, s[current].docs) {
      FilledServes(s, created, cluster.history[i], kind, current, next);
    }
    if ok {
      FilledIs(s, created, cluster.indices, current, next);
    }
  }

  lemma FilledIs(s: State, created: State, t: State, current: string, next: string)
    requires current in s && next !in s && created == s[next := Index(map[], {})]
    requires OnlyFilled(created, t, next) && t[next].docs == created[next].docs + created[current].docs
    ensures t == s[next := Index(s[current].docs, {})]
  {
    assert map[] + s[current].docs == s[current].docs;
  }

  /** Move the alias and delete the old index. */
  method Switch(cluster: Cluster, kind: string, current: string, next: string, ghost s: State, ghost since: nat)
    returns (ok: bool)
    requires Starts(s, kind, current, next) && Served(cluster, since, kind, s[current].docs)
    requires cluster.indices == s[next := Index(s[current].docs, {})]
    modifies cluster
    ensures cluster.faults >= old(cluster.faults) && (!ok ==> cluster.faults > old(cluster.faults))
    ensures old(cluster.history) <= cluster.history
    ensures Served(cluster, since, kind, s[current].docs)
    ensures ok ==> cluster.indices == (s - {current})[next := Index(s[current].docs, {kind})]
  {
    ok := cluster.MoveAlias(current, next, kind);
    if cluster.indices != old(cluster.indices) {
      SwitchedServes(s, cluster.indices, kind, current, next);
    }
    if !ok {
      return;
    }
    ok := cluster.Delete(current);
    SwitchedServes(s, cluster.indices, kind, current, next);
  }

  lemma FilledServes(s: State, created: State, t: State, kind: string, current: string, next: string)
    requires Starts(s, kind, current, next) && Preparing(s, created, current, next) && OnlyFilled(created, t, next)
    ensures Preparing(s, t, current, next) && Resolves(t, kind, s[current].docs)
  {
    PreparingServes(s, t, kind, current, next);
  }

  /** From a version index a completed run leads to the index of the next number. */
  lemma CompletedRaisesVersion(s: State, t: State, kind: string, version: goint)
    ensures Completed(s, t, kind) && Behind(s, kind) == {Name(kind, version)} ==>
            Behind(t, kind) == {Name(kind, Wrap(version + 1))} && Name(kind, version) !in t
  {
    if Completed(s, t, kind) && Behind(s, kind) == {Name(kind, version)} {
      var current, next :| Starts(s, kind, current, next) && NextName(kind, current) == Some(next)
        && t == (s - {current})[next := Index(s[current].docs, {kind})];
      assert current in Behind(s, kind);
      NextNameIs(kind, version);
      SwitchedServes(s, t, kind, current, next);
    }
  }

  // ----- the first index -----

  ghost predicate Taken(s: State, name: string) {
    Targets(s, name) != {}
  }

  /** CreateIndex without the mapping update.  It fails only when a request does.  A name taken by an alias or
      an index is left alone.  Otherwise, when it succeeds, the alias has the first version behind it, with
      whatever documents an earlier attempt's index has, or what the first version's name is itself an
      alias of. */
  method CreateIndex(cluster: Cluster, kind: string) returns (ok: bool)
    requires cluster.Recorded()
    modifies cluster
    ensures cluster.Recorded()
    ensures !ok ==> cluster.faults > old(cluster.faults)
    ensures Taken(old(cluster.indices), kind) ==> cluster.indices == old(cluster.indices)
    ensures !Taken(old(cluster.indices), kind) && ok ==>
      var before, v1 := old(cluster.indices), Name(kind, 1);
      if !Taken(before, v1) then Behind(cluster.indices, kind) == {v1} && Resolves(cluster.indices, kind, map[])
      else Behind(cluster.indices, kind) == Targets(before, v1) &&
           (v1 in before ==> Resolves(cluster.indices, kind, before[v1].docs))
    ensures forall name | name in old(cluster.indices) ::
      name in cluster.indices && cluster.indices[name].docs == old(cluster.indices)[name].docs
  {
    ghost var s := cluster.indices;
    var taken := Exists(cluster, kind);
    if taken.None? {
      return false;
    }
    if taken.value {
      return true;
    }
    var v1 := kind + "_v1";
    FirstName(kind);
    var v1Taken := Exists(cluster, v1);
    if v1Taken.None? {
      return false;
    }
    if !v1Taken.value {
      ok := cluster.Create(v1);
      if !ok {
        return;
      }
    }
    ghost var created := cluster.indices;
    ok := cluster.PutAlias(v1, kind);
    if ok {
      AliasAdded(s, created, kind, v1);
    }
  }

  /** The alias was behind nothing, so it is now where it was put. */
  lemma AliasAdded(s: State, created: State, kind: string, v1: string)
    requires !Taken(s, kind) && v1 != kind
    requires if Taken(s, v1) then created == s else created == s[v1 := Index(map[], {})]
    ensures var targets := Targets(created, v1);
      var after := WithAlias(created, targets, kind);
      && targets == (if Taken(s, v1) then Targets(s, v1) else {v1})
      && Behind(after, kind) == targets
      && (v1 in created ==> Resolves(after, kind, created[v1].docs))
  {
    var targets := Targets(created, v1);
    var after := WithAlias(created, targets, kind);
    assert Behind(s, kind) == {};
    assert forall name | name in s && kind in s[name].aliases :: name in Behind(s, kind);
    assert forall name | name in created :: kind !in created[name].aliases;
    assert Behind(after, kind) == targets;
  }

  lemma FirstName(kind: string)
    ensures kind + "_v1" == Name(kind, 1) && kind + "_v1" != kind
  {
    assert Itoa(1) == "1";
    assert kind + "_v1" == kind + "_v" + "1";
    assert |kind + "_v1"| > |kind|;
  }

  /** IndexExists answers for indexes and aliases alike, when the cluster can be asked. */
  method Exists(cluster: Cluster, name: string) returns (found: Option<bool>)
    modifies cluster`faults
    ensures cluster.faults >= old(cluster.faults) && (found.None? ==> cluster.faults > old(cluster.faults))
    ensures found.Some? ==> (found.value <==> Taken(cluster.indices, name))
  {
    var reachable := Answers(cluster);
    found := if reachable then Some(Targets(cluster.indices, name) != {}) else None;
  }
}
