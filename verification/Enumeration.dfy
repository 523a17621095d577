/** The loops that walk a whole index: the replay's cursor (lib/replay/replay.go), the full list
    (lib/query/query.go) and the export (lib/query/migration.go), against a store that refuses to
    look past its window. */
module Enumeration {
  import opened GoStrings
  import opened Model
  import opened Commands
  import opened Searching
  import opened Modifiers
  import opened Paging
  import opened RightsMaps
  import Compaction

  // ----- the cursor of the replay -----

  /** An index in the order of the replay's sort, resource ids ascending, none of them empty. */
  ghost predicate Ascending(s: seq<Doc>) {
    && (forall i | 0 <= i < |s| :: s[i].resource != "")
    && forall i, j | 0 <= i < j < |s| :: Below(s[i].resource, s[j].resource)
  }

  /** Sorted hits of the replay's request are in that order. */
  lemma SortedAscends(view: View, s: seq<Doc>)
    requires DistinctResources(s) && forall d | d in s :: d.resource != ""
    requires Arranges(view, [SortKey("resource", false)], multiset(s), s)
    ensures Ascending(s)
  {
    var keys := [SortKey("resource", false)];
    forall i, j | 0 <= i < j < |s| ensures Below(s[i].resource, s[j].resource) {
      assert !Before(view, keys, s[j], s[i]);
      BelowTotal(s[i].resource, s[j].resource);
    }
    forall i | 0 <= i < |s| ensures s[i].resource != "" { assert s[i] in s; }
  }

  /** The answer to a search sorted by resource id, from the start or behind an id. */
  function Cursor(s: seq<Doc>, lastId: string, batchSize: int): Option<seq<Doc>> {
    Page(if lastId == "" then s else Behind(s, lastId, false), 0, batchSize)
  }

  function LastId(s: seq<Doc>, n: nat): string
    requires n <= |s|
  {
    if n == 0 then "" else s[n - 1].resource
  }

  /** Behind the first n documents the cursor gives the next ones. */
  lemma CursorContinues(s: seq<Doc>, n: nat, batchSize: nat) returns (m: nat)
    requires Ascending(s) && batchSize <= WINDOW && n <= |s|
    ensures n <= m <= |s| && Cursor(s, LastId(s, n), batchSize) == Some(s[n..m])
    ensures m - n < batchSize ==> m == |s|
    ensures m - n <= batchSize
  {
    if n > 0 {
      var lastId := s[n - 1].resource;
      forall j | 0 <= j < |s| ensures Below(lastId, s[j].resource) <==> n <= j {
        BelowTotal(lastId, s[j].resource);
        if j < n - 1 { assert Below(s[j].resource, lastId); }
      }
      BehindSome(s, n, lastId, false);
    } else {
      assert s[0..] == s;
    }
    m := if |s| - n <= batchSize then |s| else n + batchSize;
    FirstPage(s[n..], batchSize);
    assert s[n..m] == UpTo(s[n..], batchSize);
  }

  lemma FirstPage(s: seq<Doc>, size: nat)
    requires size <= WINDOW
    ensures Page(s, 0, size) == Some(UpTo(s, size))
  {
    PageExtends(s, 0, size);
    assert UpTo(s, 0) == [];
  }

  /** Every document is emitted once, in the order of the ids, for every batch size the window
      admits; with a larger one the first search is refused and nothing is emitted. */
  method GetEntries(s: seq<Doc>, batchSize: int) returns (entries: seq<Doc>)
    requires Ascending(s) && 0 < batchSize
    ensures entries == if batchSize <= WINDOW then s else []
  {
    var lastId := "";
    entries := [];
    ghost var n: nat := 0;
    while true
      invariant n <= |s| && entries == s[..n] && lastId == LastId(s, n)
      invariant batchSize > WINDOW ==> n == 0
      decreases |s| - n
    {
      var hits := Cursor(s, lastId, batchSize);
      if hits == None {
        if batchSize <= WINDOW { ghost var _ := CursorContinues(s, n, batchSize); }
        return;
      }
      ghost var m := CursorContinues(s, n, batchSize);
      entries, lastId := Emit(s, n, m, entries, lastId, hits.value);
      n := m;
      if |hits.value| < batchSize {
        return;
      }
    }
  }

  /** The loop over the hits of one batch. */
  method Emit(ghost s: seq<Doc>, ghost n: nat, ghost m: nat, emitted: seq<Doc>, last: string, hits: seq<Doc>)
    returns (entries: seq<Doc>, lastId: string)
    requires n <= m <= |s| && emitted == s[..n] && last == LastId(s, n) && hits == s[n..m]
    ensures entries == s[..m] && lastId == LastId(s, m)
  {
    entries, lastId := emitted, last;
    for i := 0 to |hits|
      invariant entries == s[..n + i] && lastId == LastId(s, n + i)
    {
      entries := entries + [hits[i]];
      lastId := hits[i].resource;
    }
  }

  /** The producer of the rights topics; a command reported as failed may still have been sent. */
  class Producer {
    ghost var sent: seq<Compaction.Message>
    ghost var failures: nat

    constructor ()
      ensures sent == [] && failures == 0
    {
      sent, failures := [], 0;
    }

    method SetResourceRights(id: string, rights: Rights, owner: string) returns (failed: bool)
      modifies this
      ensures var m := Compaction.Message(id, SetRights(Some(rights), owner));
        && (!failed ==> sent == old(sent) + [m] && failures == old(failures))
        && (failed ==> (sent == old(sent) || sent == old(sent) + [m]) && failures == old(failures) + 1)
    {
      var arrives: bool, answered: bool := *, *;
      if arrives { sent := sent + [Compaction.Message(id, SetRights(Some(rights), owner))]; }
      failed := !(arrives && answered);
      if failed { failures := failures + 1; }
    }
  }

  /** Of the commands so many were sent. */
  ghost predicate SentUpTo(before: seq<Compaction.Message>, sent: seq<Compaction.Message>, s: seq<Doc>, n: nat) {
    n <= |s| && sent == before + RightsOf(s)[..n]
  }

  /** The permission replay: one RIGHTS command per entry, without an owner, up to the first that cannot be
      sent.  Without a producer nothing is sent. */
  method ReplayPermissions(s: seq<Doc>, batchSize: int, producer: Producer?) returns (failed: bool)
    requires Ascending(s) && 0 < batchSize <= WINDOW
    modifies if producer == null then {} else {producer}
    ensures failed ==> producer != null && producer.failures == old(producer.failures) + 1
    ensures failed ==> exists n: nat :: SentUpTo(old(producer.sent), producer.sent, s, n)
    ensures producer != null && !failed ==> producer.sent == old(producer.sent) + RightsOf(s)
    ensures producer != null && !failed ==> producer.failures == old(producer.failures)
  {
    var entries := GetEntries(s, batchSize);
    failed := false;
    for i := 0 to |entries|
      invariant producer != null ==> SentUpTo(old(producer.sent), producer.sent, s, i)
      invariant producer != null ==> producer.failures == old(producer.failures)
    {
      var rights := ToRights(entries[i]).rights;
      if producer != null {
        assert RightsOf(s)[..i + 1] == RightsOf(s)[..i] + [Compaction.Message(entries[i].resource, SetRights(Some(rights), ""))];
        failed := producer.SetResourceRights(entries[i].resource, rights, "");
        assert SentUpTo(old(producer.sent), producer.sent, s, i) || SentUpTo(old(producer.sent), producer.sent, s, i + 1);
        if failed {
          return;
        }
      }
    }
    assert RightsOf(s)[..|s|] == RightsOf(s);
  }

  function RightsOf(s: seq<Doc>): seq<Compaction.Message> {
    seq(|s|, i requires 0 <= i < |s| => Compaction.Message(s[i].resource, SetRights(Some(ToRights(s[i]).rights), "")))
  }

  /** Each names its document and carries, for every list of it, exactly who is on the list; none names an
      owner, who might become a creator. */
  lemma ReplayedRights(s: seq<Doc>, i: nat, n: string)
    requires i < |s|
    ensures RightsOf(s)[i].id == s[i].resource
    ensures RightsOf(s)[i].command.SetRights? && RightsOf(s)[i].command.owner == "" && RightsOf(s)[i].command.rights.Some?
    ensures CarriesLists(RightsOf(s)[i].command.rights.value.users, s[i].users, n)
    ensures CarriesLists(RightsOf(s)[i].command.rights.value.groups, s[i].groups, n)
  {}

  predicate CarriesLists(m: map<string, Right>, ls: Lists, n: string) {
    && (n in m && m[n].administrate <==> n in ls.admin) && (n in m && m[n].read <==> n in ls.read)
    && (n in m && m[n].write <==> n in ls.write) && (n in m && m[n].execute <==> n in ls.execute)
  }

  /** The commands of a completed replay are those that make a compacted topic recoverable: they
      name every document of the kind and carry the rights it has. */
  lemma ReplaySendsAll(s: seq<Doc>, order: seq<string>, docs: Docs, kind: string)
    requires Filed(docs) && ListsKind(s, order, docs, kind)
    ensures Resources(s) == order
    ensures forall id :: id in order <==> Key(kind, id) in docs
    ensures RightsOf(s) == Compaction.Replay(docs, kind, order)
  {
    forall i | 0 <= i < |s| ensures s[i].resource == order[i] {
      assert order[i] in order;
    }
  }

  // ----- the full list -----

  /** GetFullListForUserOrGroup over the matches in their fixed hit order: it succeeds exactly for at
      most 9000, and even a failed call returns the matches of the window. */
  method GetFullList(matches: seq<Doc>) returns (result: seq<Doc>, ok: bool)
    ensures ok <==> |matches| <= WINDOW - 1000
    ensures result == UpTo(matches, WINDOW)
  {
    var limit, offset := 1000, 0;
    result := [];
    var more := true;
    while more
      invariant 0 <= offset <= WINDOW && offset % limit == 0
      invariant result == UpTo(matches, offset)
      invariant !more ==> |matches| <= offset - limit
      invariant more && offset > 0 ==> offset - limit < |matches|
      decreases WINDOW - offset, more
    {
      var temp := Page(matches, offset, limit);
      if temp == None {
        return result, false;
      }
      PageExtends(matches, offset, limit);
      result := result + temp.value;
      more := |temp.value| > 0;
      offset := offset + limit;
    }
    ok := true;
  }

  // ----- the export -----

  function Exported(docs: seq<Doc>): seq<ResourceRights> {
    seq(|docs|, i requires 0 <= i < |docs| => ToRights(docs[i]))
  }

  /** ExportKindAll: it succeeds exactly for at most 9999 documents. */
  method ExportKindAll(docs: seq<Doc>) returns (result: seq<ResourceRights>, ok: bool)
    ensures ok <==> |docs| <= WINDOW - 1
    ensures result == Exported(UpTo(docs, WINDOW))
  {
    var limit, offset := 100, 0;
    result := [];
    while true
      invariant 0 <= offset <= WINDOW && offset % limit == 0
      invariant offset <= |docs| && result == Exported(docs[..offset])
      decreases WINDOW - offset
    {
      var temp := ExportKind(docs, limit, offset);
      if temp == None {
        return result, false;
      }
      PageExtends(docs, offset, limit);
      result := result + temp.value;
      if |temp.value| < limit {
        return result, true;
      }
      offset := offset + limit;
    }
  }

  method ExportKind(docs: seq<Doc>, limit: int, offset: int) returns (result: Option<seq<ResourceRights>>)
    ensures result == match Page(docs, offset, limit) case Some(hits) => Some(Exported(hits)) case None => None
  {
    var hits := Page(docs, offset, limit);
    if hits == None {
      return None;
    }
    var rights: seq<ResourceRights> := [];
    for i := 0 to |hits.value|
      invariant rights == Exported(hits.value[..i])
    {
      rights := rights + [ToRights(hits.value[i])];
    }
    assert hits.value[..|hits.value|] == hits.value;
    result := Some(rights);
  }

  /** Import: index every exported resource under its id. */
  method ImportKind(resources: seq<ResourceRights>) returns (store: map<string, Doc>)
    requires forall i, j | 0 <= i < j < |resources| :: resources[i].resourceId != resources[j].resourceId
    ensures store.Keys == set r | r in resources :: r.resourceId
    ensures forall r | r in resources :: IsImported(r, store[r.resourceId])
  {
    store := map[];
    for i := 0 to |resources|
      invariant store.Keys == set r | r in resources[..i] :: r.resourceId
      invariant forall k | 0 <= k < i ::
        resources[k].resourceId in store && IsImported(resources[k], store[resources[k].resourceId])
    {
      var d := ImportResource(resources[i]);
      store := store[resources[i].resourceId := d];
      assert resources[..i + 1] == resources[..i] + [resources[i]];
    }
    assert resources[..|resources|] == resources;
  }

  /** Exporting a kind and importing the export into an empty store keeps every resource. */
  method Migrate(docs: seq<Doc>) returns (store: map<string, Doc>, ok: bool)
    requires DistinctResources(docs)
    ensures ok <==> |docs| <= WINDOW - 1
    ensures ok ==> store.Keys == set d | d in docs :: d.resource
    ensures ok ==> forall d | d in docs :: SameResource(store[d.resource], d)
  {
    var resources, exported := ExportKindAll(docs);
    if !exported {
      return map[], false;
    }
    assert UpTo(docs, WINDOW) == docs;
    store := ImportKind(resources);
    MigratedSame(docs, store);
    ok := true;
  }

  lemma MigratedSame(docs: seq<Doc>, store: map<string, Doc>)
    requires store.Keys == set r | r in Exported(docs) :: r.resourceId
    requires forall r | r in Exported(docs) :: IsImported(r, store[r.resourceId])
    ensures store.Keys == set d | d in docs :: d.resource
    ensures forall d | d in docs :: SameResource(store[d.resource], d)
  {
    forall d | d in docs ensures d.resource in store && SameResource(store[d.resource], d) {
      var i :| 0 <= i < |docs| && docs[i] == d;
      assert Exported(docs)[i] == ToRights(d);
      var r := ToRights(d);
      assert r in Exported(docs) && IsImported(r, store[r.resourceId]);
      var users, groups :| Enumerates(users, r.rights.users.Keys) && Enumerates(groups, r.rights.groups.Keys)
        && store[r.resourceId] == Imported(r, users, groups);
      ImportUndoesExport(d, users, groups);
    }
    forall id | id in store ensures exists d :: d in docs && d.resource == id {
      var r :| r in Exported(docs) && r.resourceId == id;
      var i :| 0 <= i < |docs| && Exported(docs)[i] == r;
      assert docs[i] in docs;
    }
  }
}
