/** Lists of ids that carry result modifiers (lib/query/modifier/modifier.go), the listing that
    expands them, the adding of parameters to a result, and the bulk rights check (lib/query/query.go). */
module Modifiers {
  import opened GoStrings
  import opened Model
  import opened Commands
  import opened QueryAst
  import opened RightsQuery
  import opened Encoding
  import opened Grouping
  import opened Searching

  // ----- grouping raw ids by pure id -----

  function PureId(raw: string): string {
    SplitModifier(raw).pureId
  }

  function Parameters(raw: string): Params {
    match SplitModifier(raw).modifiers
    case Some(p) => p
    case None => map[]
  }

  function InfoOf(raw: string): Info {
    Info(raw, PureId(raw), Parameters(raw) == map[], Parameters(raw))
  }

  function Infos(raws: seq<string>): (infos: seq<Info>)
    ensures |infos| == |raws| && forall i | 0 <= i < |raws| :: infos[i] == InfoOf(raws[i])
  {
    seq(|raws|, i requires 0 <= i < |raws| => InfoOf(raws[i]))
  }

  ghost function PureIds(infos: seq<Info>): set<string> {
    set x | x in infos :: x.pureId
  }

  /** What PrepareListModify promises of its two results. */
  ghost predicate Prepares(infos: seq<Info>, pureIds: seq<string>, prepared: map<string, seq<Info>>) {
    && Distinct(pureIds)
    && (forall p :: p in pureIds <==> p in PureIds(infos))
    && prepared.Keys == PureIds(infos)
    && (forall p | p in prepared :: prepared[p] == Select(infos, p))
  }

  method PrepareListModify(ids: seq<string>) returns (pureIds: seq<string>, prepared: map<string, seq<Info>>)
    ensures Prepares(Infos(ids), pureIds, prepared)
  {
    pureIds, prepared := [], map[];
    var seen: set<string> := {};
    ghost var infos: seq<Info> := [];
    for i := 0 to |ids|
      invariant infos == Infos(ids)[..i]
      invariant seen == PureIds(infos)
      invariant Prepares(infos, pureIds, prepared)
    {
      var info := TakeApart(ids[i]);
      TakeNext(Infos(ids), i);
      pureIds, seen, prepared := Prepare(infos, info, pureIds, seen, prepared);
      infos := infos + [info];
    }
    assert Infos(ids)[..|ids|] == Infos(ids);
  }

  lemma TakeNext<T>(s: seq<T>, i: nat)
    requires i < |s|
    ensures s[..i + 1] == s[..i] + [s[i]]
  {}

  method TakeApart(id: string) returns (info: Info)
    ensures info == InfoOf(id)
  {
    var m := SplitModifier(id);
    var modifiers := match m.modifiers case Some(p) => p case None => map[];
    info := Info(id, m.pureId, modifiers == map[], modifiers);
  }

  /** The body of the loop over the ids. */
  method Prepare(ghost infos: seq<Info>, info: Info, pureIds: seq<string>, seen: set<string>, prepared: map<string, seq<Info>>)
    returns (pureIds': seq<string>, seen': set<string>, prepared': map<string, seq<Info>>)
    requires seen == PureIds(infos) && Prepares(infos, pureIds, prepared)
    ensures seen' == PureIds(infos + [info]) && Prepares(infos + [info], pureIds', prepared')
  {
    PrepareNext(infos, info, pureIds, prepared);
    pureIds', seen' := pureIds, seen;
    if info.pureId !in seen {
      seen' := seen + {info.pureId};
      pureIds' := pureIds + [info.pureId];
    }
    prepared' := prepared[info.pureId := (if info.pureId in prepared then prepared[info.pureId] else []) + [info]];
  }

  lemma PrepareNext(infos: seq<Info>, x: Info, pureIds: seq<string>, prepared: map<string, seq<Info>>)
    requires Prepares(infos, pureIds, prepared)
    ensures PureIds(infos + [x]) == PureIds(infos) + {x.pureId}
    ensures var p := x.pureId;
      Prepares(infos + [x], if p in PureIds(infos) then pureIds else pureIds + [p],
               prepared[p := (if p in prepared then prepared[p] else []) + [x]])
  {
    var p := x.pureId;
    PureIdsNext(infos, x);
    var had := if p in prepared then prepared[p] else [];
    var now := prepared[p := had + [x]];
    if p !in prepared {
      SelectNone(infos, p);
    }
    forall q | q in now ensures now[q] == Select(infos + [x], q) {
      SelectNext(infos, x, q);
    }
  }

  lemma PureIdsNext(infos: seq<Info>, x: Info)
    ensures PureIds(infos + [x]) == PureIds(infos) + {x.pureId}
  {
    assert forall y :: y in infos + [x] <==> y in infos || y == x;
  }

  // ----- the bulk check -----

  datatype Caller = Caller(user: string, groups: seq<string>, rights: string)

  /** The filter of CheckListUserOrGroup and getListFromIds. */
  function IdFilter(c: Caller, pureIds: seq<string>): Query {
    Bool(RightsFilter(c.rights, c.user, c.groups) + [Terms("resource", Array(Texts(pureIds)))], [], [])
  }

  predicate Readable(c: Caller, d: Doc) {
    QueryAccepts(c.rights, c.user, c.groups, AsIndexed(d))
  }

  lemma IdFilterMeaning(c: Caller, pureIds: seq<string>, d: Doc)
    ensures Matches(IdFilter(c, pureIds), AsIndexed(d)) <==> Readable(c, d) && d.resource in pureIds
  {
    var rights, byId := RightsFilter(c.rights, c.user, c.groups), Terms("resource", Array(Texts(pureIds)));
    var doc := AsIndexed(d);
    EveryEntryIndexed(d);
    assert [Text(d.resource)] == Texts([d.resource]);
    GroupTermMeaning("resource", pureIds, doc, [d.resource]);
    assert forall q :: q in rights + [byId] <==> q in rights || q == byId;
  }

  /** A search sized by the number of distinct pure ids returns every match. */
  lemma NeverTruncates(index: seq<Doc>, c: Caller, pureIds: seq<string>, size: nat)
    requires DistinctResources(index) && |pureIds| <= size <= WINDOW
    ensures Page(Found(index, IdFilter(c, pureIds)), 0, size) == Some(Found(index, IdFilter(c, pureIds)))
  {
    var hits := Found(index, IdFilter(c, pureIds));
    FoundStaysDistinct(index, IdFilter(c, pureIds));
    forall i | 0 <= i < |hits| ensures Resources(hits)[i] in pureIds {
      assert hits[i] in hits;
      IdFilterMeaning(c, pureIds, hits[i]);
    }
    DistinctFitsList(Resources(hits), pureIds);
    assert hits[0..] == hits;
  }

  /** The index of a kind lists its documents, each once, in some order of their ids. */
  ghost predicate ListsKind(index: seq<Doc>, order: seq<string>, docs: Docs, kind: string) {
    && |index| == |order|
    && (forall i, j | 0 <= i < j < |order| :: order[i] != order[j])
    && (forall id :: id in order <==> Key(kind, id) in docs)
    && (forall i | 0 <= i < |order| :: index[i] == docs[Key(kind, order[i])])
  }

  lemma FiledIndex(index: seq<Doc>, order: seq<string>, docs: Docs, kind: string)
    requires Filed(docs) && ListsKind(index, order, docs, kind)
    ensures DistinctResources(index)
    ensures forall d: Doc :: d in index <==> Key(kind, d.resource) in docs && docs[Key(kind, d.resource)] == d
  {
    forall i | 0 <= i < |index| ensures index[i].resource == order[i] && order[i] in order {}
    forall d: Doc | Key(kind, d.resource) in docs && docs[Key(kind, d.resource)] == d ensures d in index {
      var i :| 0 <= i < |order| && order[i] == d.resource;
      assert index[i] == d;
    }
  }

  /** What CheckUserOrGroupFromAuthToken answers for one raw id: the document is read under the
      pure id, and one that does not exist is denied like one without the rights. */
  ghost predicate SingleCheck(docs: Docs, kind: string, c: Caller, raw: string) {
    var key := Key(kind, PureId(raw));
    key in docs && Allowed(docs[key], c.user, c.groups, c.rights)
  }

  method CheckUserOrGroup(docs: Docs, kind: string, c: Caller, raw: string) returns (accepted: bool)
    ensures accepted <==> SingleCheck(docs, kind, c, raw)
  {
    var m := SplitModifier(raw);
    if Key(kind, m.pureId) !in docs {
      return false;
    }
    accepted := CheckRights(docs[Key(kind, m.pureId)], c.user, c.groups, c.rights);
  }

  method CheckList(index: seq<Doc>, c: Caller, ids: seq<string>) returns (allowed: Option<set<string>>)
    requires DistinctResources(index)
    ensures allowed.None? <==> |PureIds(Infos(ids))| > WINDOW
    ensures allowed.Some? ==>
      forall raw :: raw in allowed.value <==> raw in ids && ReadableUnder(index, c, PureId(raw))
  {
    var pureIds, prepared := PrepareListModify(ids);
    var rights := GetRightsQuery(c.rights, c.user, c.groups);
    var query := Bool(rights + [Terms("resource", Array(Texts(pureIds)))], [], []);
    assert query == IdFilter(c, pureIds);
    var hits := Page(Found(index, query), 0, |pureIds|);
    PureIdsCounted(Infos(ids), pureIds);
    if hits == None {
      return None;
    }
    NeverTruncates(index, c, pureIds, |pureIds|);
    assert forall p :: p in Resources(hits.value) ==> p in pureIds by {
      FoundNames(index, c, pureIds);
    }
    var marked := Mark(hits.value, prepared, Infos(ids));
    MarkedMeaning(index, c, ids, pureIds, marked);
    allowed := Some(marked);
  }

  /** The loop that marks the raw ids of every hit. */
  method Mark(hits: seq<Doc>, prepared: map<string, seq<Info>>, ghost infos: seq<Info>) returns (marked: set<string>)
    requires forall p | p in Resources(hits) :: p in prepared
    requires forall p | p in prepared :: prepared[p] == Select(infos, p)
    ensures forall raw :: raw in marked <==> exists x :: x in infos && x.rawId == raw && x.pureId in Resources(hits)
  {
    marked := {};
    ghost var done: seq<string> := [];
    for i := 0 to |hits|
      invariant done == Resources(hits)[..i]
      invariant forall raw :: raw in marked <==> exists x :: x in infos && x.rawId == raw && x.pureId in done
    {
      var p := hits[i].resource;
      assert p == Resources(hits)[i];
      var chosen := prepared[p];
      ghost var before := marked;
      for j := 0 to |chosen|
        invariant forall raw :: raw in marked <==> raw in before || exists x :: x in chosen[..j] && x.rawId == raw
      {
        assert chosen[..j + 1] == chosen[..j] + [chosen[j]];
        marked := marked + {chosen[j].rawId};
      }
      assert chosen[..|chosen|] == chosen;
      done := done + [p];
    }
    assert Resources(hits)[..|hits|] == Resources(hits);
  }

  ghost predicate ReadableUnder(index: seq<Doc>, c: Caller, p: string) {
    exists d :: d in index && Readable(c, d) && d.resource == p
  }

  lemma FoundNames(index: seq<Doc>, c: Caller, pureIds: seq<string>)
    ensures forall p :: p in Resources(Found(index, IdFilter(c, pureIds))) <==> p in pureIds && ReadableUnder(index, c, p)
  {
    var hits := Found(index, IdFilter(c, pureIds));
    forall d: Doc ensures Matches(IdFilter(c, pureIds), AsIndexed(d)) <==> Readable(c, d) && d.resource in pureIds {
      IdFilterMeaning(c, pureIds, d);
    }
    forall p ensures p in Resources(hits) <==> exists d :: d in hits && d.resource == p {
      ResourcesMember(hits, p);
    }
  }

  lemma ResourcesMember(hits: seq<Doc>, p: string)
    ensures p in Resources(hits) <==> exists d :: d in hits && d.resource == p
  {
    if d :| d in hits && d.resource == p {
      var i :| 0 <= i < |hits| && hits[i] == d;
      assert Resources(hits)[i] == p;
    }
  }

  lemma MarkedMeaning(index: seq<Doc>, c: Caller, ids: seq<string>, pureIds: seq<string>, marked: set<string>)
    requires forall p :: p in pureIds <==> p in PureIds(Infos(ids))
    requires var named := Resources(Found(index, IdFilter(c, pureIds)));
      forall raw :: raw in marked <==> exists x :: x in Infos(ids) && x.rawId == raw && x.pureId in named
    ensures forall raw :: raw in marked <==> raw in ids && ReadableUnder(index, c, PureId(raw))
  {
    FoundNames(index, c, pureIds);
    forall raw ensures raw in marked <==> raw in ids && ReadableUnder(index, c, PureId(raw)) {
      InfoMember(ids, raw);
      if raw in ids { assert InfoOf(raw).pureId in PureIds(Infos(ids)); }
    }
  }

  lemma InfoMember(ids: seq<string>, raw: string)
    ensures raw in ids <==> InfoOf(raw) in Infos(ids)
    ensures forall x | x in Infos(ids) && x.rawId == raw :: x == InfoOf(raw)
  {
    if raw in ids {
      var i :| 0 <= i < |ids| && ids[i] == raw;
      assert Infos(ids)[i] == InfoOf(raw);
    }
  }

  lemma PureIdsCounted(infos: seq<Info>, pureIds: seq<string>)
    requires Distinct(pureIds) && forall p :: p in pureIds <==> p in PureIds(infos)
    ensures |pureIds| == |PureIds(infos)|
  {
    assert PureIds(infos) == set p | p in pureIds;
    DistinctCount(pureIds);
  }

  /** The bulk check marks exactly the asked ids that the single check accepts. */
  lemma BulkAgreesWithSingle(docs: Docs, kind: string, index: seq<Doc>, order: seq<string>, c: Caller, raw: string)
    requires c.user != "" && Filed(docs) && ListsKind(index, order, docs, kind)
    ensures SingleCheck(docs, kind, c, raw) <==> ReadableUnder(index, c, PureId(raw))
  {
    FiledIndex(index, order, docs, kind);
    forall d: Doc ensures Readable(c, d) <==> Allowed(d, c.user, c.groups, c.rights) {
      EveryEntryIndexed(d);
      QueryAgrees(c.rights, c.user, c.groups, d, AsIndexed(d));
    }
    var key := Key(kind, PureId(raw));
    if key in docs {
      assert docs[key] in index;
    }
  }
}
