/** Expanding hits into their modified variants (lib/query/modifier/modifier.go) and adding
    parameters to the ids of a result (lib/query/query.go).

    Templates are an unknown function: given the template, the entry and the values of its
    parameter they yield the new features. */
module ModifiedLists {
  import opened GoStrings
  import opened Model
  import opened QueryAst
  import opened RightsQuery
  import opened Encoding
  import opened Grouping
  import opened Searching
  import opened Modifiers

  // ----- one modified result -----

  datatype ResultModifier = ResultModifier(modifier: string, template: Option<string>)

  datatype Rules = Rules(configs: seq<ResultModifier>, apply: (string, Doc, seq<string>) -> Fields)

  function Modify(rules: Rules, n: nat, d: Doc, params: Params): Doc
    requires n <= |rules.configs|
  {
    if n == 0 then d
    else
      var m, c := Modify(rules, n - 1, d, params), rules.configs[n - 1];
      if c.modifier in params && c.template.Some? then
        m.(features := rules.apply(c.template.value, m, params[c.modifier]))
      else m
  }

  /** Modifiers change nothing but features, so rights are decided on what the store holds. */
  lemma {:induction false} ModifyWritesFeatures(rules: Rules, n: nat, d: Doc, params: Params)
    requires n <= |rules.configs|
    ensures Modify(rules, n, d, params) == d.(features := Modify(rules, n, d, params).features)
  {
    if n > 0 {
      ModifyWritesFeatures(rules, n - 1, d, params);
    }
  }

  /** The last modifier that is asked for and has a template decides the features: it applies its template to
      the entry as the earlier ones left it, with the values of its own parameter.  Without any the entry
      stays as it is. */
  lemma {:induction false} LastUsedDecides(rules: Rules, n: nat, i: nat, d: Doc, params: Params)
    requires n <= |rules.configs| && i <= n
    requires forall j | i <= j < n :: rules.configs[j].modifier !in params || rules.configs[j].template.None?
    ensures i == 0 ==> Modify(rules, n, d, params) == d
    ensures i > 0 && rules.configs[i - 1].modifier in params && rules.configs[i - 1].template.Some? ==>
      var c := rules.configs[i - 1];
      Modify(rules, n, d, params).features ==
        rules.apply(c.template.value, Modify(rules, i - 1, d, params), params[c.modifier])
  {
    if i < n {
      LastUsedDecides(rules, n - 1, i, d, params);
    }
  }

  /** The variant of a document that one raw id asks for. */
  function Variant(rules: Rules, d: Doc, info: Info): Doc {
    if info.unmodified then d
    else Modify(rules, |rules.configs|, d.(resource := info.rawId), info.modifier)
  }

  /** What one raw id shows of its document: an id without parameters the document as stored, any other the
      document under the raw id, with nothing but its features modified. */
  lemma VariantShows(rules: Rules, d: Doc, raw: string)
    ensures var shown, parameters := Variant(rules, d, InfoOf(raw)), SplitModifier(raw).modifiers;
      if parameters.None? || parameters.value == map[] then shown == d
      else
        && shown == d.(resource := raw, features := shown.features)
        && shown.features == Modify(rules, |rules.configs|, d.(resource := raw), parameters.value).features
  {
    var info := InfoOf(raw);
    ModifyWritesFeatures(rules, |rules.configs|, d.(resource := raw), info.modifier);
  }

  method ModifyResult(rules: Rules, d: Doc, info: Info) returns (result: Doc)
    ensures result == Modify(rules, |rules.configs|, d.(resource := info.rawId), info.modifier)
  {
    result := d.(resource := info.rawId);
    for n := 0 to |rules.configs|
      invariant result == Modify(rules, n, d.(resource := info.rawId), info.modifier)
    {
      var c := rules.configs[n];
      if c.modifier in info.modifier {
        if c.template.Some? {
          result := result.(features := rules.apply(c.template.value, result, info.modifier[c.modifier]));
        }
      }
    }
  }

  function Variants(rules: Rules, d: Doc, infos: seq<Info>): seq<Doc> {
    seq(|infos|, i requires 0 <= i < |infos| => Variant(rules, d, infos[i]))
  }

  method UsePreparedModify(rules: Rules, prepared: map<string, seq<Info>>, d: Doc) returns (result: seq<Doc>)
    ensures result == Variants(rules, d, if d.resource in prepared then prepared[d.resource] else [])
  {
    result := [];
    var infos := if d.resource in prepared then prepared[d.resource] else [];
    for i := 0 to |infos|
      invariant result == Variants(rules, d, infos)[..i]
    {
      if infos[i].unmodified {
        result := result + [d];
      } else {
        var modified := ModifyResult(rules, d, infos[i]);
        result := result + [modified];
      }
    }
  }

  // ----- listing by ids -----

  /** The readable documents of the index with the given ids. */
  ghost function Chosen(index: seq<Doc>, c: Caller, names: set<string>): (hits: seq<Doc>)
    ensures forall d :: d in hits <==> d in index && Readable(c, d) && d.resource in names
  {
    if index == [] then []
    else (if Readable(c, index[0]) && index[0].resource in names then [index[0]] else []) + Chosen(index[1..], c, names)
  }

  lemma {:induction false} QueryChooses(index: seq<Doc>, c: Caller, pureIds: seq<string>, names: set<string>)
    requires forall p :: p in pureIds <==> p in names
    ensures Found(index, IdFilter(c, pureIds)) == Chosen(index, c, names)
  {
    if index != [] {
      IdFilterMeaning(c, pureIds, index[0]);
      QueryChooses(index[1..], c, pureIds, names);
    }
  }

  lemma {:induction false} ChosenDistinct(index: seq<Doc>, c: Caller, names: set<string>)
    requires DistinctResources(index)
    ensures Distinct(Resources(Chosen(index, c, names)))
  {
    if index != [] {
      ChosenDistinct(index[1..], c, names);
      var rest := Chosen(index[1..], c, names);
      forall j | 0 <= j < |rest| ensures rest[j].resource != index[0].resource {
        assert rest[j] in index[1..];
      }
    }
  }

  /** Sets of names that agree on the index choose the same. */
  lemma {:induction false} ChosenDepends(index: seq<Doc>, c: Caller, a: set<string>, b: set<string>)
    requires forall d | d in index && Readable(c, d) :: d.resource in a <==> d.resource in b
    ensures Chosen(index, c, a) == Chosen(index, c, b)
  {
    if index != [] {
      ChosenDepends(index[1..], c, a, b);
    }
  }

  /** The hits in order, each as the variants the infos ask for. */
  function Expanded(rules: Rules, hits: seq<Doc>, infos: seq<Info>): seq<Doc> {
    if hits == [] then []
    else
      var last := hits[|hits| - 1];
      Expanded(rules, hits[..|hits| - 1], infos) + Variants(rules, last, Select(infos, last.resource))
  }

  ghost function Listing(index: seq<Doc>, c: Caller, rules: Rules, infos: seq<Info>, from: int, limit: int): Option<seq<Doc>> {
    match Page(Chosen(index, c, PureIds(infos)), from, limit)
    case Some(hits) => Some(Expanded(rules, hits, infos))
    case None => None
  }

  /** getListFromIds without parameters to add. */
  method GetListFromIds(index: seq<Doc>, c: Caller, rules: Rules, ids: seq<string>, from: int, limit: int)
    returns (result: Option<seq<Doc>>)
    ensures result == Listing(index, c, rules, Infos(ids), from, limit)
  {
    var pureIds, prepared := PrepareListModify(ids);
    var rights := GetRightsQuery(c.rights, c.user, c.groups);
    var query := Bool(rights + [Terms("resource", Array(Texts(pureIds)))], [], []);
    assert query == IdFilter(c, pureIds);
    QueryChooses(index, c, pureIds, PureIds(Infos(ids)));
    var hits := Page(Found(index, query), from, limit);
    if hits == None {
      return None;
    }
    var expanded := ExpandHits(rules, hits.value, prepared, Infos(ids));
    result := Some(expanded);
  }

  method ExpandHits(rules: Rules, hits: seq<Doc>, prepared: map<string, seq<Info>>, ghost infos: seq<Info>)
    returns (result: seq<Doc>)
    requires prepared.Keys == PureIds(infos)
    requires forall p | p in prepared :: prepared[p] == Select(infos, p)
    ensures result == Expanded(rules, hits, infos)
  {
    result := [];
    for i := 0 to |hits|
      invariant result == Expanded(rules, hits[..i], infos)
    {
      var variants := UsePreparedModify(rules, prepared, hits[i]);
      if hits[i].resource !in prepared {
        SelectNone(infos, hits[i].resource);
      }
      assert hits[..i + 1][..i] == hits[..i];
      result := result + variants;
    }
    assert hits[..|hits|] == hits;
  }

  lemma {:induction false} ExpandedJoined(rules: Rules, a: seq<Doc>, b: seq<Doc>, infos: seq<Info>)
    ensures Expanded(rules, a + b, infos) == Expanded(rules, a, infos) + Expanded(rules, b, infos)
    decreases |b|
  {
    if b == [] {
      assert a + b == a;
    } else {
      ExpandedJoined(rules, a, b[..|b| - 1], infos);
      JoinedAtLast(rules, a, b, infos);
    }
  }

  lemma JoinedAtLast(rules: Rules, a: seq<Doc>, b: seq<Doc>, infos: seq<Info>)
    requires b != []
    requires var front := b[..|b| - 1];
      Expanded(rules, a + front, infos) == Expanded(rules, a, infos) + Expanded(rules, front, infos)
    ensures Expanded(rules, a + b, infos) == Expanded(rules, a, infos) + Expanded(rules, b, infos)
  {
    JoinedNext(rules, a, b[..|b| - 1], b[|b| - 1], infos);
    assert b[..|b| - 1] + [b[|b| - 1]] == b;
  }

  lemma ExpandedNext(rules: Rules, hits: seq<Doc>, last: Doc, infos: seq<Info>)
    ensures Expanded(rules, hits + [last], infos) ==
            Expanded(rules, hits, infos) + Variants(rules, last, Select(infos, last.resource))
  {
    assert (hits + [last])[..|hits|] == hits;
  }

  lemma JoinedNext(rules: Rules, a: seq<Doc>, b: seq<Doc>, last: Doc, infos: seq<Info>)
    requires Expanded(rules, a + b, infos) == Expanded(rules, a, infos) + Expanded(rules, b, infos)
    ensures Expanded(rules, a + (b + [last]), infos) == Expanded(rules, a, infos) + Expanded(rules, b + [last], infos)
  {
    ExpandedNext(rules, a + b, last, infos);
    ExpandedNext(rules, b, last, infos);
    Regroup(Expanded(rules, a, infos), Expanded(rules, b, infos), Variants(rules, last, Select(infos, last.resource)));
    Regroup(a, b, [last]);
  }

  lemma Regroup<T>(a: seq<T>, b: seq<T>, c: seq<T>)
    ensures (a + b) + c == a + (b + c)
  {}

  /** A listing is made of the listings of its parts: going on behind the first a documents shows what asking
      for a + b at once shows behind them. */
  lemma ListingsConcatenate(
    index: seq<Doc>, c: Caller, rules: Rules, infos: seq<Info>, from: nat, a: nat, b: nat)
    requires from + a + b <= WINDOW
    ensures var first, second := Listing(index, c, rules, infos, from, a), Listing(index, c, rules, infos, from + a, b);
      && first.Some? && second.Some?
      && Listing(index, c, rules, infos, from, a + b) == Some(first.value + second.value)
  {
    var hits := Chosen(index, c, PureIds(infos));
    var first, second := Page(hits, from, a).value, Page(hits, from + a, b).value;
    assert Page(hits, from, a + b).value == first + second;
    ExpandedJoined(rules, first, second, infos);
  }

  // ----- adding parameters -----

  /** The id with the parameters laid over its own. */
  function WithParameters(raw: string, extra: Params): string {
    JoinModifier(PureId(raw), Parameters(raw) + extra)
  }

  function Each(f: Doc -> Info, elements: seq<Doc>): seq<Info> {
    seq(|elements|, i requires 0 <= i < |elements| => f(elements[i]))
  }

  function TakeApart(extra: Params): Doc -> Info {
    (e: Doc) => InfoOf(WithParameters(e.resource, extra))
  }

  /** The ids of a result with the parameters added, taken apart. */
  function Again(elements: seq<Doc>, extra: Params): (infos: seq<Info>)
    ensures |infos| == |elements|
    ensures forall i | 0 <= i < |infos| :: infos[i] == InfoOf(WithParameters(elements[i].resource, extra))
  {
    Each(TakeApart(extra), elements)
  }

  ghost function Adding(index: seq<Doc>, c: Caller, rules: Rules, elements: seq<Doc>, extra: Params): Option<seq<Doc>> {
    if elements == [] then Some([]) else Listing(index, c, rules, Again(elements, extra), 0, |elements|)
  }

  method Overlay(parameter: Params, extra: Params) returns (result: Params)
    ensures result == parameter + extra
  {
    result := parameter;
    var keys := extra.Keys;
    while keys != {}
      invariant keys <= extra.Keys
      invariant result == parameter + (map k | k in extra && k !in keys :: extra[k])
    {
      var key :| key in keys;
      result := result[key := extra[key]];
      keys := keys - {key};
    }
    assert (map k | k in extra && k !in keys :: extra[k]) == extra;
  }

  method AddTo(id: string, extra: Params) returns (result: string)
    ensures result == WithParameters(id, extra)
  {
    var m := SplitModifier(id);
    var parameter := match m.modifiers case Some(p) => p case None => map[];
    parameter := Overlay(parameter, extra);
    result := JoinModifier(m.pureId, parameter);
  }

  method AddParsedModifier(index: seq<Doc>, c: Caller, rules: Rules, elements: seq<Doc>, extra: Params)
    returns (result: Option<seq<Doc>>)
    ensures result == Adding(index, c, rules, elements, extra)
  {
    if |elements| == 0 {
      return Some(elements);
    }
    var idList := AddToAll(elements, extra);
    AgainTakesApart(elements, extra);
    result := GetListFromIds(index, c, rules, idList, 0, |idList|);
  }

  /** The ids of the elements with the parameters added. */
  function IdsWith(elements: seq<Doc>, extra: Params): (ids: seq<string>)
    ensures |ids| == |elements|
  {
    if elements == [] then []
    else
      var k := |elements| - 1;
      IdsWith(elements[..k], extra) + [WithParameters(elements[k].resource, extra)]
  }

  /** The loop that builds the id list. */
  method AddToAll(elements: seq<Doc>, extra: Params) returns (idList: seq<string>)
    ensures idList == IdsWith(elements, extra)
  {
    idList := [];
    for i := 0 to |elements|
      invariant idList == IdsWith(elements[..i], extra)
    {
      IdsNext(elements, extra, i);
      var id := AddTo(elements[i].resource, extra);
      idList := idList + [id];
    }
    AllOf(elements);
  }

  lemma IdsNext(elements: seq<Doc>, extra: Params, i: nat)
    requires i < |elements|
    ensures IdsWith(elements[..i + 1], extra) == IdsWith(elements[..i], extra) + [WithParameters(elements[i].resource, extra)]
  {
    assert elements[..i + 1][..i] == elements[..i];
  }

  lemma AllOf(elements: seq<Doc>)
    ensures elements[..|elements|] == elements
  {}

  lemma {:induction false} AgainTakesApart(elements: seq<Doc>, extra: Params)
    ensures Infos(IdsWith(elements, extra)) == Again(elements, extra)
  {
    if elements != [] {
      var k := |elements| - 1;
      AgainTakesApart(elements[..k], extra);
      InfosNext(IdsWith(elements[..k], extra), WithParameters(elements[k].resource, extra));
      EachNext(TakeApart(extra), elements);
    }
  }

  lemma InfosNext(ids: seq<string>, id: string)
    ensures Infos(ids + [id]) == Infos(ids) + [InfoOf(id)]
  {}

  lemma EachNext(f: Doc -> Info, elements: seq<Doc>)
    requires elements != []
    ensures Each(f, elements) == Each(f, elements[..|elements| - 1]) + [f(elements[|elements| - 1])]
  {}

  // ----- adding twice -----

  /** An info whose id, and the id its variant shows, come out unchanged when the parameters are added. */
  ghost predicate Settled(x: Info, extra: Params) {
    && InfoOf(WithParameters(x.rawId, extra)) == x
    && (x.unmodified ==> InfoOf(WithParameters(x.pureId, extra)) == x)
  }

  lemma ParametersAreParsed(raw: Str)
    ensures Parsed(Parameters(raw)) && IsBytes(PureId(raw)) && SEPARATOR !in PureId(raw)
  {
    var p := Cut(raw, SEPARATOR);
    CutGivesBytes(raw, SEPARATOR);
    if p.found && ParseQuery(p.after).Some? {
      ParsedIsClean(map[], p.after);
    }
  }

  lemma JoinedInfo(pure: Str, q: StrParams)
    requires SEPARATOR !in pure
    ensures InfoOf(JoinModifier(pure, q)) == Info(JoinModifier(pure, q), pure, Cleaned(q) == map[], Cleaned(q))
  {
    JoinedSplits(pure, q);
  }

  lemma OverlayCleaned(p: Params, extra: Params)
    requires forall k | k in p :: p[k] != []
    ensures Cleaned(p + extra) + extra == p + extra
    ensures Cleaned(p + extra) == map[] ==> map[] + extra == p + extra
  {
    var q := p + extra;
    forall k | k in q && k !in extra ensures k in Cleaned(q) {
      assert q[k] == p[k];
    }
  }

  lemma PureStaysPure(pure: string)
    requires SEPARATOR !in pure
    ensures PureId(pure) == pure && Parameters(pure) == map[]
  {}

  /** Adding parameters to any id settles it. */
  lemma AddedIsSettled(raw: Str, extra: StrParams)
    ensures Settled(InfoOf(WithParameters(raw, extra)), extra)
    ensures InfoOf(WithParameters(raw, extra)).pureId == PureId(raw)
  {
    var pure, p := PureId(raw), Parameters(raw);
    ParametersAreParsed(raw);
    var q := p + extra;
    OverlayCleaned(p, extra);
    JoinedInfo(pure, q);
    assert WithParameters(JoinModifier(pure, q), extra) == JoinModifier(pure, q);
    PureStaysPure(pure);
  }

  /** Which parameters an id has afterwards: those added, and of its own those under other keys. */
  lemma AddedReplace(raw: Str, extra: StrParams, k: string)
    ensures var id := WithParameters(raw, extra);
      && PureId(id) == PureId(raw)
      && (k in extra && extra[k] != [] ==> k in Parameters(id) && Parameters(id)[k] == extra[k])
      && (k in extra && extra[k] == [] ==> k !in Parameters(id))
      && (k !in extra ==> (k in Parameters(id) <==> k in Parameters(raw)))
      && (k !in extra && k in Parameters(raw) ==> Parameters(id)[k] == Parameters(raw)[k])
  {
    AddedParameters(raw, extra);
    ParametersAreParsed(raw);
    OverlayAt(Parameters(raw), extra, k);
  }

  lemma AddedParameters(raw: Str, extra: StrParams)
    ensures var id := WithParameters(raw, extra);
      PureId(id) == PureId(raw) && Parameters(id) == Cleaned(Parameters(raw) + extra)
  {
    var pure, q := PureId(raw), Parameters(raw) + extra;
    ParametersAreParsed(raw);
    JoinedSplits(pure, q);
    SplitInTwo(JoinModifier(pure, q), pure, Cleaned(q));
  }

  lemma SplitInTwo(id: string, pure: string, parameters: Params)
    requires SplitModifier(id) == Modified(pure, Some(parameters))
    ensures PureId(id) == pure && Parameters(id) == parameters
  {}

  lemma OverlayAt(p: Params, extra: Params, k: string)
    requires forall own | own in p :: p[own] != []
    ensures var q := Cleaned(p + extra);
      && (k in extra && extra[k] != [] ==> k in q && q[k] == extra[k])
      && (k in extra && extra[k] == [] ==> k !in q)
      && (k !in extra ==> (k in q <==> k in p))
      && (k !in extra && k in p ==> q[k] == p[k])
  {}

  /** A variant of a settled info gives the info back. */
  lemma VariantGivesBack(rules: Rules, d: Doc, x: Info, extra: Params)
    requires x.pureId == d.resource
    ensures Settled(x, extra) ==> InfoOf(WithParameters(Variant(rules, d, x).resource, extra)) == x
  {
    if !x.unmodified {
      ModifyWritesFeatures(rules, |rules.configs|, d.(resource := x.rawId), x.modifier);
    }
  }

  /** Adding the parameters to a listing of settled infos asks for the same infos, group by group. */
  lemma {:induction false} AgainRegroups(rules: Rules, hits: seq<Doc>, infos: seq<Info>, extra: Params)
    requires forall x | x in infos :: Settled(x, extra)
    ensures Again(Expanded(rules, hits, infos), extra) == Regrouped(Resources(hits), infos)
  {
    if hits != [] {
      var front, last := hits[..|hits| - 1], hits[|hits| - 1];
      var chosen := Select(infos, last.resource);
      var variants := Variants(rules, last, chosen);
      AgainRegroups(rules, front, infos, extra);
      AgainAppends(Expanded(rules, front, infos), variants, extra);
      forall i | 0 <= i < |chosen| ensures Again(variants, extra)[i] == chosen[i] {
        assert chosen[i] in chosen;
        VariantGivesBack(rules, last, chosen[i], extra);
      }
      assert Again(variants, extra) == chosen;
      RegroupSnoc(hits, infos);
    }
  }

  lemma RegroupSnoc(hits: seq<Doc>, infos: seq<Info>)
    requires hits != []
    ensures Regrouped(Resources(hits), infos) ==
            Regrouped(Resources(hits[..|hits| - 1]), infos) + Select(infos, hits[|hits| - 1].resource)
  {
    assert Resources(hits)[..|hits| - 1] == Resources(hits[..|hits| - 1]);
  }

  lemma AgainAppends(a: seq<Doc>, b: seq<Doc>, extra: Params)
    ensures Again(a + b, extra) == Again(a, extra) + Again(b, extra)
  {
    EachAppends(TakeApart(extra), a, b);
  }

  lemma EachAppends(f: Doc -> Info, a: seq<Doc>, b: seq<Doc>)
    ensures Each(f, a + b) == Each(f, a) + Each(f, b)
  {}

  /** Listing the regrouped infos gives what listing the infos gave. */
  lemma {:induction false} ExpandRegrouped(rules: Rules, hits: seq<Doc>, keys: seq<string>, infos: seq<Info>)
    requires Distinct(keys) && forall d | d in hits :: d.resource in keys
    ensures Expanded(rules, hits, Regrouped(keys, infos)) == Expanded(rules, hits, infos)
  {
    if hits != [] {
      ExpandRegrouped(rules, hits[..|hits| - 1], keys, infos);
      SelectRegrouped(keys, infos, hits[|hits| - 1].resource);
    }
  }

  lemma WholePage(index: seq<Doc>, c: Caller, infos: seq<Info>)
    requires DistinctResources(index) && |infos| <= WINDOW
    ensures var hits := Chosen(index, c, PureIds(infos)); Page(hits, 0, |infos|) == Some(hits)
  {
    var hits := Chosen(index, c, PureIds(infos));
    ChosenDistinct(index, c, PureIds(infos));
    var pures := seq(|infos|, i requires 0 <= i < |infos| => infos[i].pureId);
    forall p | p in Resources(hits) ensures p in pures {
      var i :| 0 <= i < |hits| && Resources(hits)[i] == p;
      assert hits[i] in hits;
      var x :| x in infos && x.pureId == p;
      var j :| 0 <= j < |infos| && infos[j] == x;
      assert pures[j] == p;
    }
    DistinctFitsList(Resources(hits), pures);
    assert hits[0..] == hits;
  }

  /** Adding parameters that were added already changes nothing: the second pass asks for the ids
      of the first, group by group, and shows the same results. */
  lemma AddingTwiceIsAddingOnce(index: seq<Doc>, c: Caller, rules: Rules, elements: seq<Doc>, extra: StrParams)
    requires DistinctResources(index) && forall e | e in elements :: IsBytes(e.resource)
    requires Adding(index, c, rules, elements, extra).Some?
    ensures var once := Adding(index, c, rules, elements, extra).value;
      && Adding(index, c, rules, once, extra) == Some(once)
      && Again(once, extra) == Regrouped(Resources(Chosen(index, c, PureIds(Again(elements, extra)))), Again(elements, extra))
  {
    var infos := Again(elements, extra);
    var hits := Chosen(index, c, PureIds(infos));
    AgainIsSettled(elements, extra);
    if elements == [] {
      RegroupNothing(Resources(hits));
    } else {
      WholePage(index, c, infos);
      AgainRegroups(rules, hits, infos, extra);
      SecondPass(index, c, rules, infos, extra);
    }
  }

  lemma AgainIsSettled(elements: seq<Doc>, extra: StrParams)
    requires forall e | e in elements :: IsBytes(e.resource)
    ensures forall x | x in Again(elements, extra) :: Settled(x, extra)
  {
    forall x | x in Again(elements, extra) ensures Settled(x, extra) {
      var i :| 0 <= i < |elements| && Again(elements, extra)[i] == x;
      assert elements[i] in elements;
      AddedIsSettled(elements[i].resource, extra);
    }
  }

  lemma SecondPass(index: seq<Doc>, c: Caller, rules: Rules, infos: seq<Info>, extra: Params)
    requires DistinctResources(index) && |infos| <= WINDOW
    requires forall x | x in infos :: Settled(x, extra)
    ensures var once := Expanded(rules, Chosen(index, c, PureIds(infos)), infos);
      Adding(index, c, rules, once, extra) == Some(once)
  {
    var hits := Chosen(index, c, PureIds(infos));
    var keys, once := Resources(hits), Expanded(rules, hits, infos);
    var second := Again(once, extra);
    AgainRegroups(rules, hits, infos, extra);
    ChosenDistinct(index, c, PureIds(infos));
    RegroupShrinks(keys, infos);
    if once != [] {
      WholePage(index, c, second);
      SameNames(index, c, infos);
      forall d | d in hits ensures d.resource in keys { ResourcesMember(hits, d.resource); }
      ExpandRegrouped(rules, hits, keys, infos);
    }
  }

  /** The regrouped infos name the same hits. */
  lemma SameNames(index: seq<Doc>, c: Caller, infos: seq<Info>)
    ensures var hits := Chosen(index, c, PureIds(infos));
      Chosen(index, c, PureIds(Regrouped(Resources(hits), infos))) == hits
  {
    var hits := Chosen(index, c, PureIds(infos));
    var second := PureIds(Regrouped(Resources(hits), infos));
    forall d | d in index && Readable(c, d) ensures d.resource in second <==> d.resource in PureIds(infos) {
      if d.resource in PureIds(infos) {
        assert d in hits;
        ResourcesMember(hits, d.resource);
        var x :| x in infos && x.pureId == d.resource;
        assert x in Regrouped(Resources(hits), infos);
      }
    }
    ChosenDepends(index, c, second, PureIds(infos));
  }

  /** Regrouping keeps the number of infos exactly when every pure id is a key. */
  lemma {:induction false} RegroupShrinks(keys: seq<string>, infos: seq<Info>)
    requires Distinct(keys)
    ensures |Regrouped(keys, infos)| <= |infos|
    ensures |Regrouped(keys, infos)| == |infos| <==> forall x | x in infos :: x.pureId in keys
  {
    if infos == [] {
      RegroupNothing(keys);
    } else {
      var front, last := infos[..|infos| - 1], infos[|infos| - 1];
      assert infos == front + [last];
      RegroupShrinks(keys, front);
      RegroupOneMore(keys, front, last);
      assert |multiset(Regrouped(keys, infos))| == |Regrouped(keys, infos)|;
      assert |multiset(Regrouped(keys, front))| == |Regrouped(keys, front)|;
    }
  }

  /** Adding keeps one result for each element exactly when every element's document is readable. */
  lemma OneResultPerElement(index: seq<Doc>, c: Caller, rules: Rules, elements: seq<Doc>, extra: StrParams)
    requires DistinctResources(index) && forall e | e in elements :: IsBytes(e.resource)
    requires 0 < |elements| <= WINDOW
    ensures var r := Adding(index, c, rules, elements, extra);
      && r.Some?
      && (|r.value| == |elements| <==> forall e | e in elements :: ReadableUnder(index, c, PureId(e.resource)))
  {
    AddingSize(index, c, rules, elements, extra);
    AgainKeepsPureIds(elements, extra);
    AllNamed(index, c, elements, Again(elements, extra));
  }

  lemma AddingSize(index: seq<Doc>, c: Caller, rules: Rules, elements: seq<Doc>, extra: StrParams)
    requires DistinctResources(index) && forall e | e in elements :: IsBytes(e.resource)
    requires 0 < |elements| <= WINDOW
    ensures var r, infos := Adding(index, c, rules, elements, extra), Again(elements, extra);
      && r.Some?
      && (|r.value| == |elements| <==> forall x | x in infos :: x.pureId in Resources(Chosen(index, c, PureIds(infos))))
  {
    var infos := Again(elements, extra);
    var hits := Chosen(index, c, PureIds(infos));
    WholePage(index, c, infos);
    AgainIsSettled(elements, extra);
    AgainRegroups(rules, hits, infos, extra);
    ChosenDistinct(index, c, PureIds(infos));
    RegroupShrinks(Resources(hits), infos);
  }

  lemma AllNamed(index: seq<Doc>, c: Caller, elements: seq<Doc>, infos: seq<Info>)
    requires |infos| == |elements|
    requires forall i | 0 <= i < |elements| :: infos[i].pureId == PureId(elements[i].resource)
    ensures (forall x | x in infos :: x.pureId in Resources(Chosen(index, c, PureIds(infos)))) <==>
            forall e | e in elements :: ReadableUnder(index, c, PureId(e.resource))
  {
    var named := Resources(Chosen(index, c, PureIds(infos)));
    forall x | x in infos ensures x.pureId in named <==> ReadableUnder(index, c, x.pureId) {
      ResourcesMember(Chosen(index, c, PureIds(infos)), x.pureId);
    }
    if forall x | x in infos :: x.pureId in named {
      forall e | e in elements ensures ReadableUnder(index, c, PureId(e.resource)) {
        var i :| 0 <= i < |elements| && elements[i] == e;
        assert infos[i] in infos;
      }
    } else {
      var x :| x in infos && x.pureId !in named;
      var i :| 0 <= i < |infos| && infos[i] == x;
      assert elements[i] in elements;
    }
  }

  lemma AgainKeepsPureIds(elements: seq<Doc>, extra: StrParams)
    requires forall e | e in elements :: IsBytes(e.resource)
    ensures forall i | 0 <= i < |elements| :: Again(elements, extra)[i].pureId == PureId(elements[i].resource)
  {
    forall i | 0 <= i < |elements| ensures Again(elements, extra)[i].pureId == PureId(elements[i].resource) {
      assert elements[i] in elements;
      AddedIsSettled(elements[i].resource, extra);
    }
  }

  // ----- the query for ids -----

  /** What a query shows that was asked to add parameters to a listing: they are added once.  An
      error of the listing or of the first addition does not reach the caller: it leaves no
      elements, and the second addition answers those with success. */
  ghost function Shown(index: seq<Doc>, c: Caller, rules: Rules, listed: Option<seq<Doc>>, extra: Params): Option<seq<Doc>> {
    if extra == map[] then listed
    else if listed.None? then Some([])
    else
      match Adding(index, c, rules, listed.value, extra)
      case Some(r) => Some(r)
      case None => Some([])
  }

  /** The caller sees an error exactly when the listing failed and no parameters were asked for.  Adding
      fails exactly for more elements than the window; like a failed listing, that is shown as an empty
      result. */
  lemma ErrorsExactly(index: seq<Doc>, c: Caller, rules: Rules, listed: Option<seq<Doc>>, extra: Params)
    ensures Shown(index, c, rules, listed, extra).None? <==> extra == map[] && listed.None?
    ensures listed.Some? ==> (Adding(index, c, rules, listed.value, extra).None? <==> |listed.value| > WINDOW)
    ensures extra != map[] && (listed.None? || |listed.value| > WINDOW) ==>
            Shown(index, c, rules, listed, extra) == Some([])
    ensures extra != map[] && listed.Some? && |listed.value| <= WINDOW ==>
            Shown(index, c, rules, listed, extra) == Adding(index, c, rules, listed.value, extra)
  {
    if listed.Some? {
      var infos := Again(listed.value, extra);
      assert Listing(index, c, rules, infos, 0, |listed.value|).None? <==> |listed.value| > WINDOW;
    }
  }

  /** The two additions: within the list function and once more in Query. */
  method AddTwice(index: seq<Doc>, c: Caller, rules: Rules, listed: Option<seq<Doc>>, extra: StrParams)
    returns (result: Option<seq<Doc>>)
    requires DistinctResources(index)
    requires listed.Some? ==> forall e | e in listed.value :: IsBytes(e.resource)
    ensures result == Shown(index, c, rules, listed, extra)
  {
    result := listed;
    if |extra| > 0 {
      var elements := match listed case Some(r) => r case None => [];
      if listed.Some? {
        var added := AddParsedModifier(index, c, rules, elements, extra);
        if added.Some? {
          AddingTwiceIsAddingOnce(index, c, rules, elements, extra);
        }
        elements := match added case Some(r) => r case None => [];
      }
      result := AddParsedModifier(index, c, rules, elements, extra);
    }
  }

  /** The find part of Query without a text or a selection: a page of the readable documents. */
  method QueryFind(index: seq<Doc>, c: Caller, rules: Rules, from: int, limit: int, extra: StrParams)
    returns (result: Option<seq<Doc>>)
    requires DistinctResources(index) && forall d | d in index :: IsBytes(d.resource)
    ensures var readable := Found(index, Bool(RightsFilter(c.rights, c.user, c.groups), [], []));
      result == Shown(index, c, rules, Page(readable, from, limit), extra)
  {
    var rights := GetRightsQuery(c.rights, c.user, c.groups);
    var found := Found(index, Bool(rights, [], []));
    var listed := Page(found, from, limit);
    if listed.Some? {
      PageWithin(found, from, limit);
    }
    result := AddTwice(index, c, rules, listed, extra);
  }

  /** The list_ids part of Query. */
  method QueryIds(index: seq<Doc>, c: Caller, rules: Rules, ids: seq<string>, from: int, limit: int, extra: StrParams)
    returns (result: Option<seq<Doc>>)
    requires DistinctResources(index)
    requires (forall id | id in ids :: IsBytes(id)) && forall d | d in index :: IsBytes(d.resource)
    ensures result == Shown(index, c, rules, Listing(index, c, rules, Infos(ids), from, limit), extra)
  {
    var listed := GetListFromIds(index, c, rules, ids, from, limit);
    ListedAreBytes(index, c, rules, ids, from, limit);
    result := AddTwice(index, c, rules, listed, extra);
  }

  lemma ListedAreBytes(index: seq<Doc>, c: Caller, rules: Rules, ids: seq<string>, from: int, limit: int)
    requires (forall id | id in ids :: IsBytes(id)) && forall d | d in index :: IsBytes(d.resource)
    ensures var listed := Listing(index, c, rules, Infos(ids), from, limit);
      listed.Some? ==> forall e | e in listed.value :: IsBytes(e.resource)
  {
    var all := Chosen(index, c, PureIds(Infos(ids)));
    InfosAreBytes(ids);
    if Page(all, from, limit).Some? {
      PageWithin(all, from, limit);
      ExpandedAreBytes(rules, Page(all, from, limit).value, Infos(ids));
    }
  }

  lemma PageWithin<T>(all: seq<T>, from: int, limit: int)
    requires Page(all, from, limit).Some?
    ensures forall x | x in Page(all, from, limit).value :: x in all
  {}

  lemma InfosAreBytes(ids: seq<string>)
    requires forall id | id in ids :: IsBytes(id)
    ensures forall x | x in Infos(ids) :: IsBytes(x.rawId)
  {
    forall i | 0 <= i < |ids| ensures IsBytes(Infos(ids)[i].rawId) {
      assert ids[i] in ids;
    }
  }

  lemma {:induction false} ExpandedAreBytes(rules: Rules, hits: seq<Doc>, infos: seq<Info>)
    requires (forall d | d in hits :: IsBytes(d.resource)) && forall x | x in infos :: IsBytes(x.rawId)
    ensures forall e | e in Expanded(rules, hits, infos) :: IsBytes(e.resource)
  {
    if hits != [] {
      var last := hits[|hits| - 1];
      ExpandedAreBytes(rules, hits[..|hits| - 1], infos);
      var chosen := Select(infos, last.resource);
      forall i | 0 <= i < |chosen| ensures IsBytes(Variant(rules, last, chosen[i]).resource) {
        assert chosen[i] in chosen;
        ModifyWritesFeatures(rules, |rules.configs|, last.(resource := chosen[i].rawId), chosen[i].modifier);
      }
    }
  }
}
