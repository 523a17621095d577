/** The references of a result template and the cache they share (lib/query/modifier/reference.go).

    The store and the path expressions are unknown functions: a lookup finds an element or fails,
    and a path yields a value, possibly null, or an error. */
module References {
  import opened GoStrings
  import opened Model

  datatype Reference = Reference(resource: string, resourceId: string, path: string, default: Json)

  datatype Backend = Backend(
    lookup: (string, string) -> Option<Fields>,
    first: (Fields, string) -> Option<Json>)

  /** The cached elements by kind and id. */
  type Elements = map<string, map<string, Fields>>

  predicate Cached(cache: Elements, kind: string, id: string) {
    kind in cache && id in cache[kind]
  }

  /** Every cached element is the store's. */
  ghost predicate Agrees(b: Backend, cache: Elements) {
    forall kind, id | Cached(cache, kind, id) :: b.lookup(kind, id) == Some(cache[kind][id])
  }

  // ----- what loading means -----

  /** The value of a reference for an element, or its default when there is no element or no value. */
  function Pick(b: Backend, element: Option<Fields>, r: Reference): Json {
    match element
    case None => r.default
    case Some(e) =>
      match b.first(e, r.path)
      case None => r.default
      case Some(v) => if v != Null then v else r.default
  }

  /** What the references are worth on the store, with no cache in sight. */
  function Values(b: Backend, references: map<string, Reference>): map<string, Json> {
    map name | name in references ::
      Pick(b, b.lookup(references[name].resource, references[name].resourceId), references[name])
  }

  /** The value a reference has on the store: what its path yields for the element that is found, and the
      default when no element is found or the path errs or yields null. */
  ghost predicate Worth(b: Backend, r: Reference, value: Json) {
    || (exists e, v | b.lookup(r.resource, r.resourceId) == Some(e) && b.first(e, r.path) == Some(v) && v != Null ::
          value == v)
    || (b.lookup(r.resource, r.resourceId).None? && value == r.default)
    || (exists e | b.lookup(r.resource, r.resourceId) == Some(e) ::
          (b.first(e, r.path).None? || b.first(e, r.path) == Some(Null)) && value == r.default)
  }

  /** Every name has the value its reference is worth, and no other value would be. */
  lemma ValuesAreWorth(b: Backend, references: map<string, Reference>, name: string, value: Json)
    requires name in references
    ensures Values(b, references).Keys == references.Keys
    ensures Worth(b, references[name], value) <==> value == Values(b, references)[name]
  {
    var r := references[name];
    if b.lookup(r.resource, r.resourceId).Some? {
      var e := b.lookup(r.resource, r.resourceId).value;
      assert b.lookup(r.resource, r.resourceId) == Some(e);
      assert b.first(e, r.path).Some? ==> b.first(e, r.path) == Some(b.first(e, r.path).value);
    }
  }

  // ----- the loop -----

  function Element(b: Backend, cache: Elements, r: Reference): Option<Fields> {
    if Cached(cache, r.resource, r.resourceId) then Some(cache[r.resource][r.resourceId])
    else b.lookup(r.resource, r.resourceId)
  }

  function Remember(b: Backend, cache: Elements, r: Reference): Elements {
    var known := if r.resource in cache then cache else cache[r.resource := map[]];
    if r.resourceId in known[r.resource] then known
    else
      match b.lookup(r.resource, r.resourceId)
      case None => known
      case Some(e) => known[r.resource := known[r.resource][r.resourceId := e]]
  }

  /** The cache after loading the references in the given order. */
  function CacheAfter(b: Backend, cache: Elements, references: map<string, Reference>, order: seq<string>): Elements
    requires forall n | n in order :: n in references
  {
    if order == [] then cache
    else
      var k := |order| - 1;
      Remember(b, CacheAfter(b, cache, references, order[..k]), references[order[k]])
  }

  /** The values the loop finds, each with the cache as it stands when its turn comes. */
  function Loaded(b: Backend, cache: Elements, references: map<string, Reference>, order: seq<string>): map<string, Json>
    requires forall n | n in order :: n in references
  {
    if order == [] then map[]
    else
      var k := |order| - 1;
      var r := references[order[k]];
      Loaded(b, cache, references, order[..k])
        [order[k] := Pick(b, Element(b, CacheAfter(b, cache, references, order[..k]), r), r)]
  }

  class Cache {
    var elements: Elements

    constructor ()
      ensures elements == map[]
    {
      elements := map[];
    }
  }

  /** One pass of the loop body: the value of one reference. */
  method LoadReference(b: Backend, cache: Cache, r: Reference) returns (value: Json)
    modifies cache
    ensures value == Pick(b, Element(b, old(cache.elements), r), r)
    ensures cache.elements == Remember(b, old(cache.elements), r)
  {
    var resourceElement: Fields := map[];
    var usedCache := false;
    if r.resource !in cache.elements {
      cache.elements := cache.elements[r.resource := map[]];
    }
    if r.resourceId in cache.elements[r.resource] {
      resourceElement := cache.elements[r.resource][r.resourceId];
      usedCache := true;
    }
    if !usedCache {
      var found := b.lookup(r.resource, r.resourceId);
      if found.None? {
        return r.default;
      }
      resourceElement := found.value;
      cache.elements := cache.elements[r.resource := cache.elements[r.resource][r.resourceId := resourceElement]];
    }
    var picked := b.first(resourceElement, r.path);
    if picked.None? {
      return r.default;
    }
    if picked.value != Null {
      value := picked.value;
    } else {
      value := r.default;
    }
  }

  method LoadReferences(b: Backend, references: map<string, Reference>, shared: Cache?)
    returns (result: map<string, Json>, ghost order: seq<string>)
    modifies if shared == null then {} else {shared}
    ensures Enumerates(order, references.Keys)
    ensures result == Loaded(b, if shared == null then map[] else old(shared.elements), references, order)
    ensures shared != null ==> shared.elements == CacheAfter(b, old(shared.elements), references, order)
  {
    var cache: Cache;
    if shared == null {
      cache := new Cache();
    } else {
      cache := shared;
    }
    result, order := LoadAll(b, references, cache);
  }

  /** The loop over the references, in whatever order the map yields them. */
  method LoadAll(b: Backend, references: map<string, Reference>, cache: Cache)
    returns (result: map<string, Json>, ghost order: seq<string>)
    modifies cache
    ensures Enumerates(order, references.Keys)
    ensures result == Loaded(b, old(cache.elements), references, order)
    ensures cache.elements == CacheAfter(b, old(cache.elements), references, order)
  {
    ghost var before := cache.elements;
    result, order := map[], [];
    var names := references.Keys;
    while names != {}
      invariant names <= references.Keys
      invariant Enumerates(order, references.Keys - names)
      invariant cache.elements == CacheAfter(b, before, references, order)
      invariant result == Loaded(b, before, references, order)
      decreases |names|
    {
      var name :| name in names;
      var value := LoadReference(b, cache, references[name]);
      LoadNext(b, before, references, order, name);
      EnumerateNext(order, references.Keys - names, name);
      assert references.Keys - names + {name} == references.Keys - (names - {name});
      result := result[name := value];
      names := names - {name};
      order := order + [name];
    }
    assert references.Keys - names == references.Keys;
  }

  lemma EnumerateNext(order: seq<string>, keys: set<string>, name: string)
    requires Enumerates(order, keys) && name !in keys
    ensures Enumerates(order + [name], keys + {name})
  {}

  lemma LoadNext(b: Backend, cache: Elements, references: map<string, Reference>, order: seq<string>, name: string)
    requires name in references && forall n | n in order :: n in references
    ensures var now := CacheAfter(b, cache, references, order);
      && CacheAfter(b, cache, references, order + [name]) == Remember(b, now, references[name])
      && Loaded(b, cache, references, order + [name]) ==
         Loaded(b, cache, references, order)[name := Pick(b, Element(b, now, references[name]), references[name])]
  {
    assert (order + [name])[..|order|] == order;
  }

  // ----- the cache cannot be seen -----

  lemma RememberAgrees(b: Backend, cache: Elements, r: Reference)
    requires Agrees(b, cache)
    ensures Agrees(b, Remember(b, cache, r))
  {
    var after := Remember(b, cache, r);
    forall kind, id | Cached(after, kind, id) ensures b.lookup(kind, id) == Some(after[kind][id]) {
      if Cached(cache, kind, id) { assert b.lookup(kind, id) == Some(cache[kind][id]); }
    }
  }

  /** With a cache that agrees with the store the values are those of the store, whatever order the
      references come in, and the cache still agrees. */
  lemma {:induction false} CacheIsTransparent(b: Backend, cache: Elements, references: map<string, Reference>, order: seq<string>)
    requires Agrees(b, cache) && forall n | n in order :: n in references
    ensures Agrees(b, CacheAfter(b, cache, references, order))
    ensures Loaded(b, cache, references, order) == map name | name in order :: Values(b, references)[name]
  {
    if order != [] {
      var k := |order| - 1;
      var front := order[..k];
      assert order == front + [order[k]];
      CacheIsTransparent(b, cache, references, front);
      var now := CacheAfter(b, cache, references, front);
      RememberAgrees(b, now, references[order[k]]);
      var r := references[order[k]];
      assert Element(b, now, r) == b.lookup(r.resource, r.resourceId);
    }
  }

  /** The same values as with an empty cache, or with none. */
  lemma SameAsWithoutCache(
    b: Backend, cache: Elements, references: map<string, Reference>, order: seq<string>, other: seq<string>)
    requires Agrees(b, cache) && Enumerates(order, references.Keys) && Enumerates(other, references.Keys)
    ensures Loaded(b, cache, references, order) == Values(b, references) == Loaded(b, map[], references, other)
    ensures forall name | name in references ::
      name in Loaded(b, cache, references, order) && Worth(b, references[name], Loaded(b, cache, references, order)[name])
  {
    forall name | name in references ensures Worth(b, references[name], Values(b, references)[name]) {
      ValuesAreWorth(b, references, name, Values(b, references)[name]);
    }
    CacheIsTransparent(b, cache, references, order);
    CacheIsTransparent(b, map[], references, other);
    AllNames(Values(b, references), order);
    AllNames(Values(b, references), other);
  }

  lemma AllNames(values: map<string, Json>, order: seq<string>)
    requires Enumerates(order, values.Keys)
    ensures (map name | name in order :: values[name]) == values
  {}

  /** What is cached afterwards was cached before or is a referenced element whose lookup succeeded:
      a failed lookup is never cached. */
  lemma {:induction false} OnlyFoundIsCached(
    b: Backend, cache: Elements, references: map<string, Reference>, order: seq<string>, kind: string, id: string)
    requires forall n | n in order :: n in references
    ensures Cached(CacheAfter(b, cache, references, order), kind, id) <==>
            || Cached(cache, kind, id)
            || (b.lookup(kind, id).Some? && Refers(references, order, kind, id))
  {
    if order != [] {
      var k := |order| - 1;
      OnlyFoundIsCached(b, cache, references, order[..k], kind, id);
      ReferNext(references, order[..k], order[k], kind, id);
      assert order == order[..k] + [order[k]];
    }
  }

  ghost predicate Refers(references: map<string, Reference>, order: seq<string>, kind: string, id: string)
    requires forall n | n in order :: n in references
  {
    exists n | n in order :: references[n].resource == kind && references[n].resourceId == id
  }

  lemma ReferNext(references: map<string, Reference>, order: seq<string>, name: string, kind: string, id: string)
    requires name in references && forall n | n in order :: n in references
    ensures Refers(references, order + [name], kind, id) <==>
            Refers(references, order, kind, id) || (references[name].resource == kind && references[name].resourceId == id)
  {
    assert name in order + [name];
  }

  /** What is cached is not looked up: two stores that differ only in elements that are cached already give
      the same values and leave the same cache. */
  lemma {:induction false} CachedIsNotLookedUp(
    b: Backend, c: Backend, cache: Elements, references: map<string, Reference>, order: seq<string>)
    requires b.first == c.first && forall n | n in order :: n in references
    requires forall kind, id | !Cached(cache, kind, id) :: b.lookup(kind, id) == c.lookup(kind, id)
    ensures CacheAfter(b, cache, references, order) == CacheAfter(c, cache, references, order)
    ensures Loaded(b, cache, references, order) == Loaded(c, cache, references, order)
  {
    if order != [] {
      var k := |order| - 1;
      var r := references[order[k]];
      CachedIsNotLookedUp(b, c, cache, references, order[..k]);
      OnlyFoundIsCached(b, cache, references, order[..k], r.resource, r.resourceId);
    }
  }

  // ----- any sequence of calls -----

  datatype Call = Call(references: map<string, Reference>, order: seq<string>)

  ghost predicate Possible(c: Call) {
    Enumerates(c.order, c.references.Keys)
  }

  ghost function CacheAfterCalls(b: Backend, cache: Elements, calls: seq<Call>): Elements
    requires forall i | 0 <= i < |calls| :: Possible(calls[i])
  {
    if calls == [] then cache
    else
      var k := |calls| - 1;
      assert Possible(calls[k]);
      CacheAfter(b, CacheAfterCalls(b, cache, calls[..k]), calls[k].references, calls[k].order)
  }

  ghost predicate CallRefers(c: Call, kind: string, id: string) {
    (forall n | n in c.order :: n in c.references) && Refers(c.references, c.order, kind, id)
  }

  /** The cache is carried from call to call: what any of them looked up and found is cached afterwards. */
  lemma {:induction false} CacheIsCarried(b: Backend, cache: Elements, calls: seq<Call>, kind: string, id: string)
    requires forall i | 0 <= i < |calls| :: Possible(calls[i])
    ensures Cached(CacheAfterCalls(b, cache, calls), kind, id) <==>
            || Cached(cache, kind, id)
            || (b.lookup(kind, id).Some? && exists i :: 0 <= i < |calls| && CallRefers(calls[i], kind, id))
  {
    if calls != [] {
      var k := |calls| - 1;
      assert Possible(calls[k]);
      CacheIsCarried(b, cache, calls[..k], kind, id);
      OnlyFoundIsCached(b, CacheAfterCalls(b, cache, calls[..k]), calls[k].references, calls[k].order, kind, id);
      if i :| 0 <= i < |calls| && CallRefers(calls[i], kind, id) {
        assert i < k ==> CallRefers(calls[..k][i], kind, id);
      }
      if i :| 0 <= i < k && CallRefers(calls[..k][i], kind, id) {
        assert CallRefers(calls[i], kind, id);
      }
    }
  }

  /** Over any sequence of calls on an unchanged store that share a cache, every call returns what the
      store alone gives. */
  lemma {:induction false} EveryCallIsTransparent(b: Backend, cache: Elements, calls: seq<Call>, i: nat)
    requires Agrees(b, cache) && i < |calls| && forall j | 0 <= j < |calls| :: Possible(calls[j])
    ensures Possible(calls[i]) && Loaded(b, CacheAfterCalls(b, cache, calls[..i]), calls[i].references, calls[i].order)
         == Values(b, calls[i].references)
  {
    CallsAgree(b, cache, calls[..i]);
    SameAsWithoutCache(b, CacheAfterCalls(b, cache, calls[..i]), calls[i].references, calls[i].order, calls[i].order);
  }

  lemma {:induction false} CallsAgree(b: Backend, cache: Elements, calls: seq<Call>)
    requires Agrees(b, cache) && forall i | 0 <= i < |calls| :: Possible(calls[i])
    ensures Agrees(b, CacheAfterCalls(b, cache, calls))
  {
    if calls != [] {
      var k := |calls| - 1;
      CallsAgree(b, cache, calls[..k]);
      CacheIsTransparent(b, CacheAfterCalls(b, cache, calls[..k]), calls[k].references, calls[k].order);
    }
  }
}
