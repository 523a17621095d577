/** The sort order and the paging of list requests (withPaginationAndBody in lib/query/query.go).

    What a document sorts by under a feature or annotation field is left to OpenSearch: it may
    depend on the direction (the least or the greatest of several values) and may be missing.
    Missing values come last in both directions. */
module Paging {
  import opened GoStrings
  import opened Model
  import opened Searching
  import opened ListOptions

  datatype SortKey = SortKey(field: string, desc: bool)

  /** What the request to OpenSearch says besides the query. */
  datatype Request = Request(size: int, from: Option<int>, searchAfter: Option<seq<string>>, sort: seq<SortKey>)

  function SortField(sortBy: string): string {
    if sortBy == "" || sortBy == "id" then "resource"
    else if sortBy == "resource" || HasPrefix(sortBy, "features.") || HasPrefix(sortBy, "annotations.") then sortBy
    else "features." + sortBy
  }

  /** The field always addresses the resource id, a feature or an annotation: the asked one, however
      much of its address was given. */
  lemma SortFieldAddressed(sortBy: string)
    ensures SortField(sortBy) == "resource" <==> sortBy == "" || sortBy == "id" || sortBy == "resource"
    ensures SortField(sortBy) != "resource" ==>
      && (HasPrefix(SortField(sortBy), "features.") || HasPrefix(SortField(sortBy), "annotations."))
      && HasSuffix(SortField(sortBy), sortBy)
    ensures SortField(SortField(sortBy)) == SortField(sortBy)
  {
    var s := SortField(sortBy);
    if s == "features." + sortBy {
      assert s[..|"features."|] == "features." && s[|s| - |sortBy|..] == sortBy;
      assert s[8] == '.';
    }
    assert HasPrefix(sortBy, "features.") ==> sortBy[8] == '.';
    assert HasPrefix(sortBy, "annotations.") ==> |sortBy| > 8;
  }

  /** The asked field, then the resource id in the same direction unless it is the asked field. */
  function SortKeys(sortBy: string, desc: bool): seq<SortKey> {
    var s := SortField(sortBy);
    if s == "resource" then [SortKey(s, desc)] else [SortKey(s, desc), SortKey("resource", desc)]
  }

  function RequestOf(q: Commons): Request {
    Request(q.limit,
            if q.after.None? then Some(q.offset) else None,
            match q.after case Some(id) => Some([id]) case None => None,
            SortKeys(q.sortBy, q.sortDesc))
  }

  /** The size is the limit.  A request without `after` sends the offset, one with it sends the id. */
  lemma LimitAndOffsetSent(q: Commons)
    ensures RequestOf(q).size == q.limit
    ensures RequestOf(q).from == (if q.after.None? then Some(q.offset) else None)
    ensures RequestOf(q).searchAfter == (if q.after.Some? then Some([q.after.value]) else None)
  {}

  method WithPagination(q: Commons) returns (r: Request)
    ensures r == RequestOf(q)
    ensures r.size == q.limit && (q.after.None? ==> r.from == Some(q.offset) && r.searchAfter == None)
    ensures q.after.Some? ==> r.from == None && r.searchAfter == Some([q.after.value])
  {
    var defaultSort := "resource";
    var s := defaultSort;
    if q.sortBy != "" {
      s := q.sortBy;
    }
    if s == "id" {
      s := defaultSort;
    }
    if s != defaultSort && !HasPrefix(s, "features.") && !HasPrefix(s, "annotations.") {
      s := "features." + s;
    }
    var from, searchAfter: Option<seq<string>> := None, None;
    if q.after.None? {
      from := Some(q.offset);
    } else {
      searchAfter := Some([q.after.value]);
    }
    var sort;
    if q.sortDesc {
      sort := [SortKey(s, true)];
      if s != defaultSort {
        sort := [SortKey(s, true), SortKey("resource", true)];
      }
    } else {
      sort := [SortKey(s, false)];
      if s != defaultSort {
        sort := [SortKey(s, false), SortKey("resource", false)];
      }
    }
    r := Request(q.limit, from, searchAfter, sort);
  }

  /** A checked request with `after` sorts by the resource id alone, so that the one-element
      search_after fits its one sort key, and it sends no offset. */
  lemma AfterHasOneKey(q: Commons)
    requires Validate(q) == None && q.after.Some?
    ensures RequestOf(q).sort == [SortKey("resource", q.sortDesc)]
    ensures RequestOf(q).searchAfter.Some? && |RequestOf(q).searchAfter.value| == |RequestOf(q).sort|
    ensures RequestOf(q).from == None && RequestOf(q).searchAfter.value[0] != ""
  {}

  // ----- the order -----

  datatype SortValue = Word(s: string) | Num(n: real)

  predicate Less(a: SortValue, b: SortValue) {
    match (a, b)
    case (Word(s), Word(t)) => Below(s, t)
    case (Num(m), Num(n)) => m < n
    case (Num(_), Word(_)) => true
    case (Word(_), Num(_)) => false
  }

  /** How OpenSearch reads the value to sort by. */
  type View = (Doc, SortKey) -> Option<SortValue>

  function ValueOf(view: View, d: Doc, key: SortKey): Option<SortValue> {
    if key.field == "resource" then Some(Word(d.resource)) else view(d, key)
  }

  predicate Precedes(a: Option<SortValue>, b: Option<SortValue>, desc: bool) {
    a.Some? && (b.None? || (if desc then Less(b.value, a.value) else Less(a.value, b.value)))
  }

  /** The first key that tells the documents apart decides. */
  predicate Before(view: View, keys: seq<SortKey>, a: Doc, b: Doc) {
    keys != [] &&
    var x, y := ValueOf(view, a, keys[0]), ValueOf(view, b, keys[0]);
    Precedes(x, y, keys[0].desc) || (x == y && Before(view, keys[1..], a, b))
  }

  lemma LessIsTotal(a: SortValue, b: SortValue)
    ensures !(Less(a, b) && Less(b, a)) && !Less(a, a)
    ensures a != b ==> Less(a, b) || Less(b, a)
  {
    if a.Word? { BelowTotal(a.s, if b.Word? then b.s else a.s); }
  }

  lemma LessIsTransitive(a: SortValue, b: SortValue, c: SortValue)
    requires Less(a, b) && Less(b, c)
    ensures Less(a, c)
  {
    if a.Word? && b.Word? && c.Word? { BelowTransitive(a.s, b.s, c.s); }
  }

  lemma PrecedesIsTotal(a: Option<SortValue>, b: Option<SortValue>, desc: bool)
    ensures !(Precedes(a, b, desc) && Precedes(b, a, desc)) && !Precedes(a, a, desc)
    ensures a != b ==> Precedes(a, b, desc) || Precedes(b, a, desc)
  {
    if a.Some? { LessIsTotal(a.value, if b.Some? then b.value else a.value); }
  }

  lemma PrecedesIsTransitive(a: Option<SortValue>, b: Option<SortValue>, c: Option<SortValue>, desc: bool)
    requires Precedes(a, b, desc) && Precedes(b, c, desc)
    ensures Precedes(a, c, desc)
  {
    if c.Some? {
      if desc { LessIsTransitive(c.value, b.value, a.value); } else { LessIsTransitive(a.value, b.value, c.value); }
    }
  }

  lemma {:induction false} BeforeIsStrict(view: View, keys: seq<SortKey>, a: Doc, b: Doc)
    ensures !(Before(view, keys, a, b) && Before(view, keys, b, a)) && !Before(view, keys, a, a)
    decreases |keys|
  {
    if keys != [] {
      PrecedesIsTotal(ValueOf(view, a, keys[0]), ValueOf(view, b, keys[0]), keys[0].desc);
      BeforeIsStrict(view, keys[1..], a, b);
    }
  }

  lemma {:induction false} BeforeIsTransitive(view: View, keys: seq<SortKey>, a: Doc, b: Doc, c: Doc)
    requires Before(view, keys, a, b) && Before(view, keys, b, c)
    ensures Before(view, keys, a, c)
    decreases |keys|
  {
    var x, y, z := ValueOf(view, a, keys[0]), ValueOf(view, b, keys[0]), ValueOf(view, c, keys[0]);
    if Precedes(x, y, keys[0].desc) && Precedes(y, z, keys[0].desc) {
      PrecedesIsTransitive(x, y, z, keys[0].desc);
    } else if x == y && y == z {
      BeforeIsTransitive(view, keys[1..], a, b, c);
    }
  }

  /** The keys end in one that tells all documents apart. */
  lemma {:induction false} BeforeIsTotal(view: View, keys: seq<SortKey>, a: Doc, b: Doc)
    requires keys != [] && keys[|keys| - 1].field == "resource" && a.resource != b.resource
    ensures Before(view, keys, a, b) || Before(view, keys, b, a)
    decreases |keys|
  {
    PrecedesIsTotal(ValueOf(view, a, keys[0]), ValueOf(view, b, keys[0]), keys[0].desc);
    if |keys| > 1 {
      BeforeIsTotal(view, keys[1..], a, b);
    }
  }

  /** The sort of any request is a strict total order on documents with distinct resource ids. */
  lemma SortIsStrictTotalOrder(view: View, q: Commons, a: Doc, b: Doc, c: Doc)
    ensures var keys := RequestOf(q).sort;
      && !Before(view, keys, a, a)
      && !(Before(view, keys, a, b) && Before(view, keys, b, a))
      && (a.resource != b.resource ==> Before(view, keys, a, b) || Before(view, keys, b, a))
      && (Before(view, keys, a, b) && Before(view, keys, b, c) ==> Before(view, keys, a, c))
  {
    var keys := RequestOf(q).sort;
    BeforeIsStrict(view, keys, a, b);
    if a.resource != b.resource { BeforeIsTotal(view, keys, a, b); }
    if Before(view, keys, a, b) && Before(view, keys, b, c) { BeforeIsTransitive(view, keys, a, b, c); }
  }

  /** The asked field decides in the asked direction, and on equal values the resource id does, in
      the same direction. */
  lemma AskedFieldDecides(view: View, q: Commons, a: Doc, b: Doc)
    ensures var asked := SortKey(SortField(q.sortBy), q.sortDesc);
      var byId := q.sortBy == "" || q.sortBy == "id" || q.sortBy == "resource";
      var x := if byId then Some(Word(a.resource)) else view(a, asked);
      var y := if byId then Some(Word(b.resource)) else view(b, asked);
      Before(view, RequestOf(q).sort, a, b) <==>
        if x != y then Precedes(x, y, q.sortDesc)
        else if q.sortDesc then Below(b.resource, a.resource) else Below(a.resource, b.resource)
  {
    var keys := RequestOf(q).sort;
    var asked := keys[0];
    SortFieldAddressed(q.sortBy);
    PrecedesIsTotal(ValueOf(view, a, asked), ValueOf(view, b, asked), q.sortDesc);
    BelowTotal(a.resource, b.resource);
    if |keys| == 2 {
      assert keys[1..] == [SortKey("resource", q.sortDesc)];
      OneKeyDecides(view, SortKey("resource", q.sortDesc), a, b);
    } else {
      assert keys == [asked];
      OneKeyDecides(view, asked, a, b);
    }
  }

  lemma OneKeyDecides(view: View, key: SortKey, a: Doc, b: Doc)
    ensures Before(view, [key], a, b) <==> Precedes(ValueOf(view, a, key), ValueOf(view, b, key), key.desc)
  {
    assert [key][1..] == [];
  }

  // ----- the sorted result -----

  /** What OpenSearch promises of sorted hits: all matches, and none after one it precedes. */
  ghost predicate Arranges(view: View, keys: seq<SortKey>, matches: multiset<Doc>, s: seq<Doc>) {
    && multiset(s) == matches
    && forall i, j | 0 <= i < j < |s| :: !Before(view, keys, s[j], s[i])
  }

  ghost predicate EndsInResource(keys: seq<SortKey>) {
    keys != [] && keys[|keys| - 1].field == "resource"
  }

  /** Any documents have such an arrangement. */
  lemma {:induction false} AnArrangement(view: View, keys: seq<SortKey>, matches: seq<Doc>) returns (s: seq<Doc>)
    ensures Arranges(view, keys, multiset(matches), s)
    decreases |matches|
  {
    s := [];
    if matches != [] {
      var t := AnArrangement(view, keys, matches[1..]);
      s := Insert(view, keys, t, matches[0]);
      assert matches == [matches[0]] + matches[1..];
    }
  }

  lemma {:induction false} Insert(view: View, keys: seq<SortKey>, t: seq<Doc>, d: Doc) returns (s: seq<Doc>)
    requires Arranges(view, keys, multiset(t), t)
    ensures Arranges(view, keys, multiset(t) + multiset{d}, s)
    decreases |t|
  {
    var p := 0;
    while p < |t| && !Before(view, keys, d, t[p])
      invariant p <= |t| && forall i | 0 <= i < p :: !Before(view, keys, d, t[i])
    {
      p := p + 1;
    }
    s := t[..p] + [d] + t[p..];
    assert t == t[..p] + t[p..];
    forall j | p <= j < |t| ensures !Before(view, keys, t[j], d) {
      BeforeIsStrict(view, keys, t[j], d);
      if Before(view, keys, t[j], d) { BeforeIsTransitive(view, keys, t[j], d, t[p]); }
    }
    Inserted(view, keys, t, p, d, s);
  }

  lemma Inserted(view: View, keys: seq<SortKey>, t: seq<Doc>, p: nat, d: Doc, s: seq<Doc>)
    requires p <= |t| && s == t[..p] + [d] + t[p..]
    requires forall i, j | 0 <= i < j < |t| :: !Before(view, keys, t[j], t[i])
    requires forall i | 0 <= i < p :: !Before(view, keys, d, t[i])
    requires forall j | p <= j < |t| :: !Before(view, keys, t[j], d)
    ensures forall i, j | 0 <= i < j < |s| :: !Before(view, keys, s[j], s[i])
  {
    forall i, j | 0 <= i < j < |s| ensures !Before(view, keys, s[j], s[i]) {
      assert i != p ==> s[i] == t[if i < p then i else i - 1];
      assert j != p ==> s[j] == t[if j < p then j else j - 1];
    }
  }

  lemma FirstIsLeast(view: View, keys: seq<SortKey>, s: seq<Doc>, d: Doc)
    requires Arranges(view, keys, multiset(s), s) && s != [] && d in s
    ensures !Before(view, keys, d, s[0])
  {
    var i :| 0 <= i < |s| && s[i] == d;
    if i == 0 { BeforeIsStrict(view, keys, d, d); }
  }

  /** Documents with distinct resource ids have one sorted arrangement. */
  lemma {:induction false} ArrangementIsUnique(view: View, keys: seq<SortKey>, s: seq<Doc>, t: seq<Doc>)
    requires EndsInResource(keys) && DistinctResources(s)
    requires Arranges(view, keys, multiset(s), s) && Arranges(view, keys, multiset(s), t)
    ensures s == t
  {
    assert |multiset(t)| == |t| && |multiset(s)| == |s|;
    if s != [] {
      HeadsAgree(view, keys, s, t);
      TailArranges(view, keys, s);
      TailArranges(view, keys, t);
      ArrangementIsUnique(view, keys, s[1..], t[1..]);
      assert s == [s[0]] + s[1..] && t == [t[0]] + t[1..];
    }
  }

  lemma HeadsAgree(view: View, keys: seq<SortKey>, s: seq<Doc>, t: seq<Doc>)
    requires EndsInResource(keys) && DistinctResources(s) && s != [] && t != []
    requires Arranges(view, keys, multiset(s), s) && Arranges(view, keys, multiset(s), t)
    ensures s[0] == t[0]
  {
    assert t[0] in multiset(t) && s[0] in multiset(s);
    FirstIsLeast(view, keys, s, t[0]);
    FirstIsLeast(view, keys, t, s[0]);
    if s[0].resource != t[0].resource { BeforeIsTotal(view, keys, s[0], t[0]); }
    SameResourceSameDoc(s, s[0], t[0]);
  }

  lemma TailArranges(view: View, keys: seq<SortKey>, s: seq<Doc>)
    requires s != [] && Arranges(view, keys, multiset(s), s)
    ensures Arranges(view, keys, multiset(s) - multiset{s[0]}, s[1..])
    ensures multiset(s[1..]) == multiset(s) - multiset{s[0]}
  {
    assert s == [s[0]] + s[1..];
  }

  lemma SameResourceSameDoc(s: seq<Doc>, a: Doc, b: Doc)
    requires DistinctResources(s) && a in s && b in s && a.resource == b.resource
    ensures a == b
  {
    var i, j :| 0 <= i < |s| && 0 <= j < |s| && s[i] == a && s[j] == b;
    assert i == j;
  }

  // ----- what a request is answered with -----

  /** The arranged hits behind a search_after value on the one key of the request. */
  function Behind(s: seq<Doc>, after: string, desc: bool): (r: seq<Doc>)
    ensures forall d :: d in r <==> d in s && Precedes(Some(Word(after)), Some(Word(d.resource)), desc)
  {
    if s == [] then []
    else (if Precedes(Some(Word(after)), Some(Word(s[0].resource)), desc) then [s[0]] else []) + Behind(s[1..], after, desc)
  }

  /** OpenSearch's answer to a request: at most `size` of the arranged hits, from the offset on or behind the
      id; past the window it refuses. */
  function Answer(r: Request, arranged: seq<Doc>): Option<seq<Doc>> {
    var from := match r.from case Some(n) => n case None => 0;
    match r.searchAfter
    case None => Page(arranged, from, r.size)
    case Some(ids) =>
      if |ids| != 1 || |r.sort| != 1 || r.sort[0].field != "resource" then None
      else Page(Behind(arranged, ids[0], r.sort[0].desc), from, r.size)
  }

  // ----- consecutive pages -----

  /** The answers to the requests with offsets 0, limit, 2 * limit and so on, page k cut from the
      arrangement OpenSearch made for request k, one after the other. */
  function Pages(q: Commons, arranged: seq<seq<Doc>>): Option<seq<Doc>>
    requires q.limit >= 0 && |arranged| * q.limit <= WINDOW
  {
    if arranged == [] then Some([])
    else
      var k := |arranged| - 1;
      Times(k, q.limit);
      match (Pages(q, arranged[..k]), Answer(RequestOf(q.(offset := k * q.limit, after := None)), arranged[k]))
      case (Some(earlier), Some(page)) => Some(earlier + page)
      case _ => None
  }

  function UpTo<T>(s: seq<T>, n: nat): seq<T> {
    if n <= |s| then s[..n] else s
  }

  lemma PageExtends<T>(s: seq<T>, from: nat, size: nat)
    requires from + size <= WINDOW
    ensures Page(s, from, size).Some? && UpTo(s, from) + Page(s, from, size).value == UpTo(s, from + size)
  {}

  /** Whatever arrangement each request saw, the answers to requests that differ only in their offset, each
      a limit further on, concatenate to the first part of the one sorted result, without a gap or a
      repeat. */
  lemma PagesConcatenate(view: View, q: Commons, matches: seq<Doc>, arranged: seq<seq<Doc>>)
    requires DistinctResources(matches) && Arranges(view, RequestOf(q).sort, multiset(matches), matches)
    requires forall k | 0 <= k < |arranged| :: Arranges(view, RequestOf(q).sort, multiset(matches), arranged[k])
    requires q.limit >= 0 && |arranged| * q.limit <= WINDOW
    ensures Pages(q, arranged) == Some(UpTo(matches, |arranged| * q.limit))
  {
    forall k | 0 <= k < |arranged| ensures arranged[k] == matches {
      ArrangementIsUnique(view, RequestOf(q).sort, matches, arranged[k]);
    }
    PagesOfOne(q, matches, arranged);
  }

  lemma {:induction false} PagesOfOne(q: Commons, matches: seq<Doc>, arranged: seq<seq<Doc>>)
    requires forall k | 0 <= k < |arranged| :: arranged[k] == matches
    requires q.limit >= 0 && |arranged| * q.limit <= WINDOW
    ensures Pages(q, arranged) == Some(UpTo(matches, |arranged| * q.limit))
    decreases |arranged|
  {
    if arranged == [] {
      assert UpTo(matches, 0) == [];
    } else {
      var k := |arranged| - 1;
      Times(k, q.limit);
      PagesOfOne(q, matches, arranged[..k]);
      PageExtends(matches, k * q.limit, q.limit);
    }
  }

  lemma Times(k: nat, limit: nat)
    ensures (k + 1) * limit == k * limit + limit && k * limit >= 0
  {}

  // ----- continuing after an id -----

  lemma {:induction false} BehindAll(s: seq<Doc>, after: string, desc: bool)
    requires forall d | d in s :: Precedes(Some(Word(after)), Some(Word(d.resource)), desc)
    ensures Behind(s, after, desc) == s
  {
    if s != [] { BehindAll(s[1..], after, desc); }
  }

  lemma {:induction false} BehindSome(s: seq<Doc>, i: nat, after: string, desc: bool)
    requires i <= |s|
    requires forall j | 0 <= j < i :: !Precedes(Some(Word(after)), Some(Word(s[j].resource)), desc)
    requires forall j | i <= j < |s| :: Precedes(Some(Word(after)), Some(Word(s[j].resource)), desc)
    ensures Behind(s, after, desc) == s[i..]
  {
    if i == 0 {
      BehindAll(s, after, desc);
      assert s[0..] == s;
    } else {
      BehindSome(s[1..], i - 1, after, desc);
    }
  }

  /** Asking for what comes after the last document of a page is answered with the next documents of the
      sorted result, in either direction. */
  lemma AfterContinues(view: View, q: Commons, s: seq<Doc>, i: nat)
    requires Validate(q) == None && q.after.Some?
    requires DistinctResources(s) && Arranges(view, RequestOf(q).sort, multiset(s), s)
    requires 0 < i <= |s| && q.after.value == s[i - 1].resource
    ensures Answer(RequestOf(q), s) == Some(UpTo(s[i..], q.limit))
  {
    AfterHasOneKey(q);
    WindowCheckExactly(q);
    BehindLast(view, q, s, i);
    PageExtends(s[i..], 0, q.limit);
    assert UpTo(s[i..], 0) == [];
  }

  lemma BehindLast(view: View, q: Commons, s: seq<Doc>, i: nat)
    requires Validate(q) == None && q.after.Some?
    requires DistinctResources(s) && Arranges(view, RequestOf(q).sort, multiset(s), s)
    requires 0 < i <= |s| && q.after.value == s[i - 1].resource
    ensures Behind(s, q.after.value, q.sortDesc) == s[i..]
  {
    AfterHasOneKey(q);
    var keys := RequestOf(q).sort;
    forall j | 0 <= j < |s|
      ensures Precedes(Some(Word(q.after.value)), Some(Word(s[j].resource)), q.sortDesc) <==> i <= j
    {
      PrecedesIsTotal(Some(Word(s[i - 1].resource)), Some(Word(s[j].resource)), q.sortDesc);
      if j < i - 1 {
        assert !Before(view, keys, s[i - 1], s[j]);
      } else if j >= i {
        assert !Before(view, keys, s[j], s[i - 1]);
        assert s[i - 1].resource != s[j].resource;
      }
    }
    BehindSome(s, i, q.after.value, q.sortDesc);
  }
}
