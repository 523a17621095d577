/** OpenSearch as a reader of one index: the documents in one fixed hit order, and the window that
    every offset search must stay inside. */
module Searching {
  import opened GoStrings
  import opened Model
  import opened QueryAst
  import opened RightsQuery

  const WINDOW := 10000

  /** No two documents share a resource id, as holds for an index whose documents are filed under it. */
  predicate DistinctResources(index: seq<Doc>) {
    forall i, j | 0 <= i < j < |index| :: index[i].resource != index[j].resource
  }

  /** The matching documents in hit order. */
  function Found(index: seq<Doc>, q: Query): (hits: seq<Doc>)
    ensures forall d :: d in hits <==> d in index && Matches(q, AsIndexed(d))
  {
    if index == [] then []
    else (if Matches(q, AsIndexed(index[0])) then [index[0]] else []) + Found(index[1..], q)
  }

  /** A search with from and size; one that reaches past the window is refused. */
  function Page<T>(hits: seq<T>, from: int, size: int): Option<seq<T>> {
    if from < 0 || size < 0 || from + size > WINDOW then None
    else if from >= |hits| then Some([])
    else if from + size >= |hits| then Some(hits[from..])
    else Some(hits[from..from + size])
  }

  lemma {:induction false} FoundStaysDistinct(index: seq<Doc>, q: Query)
    requires DistinctResources(index)
    ensures DistinctResources(Found(index, q))
  {
    if index != [] {
      FoundStaysDistinct(index[1..], q);
      var rest := Found(index[1..], q);
      forall j | 0 <= j < |rest| ensures rest[j].resource != index[0].resource {
        assert rest[j] in index[1..];
      }
    }
  }

  function Resources(hits: seq<Doc>): (ids: seq<string>)
    ensures |ids| == |hits| && forall i | 0 <= i < |hits| :: ids[i] == hits[i].resource
  {
    seq(|hits|, i requires 0 <= i < |hits| => hits[i].resource)
  }
}
