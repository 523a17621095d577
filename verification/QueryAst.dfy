/** The bool queries the repository sends to OpenSearch, and what they match. */
module QueryAst {
  import opened Model

  datatype Query =
    | Term(field: string, value: Json)
    | Terms(field: string, values: Json)
    | Exists(field: string)
    | Bool(filter: seq<Query>, should: seq<Query>, mustNot: seq<Query>)

  /** A document as indexed: the values under each field name; no field and no value are alike. */
  type Indexed = map<string, seq<Json>>

  function ValuesOf(doc: Indexed, field: string): seq<Json> {
    if field in doc then doc[field] else []
  }

  /** The elements a `terms` clause looks for; anything but a list names none. */
  function Items(v: Json): seq<Json> {
    if v.Array? then v.items else []
  }

  /** A `should` list binds only when there is no `filter`, and an empty one never does. */
  predicate Matches(q: Query, doc: Indexed) {
    match q
    case Term(field, value) => value in ValuesOf(doc, field)
    case Terms(field, values) => exists v | v in Items(values) :: v in ValuesOf(doc, field)
    case Exists(field) => ValuesOf(doc, field) != []
    case Bool(filter, should, mustNot) =>
      && (forall f | f in filter :: Matches(f, doc))
      && (forall n | n in mustNot :: !Matches(n, doc))
      && (filter == [] && should != [] ==> exists s | s in should :: Matches(s, doc))
  }

  function Texts(names: seq<string>): seq<Json> {
    seq(|names|, i requires 0 <= i < |names| => Text(names[i]))
  }

  lemma TextsMember(names: seq<string>, v: Json)
    ensures v in Texts(names) <==> v.Text? && v.s in names
  {
    if v.Text? && v.s in names {
      var i :| 0 <= i < |names| && names[i] == v.s;
      assert Texts(names)[i] == v;
    }
  }
}
