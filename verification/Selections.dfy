/** The compiler from user-defined selections to bool queries (lib/query/selection.go), against
    the meaning the API documents for selections (README.md, User-Defined-Selection). */
module Selections {
  import opened GoStrings
  import opened Model
  import opened QueryAst

  datatype Token = Token(user: string, roles: seq<string>)

  datatype Condition = Condition(feature: string, operation: string, value: Json, ref: string)

  datatype Selection = Selection(all: seq<Selection>, any: seq<Selection>, negated: Option<Selection>, condition: Condition)

  datatype Result<+T> = Ok(value: T) | UnknownOperation(operation: string)

  // ----- what a selection means -----

  predicate Unset(v: Json) { v == Null || v == Text("") }

  /** The condition's value, or the reference when the value is not set. */
  function Resolve(token: Token, c: Condition): Json {
    if !Unset(c.value) then c.value
    else if c.ref == "jwt.user" then Text(token.user)
    else if c.ref == "jwt.groups" then Array(Texts(token.roles))
    else c.value
  }

  /** "id" names the document's own id. */
  function FieldOf(c: Condition): string {
    if c.feature == "id" then "_id" else c.feature
  }

  /** A value read as a list: a string lists its comma-separated parts. */
  function AsList(v: Json): seq<Json> {
    match v
    case Null => []
    case Text(s) => Texts(Split(s, ','))
    case _ => Items(v)
  }

  predicate Equal(token: Token, c: Condition, doc: Indexed) {
    var v, present := Resolve(token, c), ValuesOf(doc, FieldOf(c));
    if Unset(v) then present == [] else v in present
  }

  predicate Known(operation: string) {
    operation == "==" || operation == "!=" || operation == "any_value_in_feature"
  }

  predicate Applies(token: Token, c: Condition, doc: Indexed) {
    match c.operation
    case "==" => Equal(token, c, doc)
    case "!=" => !Equal(token, c, doc)
    case _ => exists v | v in AsList(Resolve(token, c)) :: v in ValuesOf(doc, FieldOf(c))
  }

  /** Conjunction before disjunction before negation before the condition. */
  predicate Selected(token: Token, s: Selection, doc: Indexed) {
    if s.all != [] then forall sub | sub in s.all :: Selected(token, sub, doc)
    else if s.any != [] then exists sub | sub in s.any :: Selected(token, sub, doc)
    else if s.negated.Some? then !Selected(token, s.negated.value, doc)
    else Applies(token, s.condition, doc)
  }

  /** The conditions that count, from left to right. */
  function Reached(s: Selection): seq<Condition>
    decreases s, 1
  {
    if s.all != [] then ReachedIn(s.all)
    else if s.any != [] then ReachedIn(s.any)
    else if s.negated.Some? then Reached(s.negated.value)
    else [s.condition]
  }

  function ReachedIn(subs: seq<Selection>): seq<Condition>
    decreases subs, 0
  {
    if subs == [] then [] else Reached(subs[0]) + ReachedIn(subs[1..])
  }

  function FirstUnknown(cs: seq<Condition>): Option<string> {
    if cs == [] then None
    else if !Known(cs[0].operation) then Some(cs[0].operation)
    else FirstUnknown(cs[1..])
  }

  // ----- the compiler -----

  function CompileCondition(token: Token, c: Condition): Result<Query> {
    var field, v := FieldOf(c), Resolve(token, c);
    match c.operation
    case "==" => Ok(if Unset(v) then Bool([], [], [Exists(field)]) else Term(field, v))
    case "!=" => Ok(if Unset(v) then Exists(field) else Bool([], [], [Term(field, v)]))
    case "any_value_in_feature" =>
      Ok(Terms(field, match v case Null => Array([]) case Text(s) => Array(Texts(Split(s, ','))) case _ => v))
    case operation => UnknownOperation(operation)
  }

  function Compile(token: Token, s: Selection): Result<Query>
    decreases s, 1
  {
    if s.all != [] then
      match CompileAll(token, s.all)
      case Ok(qs) => Ok(Bool(qs, [], []))
      case UnknownOperation(o) => UnknownOperation(o)
    else if s.any != [] then
      match CompileAll(token, s.any)
      case Ok(qs) => Ok(Bool([], qs, []))
      case UnknownOperation(o) => UnknownOperation(o)
    else if s.negated.Some? then
      match Compile(token, s.negated.value)
      case Ok(q) => Ok(Bool([], [], [q]))
      case UnknownOperation(o) => UnknownOperation(o)
    else
      CompileCondition(token, s.condition)
  }

  function CompileAll(token: Token, subs: seq<Selection>): Result<seq<Query>>
    decreases subs, 0
  {
    if subs == [] then Ok([])
    else
      match Compile(token, subs[0])
      case UnknownOperation(o) => UnknownOperation(o)
      case Ok(q) =>
        match CompileAll(token, subs[1..])
        case UnknownOperation(o) => UnknownOperation(o)
        case Ok(qs) => Ok([q] + qs)
  }

  method GetConditionFilter(token: Token, condition: Condition) returns (result: Result<Query>)
    ensures result == CompileCondition(token, condition)
  {
    var feature := condition.feature;
    if feature == "id" {
      feature := "_id";
    }
    var val := condition.value;
    if val == Null || val == Text("") {
      match condition.ref
      case "jwt.user" => val := Text(token.user);
      case "jwt.groups" => val := Array(Texts(token.roles));
      case _ =>
    }
    match condition.operation
    case "==" =>
      if val == Null || val == Text("") {
        return Ok(Bool([], [], [Exists(feature)]));
      } else {
        return Ok(Term(feature, val));
      }
    case "!=" =>
      if val == Null || val == Text("") {
        return Ok(Exists(feature));
      } else {
        return Ok(Bool([], [], [Term(feature, val)]));
      }
    case "any_value_in_feature" =>
      match val {
        case Null => val := Array([]);
        case Text(s) => val := Array(Texts(Split(s, ',')));
        case _ =>
      }
      return Ok(Terms(feature, val));
    case _ =>
      return UnknownOperation(condition.operation);
  }

  function After(done: seq<Query>, rest: Result<seq<Query>>): Result<seq<Query>> {
    match rest
    case Ok(qs) => Ok(done + qs)
    case UnknownOperation(o) => UnknownOperation(o)
  }

  lemma NextCompiled(token: Token, subs: seq<Selection>, i: nat, done: seq<Query>)
    requires i < |subs|
    ensures After(done, CompileAll(token, subs[i..])) ==
            match Compile(token, subs[i])
            case Ok(q) => After(done + [q], CompileAll(token, subs[i + 1..]))
            case UnknownOperation(o) => UnknownOperation(o)
  {
    assert subs[i..][0] == subs[i] && subs[i..][1..] == subs[i + 1..];
    var rest := CompileAll(token, subs[i + 1..]);
    if rest.Ok? && Compile(token, subs[i]).Ok? {
      assert done + ([Compile(token, subs[i]).value] + rest.value) == (done + [Compile(token, subs[i]).value]) + rest.value;
    }
  }

  /** The append loop over the children, which stops at the first error. */
  method GetFilters(token: Token, subs: seq<Selection>) returns (result: Result<seq<Query>>)
    ensures result == CompileAll(token, subs)
    decreases subs, 0
  {
    var list: seq<Query> := [];
    assert subs[0..] == subs;
    assert forall qs: seq<Query> :: list + qs == qs;
    for i := 0 to |subs|
      invariant CompileAll(token, subs) == After(list, CompileAll(token, subs[i..]))
    {
      NextCompiled(token, subs, i, list);
      var element := GetFilter(token, subs[i]);
      if element.UnknownOperation? {
        return UnknownOperation(element.operation);
      }
      list := list + [element.value];
    }
    assert list + [] == list;
    return Ok(list);
  }

  method GetFilter(token: Token, selection: Selection) returns (result: Result<Query>)
    ensures result == Compile(token, selection)
    decreases selection, 1
  {
    if |selection.all| > 0 {
      var list := GetFilters(token, selection.all);
      if list.UnknownOperation? {
        return UnknownOperation(list.operation);
      }
      return Ok(Bool(list.value, [], []));
    }
    if |selection.any| > 0 {
      var list := GetFilters(token, selection.any);
      if list.UnknownOperation? {
        return UnknownOperation(list.operation);
      }
      return Ok(Bool([], list.value, []));
    }
    if selection.negated.Some? {
      var inner := GetFilter(token, selection.negated.value);
      if inner.UnknownOperation? {
        return inner;
      }
      return Ok(Bool([], [], [inner.value]));
    }
    result := GetConditionFilter(token, selection.condition);
  }

  // ----- the compiler keeps the meaning -----

  lemma ConditionKept(token: Token, c: Condition, doc: Indexed)
    ensures CompileCondition(token, c).Ok? <==> Known(c.operation)
    ensures CompileCondition(token, c).Ok? ==>
              (Matches(CompileCondition(token, c).value, doc) <==> Applies(token, c, doc))
  {
    var r := CompileCondition(token, c);
    if r.Ok? && r.value.Bool? {
      assert r.value.mustNot[0] in r.value.mustNot;
    }
  }

  /** "!=" matches exactly the documents "==" does not, for every value and reference. */
  lemma UnequalIsComplement(token: Token, c: Condition, doc: Indexed)
    ensures Matches(CompileCondition(token, c.(operation := "!=")).value, doc) <==>
            !Matches(CompileCondition(token, c.(operation := "==")).value, doc)
  {
    ConditionKept(token, c.(operation := "!="), doc);
    ConditionKept(token, c.(operation := "=="), doc);
  }

  lemma {:induction false} FirstUnknownSplit(a: seq<Condition>, b: seq<Condition>)
    ensures FirstUnknown(a + b) == if FirstUnknown(a).Some? then FirstUnknown(a) else FirstUnknown(b)
  {
    if a == [] {
      assert a + b == b;
    } else {
      assert (a + b)[1..] == a[1..] + b;
      FirstUnknownSplit(a[1..], b);
    }
  }

  /** The query compiled for the branch a selection takes matches what the branch selects. */
  lemma BranchKept(token: Token, s: Selection, doc: Indexed, qs: seq<Query>, q: Query)
    requires s.all != [] ==> q == Bool(qs, [], []) && Alike(token, s.all, qs, doc)
    requires s.all == [] && s.any != [] ==> q == Bool([], qs, []) && Alike(token, s.any, qs, doc)
    requires s.all == s.any == [] && s.negated.Some? ==> q == Bool([], [], qs) && Alike(token, [s.negated.value], qs, doc)
    requires s.all == s.any == [] && s.negated.None? ==> CompileCondition(token, s.condition) == Ok(q)
    ensures Matches(q, doc) <==> Selected(token, s, doc)
  {
    if s.all != [] {
      ListsAlike(token, s.all, qs, doc);
    } else if s.any != [] {
      ListsAlike(token, s.any, qs, doc);
    } else if s.negated.Some? {
      ListsAlike(token, [s.negated.value], qs, doc);
      assert qs == [qs[0]] && qs[0] in qs;
    } else {
      ConditionKept(token, s.condition, doc);
    }
  }

  /** A compiled selection matches exactly the documents it selects, and compiling fails exactly
      when a condition that counts has an unknown operation, reporting the leftmost one. */
  lemma {:induction false} MeaningKept(token: Token, s: Selection, doc: Indexed)
    ensures match Compile(token, s)
            case Ok(q) => FirstUnknown(Reached(s)) == None && (Matches(q, doc) <==> Selected(token, s, doc))
            case UnknownOperation(o) => FirstUnknown(Reached(s)) == Some(o)
    decreases s, 1
  {
    var r := Compile(token, s);
    if s.all != [] || s.any != [] {
      var subs := if s.all != [] then s.all else s.any;
      MeaningsKept(token, subs, doc);
      if r.Ok? { BranchKept(token, s, doc, CompileAll(token, subs).value, r.value); }
    } else if s.negated.Some? {
      MeaningKept(token, s.negated.value, doc);
      if r.Ok? { BranchKept(token, s, doc, r.value.mustNot, r.value); }
    } else {
      ConditionKept(token, s.condition, doc);
      if r.Ok? { BranchKept(token, s, doc, [], r.value); }
      assert Reached(s) == [s.condition];
    }
  }

  predicate Alike(token: Token, subs: seq<Selection>, qs: seq<Query>, doc: Indexed) {
    |qs| == |subs| && forall i | 0 <= i < |subs| :: Matches(qs[i], doc) <==> Selected(token, subs[i], doc)
  }

  lemma {:induction false} MeaningsKept(token: Token, subs: seq<Selection>, doc: Indexed)
    ensures match CompileAll(token, subs)
            case Ok(qs) =>
              FirstUnknown(ReachedIn(subs)) == None && Alike(token, subs, qs, doc)
            case UnknownOperation(o) => FirstUnknown(ReachedIn(subs)) == Some(o)
    decreases subs, 0
  {
    if subs != [] {
      MeaningKept(token, subs[0], doc);
      MeaningsKept(token, subs[1..], doc);
      FirstUnknownSplit(Reached(subs[0]), ReachedIn(subs[1..]));
    }
  }

  lemma ListsAlike(token: Token, subs: seq<Selection>, qs: seq<Query>, doc: Indexed)
    requires Alike(token, subs, qs, doc)
    ensures (forall q | q in qs :: Matches(q, doc)) <==> forall sub | sub in subs :: Selected(token, sub, doc)
    ensures (exists q | q in qs :: Matches(q, doc)) <==> exists sub | sub in subs :: Selected(token, sub, doc)
  {
    forall i | 0 <= i < |subs| ensures qs[i] in qs && subs[i] in subs {}
  }

  // ----- what the words of a selection stand for -----

  /** A selection that is one condition. */
  function Only(c: Condition): Selection {
    Selection([], [], None, c)
  }

  /** The documents a one-condition selection matches once it is compiled. */
  predicate Finds(token: Token, c: Condition, doc: Indexed) {
    Compile(token, Only(c)).Ok? && Matches(Compile(token, Only(c)).value, doc)
  }

  /** The field a condition is about: "id" is the document's own id. */
  predicate Names(c: Condition, field: string) {
    (c.feature == "id" ==> field == "_id") && (c.feature != "id" ==> field == c.feature)
  }

  /** Without a value, "jwt.user" stands for the caller's id and "jwt.groups" for the caller's roles: one of
      them in the field for "any_value_in_feature", the list itself as a value for "==". */
  lemma ReferencesStandFor(token: Token, c: Condition, field: string, doc: Indexed)
    requires Names(c, field) && (c.value == Null || c.value == Text(""))
    ensures c.ref == "jwt.user" && token.user != "" && c.operation == "==" ==>
              (Finds(token, c, doc) <==> Text(token.user) in ValuesOf(doc, field))
    ensures c.ref == "jwt.user" && c.operation == "any_value_in_feature" ==>
              (Finds(token, c, doc) <==> exists part | part in Split(token.user, ',') :: Text(part) in ValuesOf(doc, field))
    ensures c.ref == "jwt.groups" && c.operation == "any_value_in_feature" ==>
              (Finds(token, c, doc) <==> exists role | role in token.roles :: Text(role) in ValuesOf(doc, field))
    ensures c.ref == "jwt.groups" && c.operation == "==" ==>
              (Finds(token, c, doc) <==> Array(Texts(token.roles)) in ValuesOf(doc, field))
  {
    if c.ref == "jwt.user" {
      ConditionFinds(token, c, field, Text(token.user), doc);
      AnyText(Split(token.user, ','), ValuesOf(doc, field));
    } else if c.ref == "jwt.groups" {
      ConditionFinds(token, c, field, Array(Texts(token.roles)), doc);
      AnyText(token.roles, ValuesOf(doc, field));
    }
  }

  /** What a condition finds, by the value it is resolved to. */
  lemma ConditionFinds(token: Token, c: Condition, field: string, v: Json, doc: Indexed)
    requires Names(c, field) && Resolve(token, c) == v
    ensures c.operation == "==" && !Unset(v) ==> (Finds(token, c, doc) <==> v in ValuesOf(doc, field))
    ensures c.operation == "any_value_in_feature" ==>
              (Finds(token, c, doc) <==> exists item | item in AsList(v) :: item in ValuesOf(doc, field))
  {
    ConditionKept(token, c, doc);
  }

  lemma AnyText(names: seq<string>, present: seq<Json>)
    ensures (exists v | v in Texts(names) :: v in present) <==> exists n | n in names :: Text(n) in present
  {
    forall n | n in names ensures Text(n) in Texts(names) { TextsMember(names, Text(n)); }
    forall v | v in Texts(names) ensures v.Text? && v.s in names { TextsMember(names, v); }
  }

  /** A value that is set is used as it is, whatever the reference: a string lists its comma-separated
      parts for "any_value_in_feature". */
  lemma ValuesStandForThemselves(token: Token, c: Condition, field: string, doc: Indexed)
    requires Names(c, field) && c.value != Null && c.value != Text("")
    ensures c.operation == "==" ==> (Finds(token, c, doc) <==> c.value in ValuesOf(doc, field))
    ensures c.operation == "!=" ==> (Finds(token, c, doc) <==> c.value !in ValuesOf(doc, field))
    ensures c.operation == "any_value_in_feature" && c.value.Array? ==>
              (Finds(token, c, doc) <==> exists v | v in c.value.items :: v in ValuesOf(doc, field))
    ensures c.operation == "any_value_in_feature" && c.value.Text? ==>
              (Finds(token, c, doc) <==> exists part | part in Split(c.value.s, ',') :: Text(part) in ValuesOf(doc, field))
  {
    UnequalIsComplement(token, c, doc);
    ConditionFinds(token, c, field, c.value, doc);
    if c.value.Text? { AnyText(Split(c.value.s, ','), ValuesOf(doc, field)); }
  }

  /** Without a value and a known reference, or for a caller without id, "==" finds the documents without the
      field and "!=" those with it. */
  lemma NothingStandsForAbsence(token: Token, c: Condition, field: string, doc: Indexed)
    requires Names(c, field) && (c.value == Null || c.value == Text("")) && c.ref != "jwt.groups"
    requires c.ref == "jwt.user" ==> token.user == ""
    ensures c.operation == "==" ==> (Finds(token, c, doc) <==> ValuesOf(doc, field) == [])
    ensures c.operation == "!=" ==> (Finds(token, c, doc) <==> ValuesOf(doc, field) != [])
  {
    ConditionKept(token, c, doc);
  }

  /** The compiled "and", "or" and "not" are those of the compiled parts; "and" goes before "or", and both
      before "not" and the condition. */
  lemma CombinationsStandForThemselves(token: Token, s: Selection, doc: Indexed)
    requires Compile(token, s).Ok?
    ensures var found := Matches(Compile(token, s).value, doc);
      if s.all != [] then found <==> forall sub | sub in s.all :: FindsAny(token, sub, doc)
      else if s.any != [] then found <==> exists sub | sub in s.any :: FindsAny(token, sub, doc)
      else if s.negated.Some? then found <==> !FindsAny(token, s.negated.value, doc)
      else found <==> Finds(token, s.condition, doc)
  {
    var q := Compile(token, s).value;
    if s.all != [] || s.any != [] {
      var subs := if s.all != [] then s.all else s.any;
      PartsCompiled(token, subs);
      AllCompiled(token, subs, CompileAll(token, subs).value, doc);
      ListMeaning(CompileAll(token, subs).value, doc);
    } else if s.negated.Some? {
      ListMeaning([Compile(token, s.negated.value).value], doc);
    }
  }

  lemma ListMeaning(qs: seq<Query>, doc: Indexed)
    ensures Matches(Bool(qs, [], []), doc) <==> forall q | q in qs :: Matches(q, doc)
    ensures qs != [] ==> (Matches(Bool([], qs, []), doc) <==> exists q | q in qs :: Matches(q, doc))
    ensures |qs| == 1 ==> (Matches(Bool([], [], qs), doc) <==> !Matches(qs[0], doc))
  {
    if |qs| == 1 { assert qs == [qs[0]] && qs[0] in qs; }
  }

  predicate FindsAny(token: Token, s: Selection, doc: Indexed) {
    Compile(token, s).Ok? && Matches(Compile(token, s).value, doc)
  }

  lemma {:induction false} PartsCompiled(token: Token, subs: seq<Selection>)
    requires CompileAll(token, subs).Ok?
    ensures var qs := CompileAll(token, subs).value;
      |qs| == |subs| && forall i | 0 <= i < |subs| :: Compile(token, subs[i]) == Ok(qs[i])
  {
    if subs != [] {
      PartsCompiled(token, subs[1..]);
    }
  }

  lemma AllCompiled(token: Token, subs: seq<Selection>, qs: seq<Query>, doc: Indexed)
    requires |qs| == |subs| && forall i | 0 <= i < |subs| :: Compile(token, subs[i]) == Ok(qs[i])
    ensures (forall q | q in qs :: Matches(q, doc)) <==> forall sub | sub in subs :: FindsAny(token, sub, doc)
    ensures (exists q | q in qs :: Matches(q, doc)) <==> exists sub | sub in subs :: FindsAny(token, sub, doc)
  {
    forall i | 0 <= i < |subs| ensures qs[i] in qs && subs[i] in subs {}
  }
}
