/** List options, their checks, and how they travel in a URL (lib/model/list.go, lib/model/query.go,
    the list endpoint of lib/api/v3endpoints.go). */
module ListOptions {
  import opened GoStrings
  import opened Encoding

  datatype Selection = Selection(feature: string, value: string)

  datatype Commons = Commons(
    limit: goint,
    offset: goint,
    after: Option<string>,
    rights: string,
    sortBy: string,
    sortDesc: bool,
    addIdModifier: Params,
    withTotal: bool)

  datatype Options = Options(commons: Commons, listIds: seq<string>, textSearch: string, selection: Option<Selection>)

  // ----- checks -----

  datatype Refusal =
    | NegativeOffset
    | NegativeLimit
    | PastWindow
    | AfterNeedsIdSort
    | AfterWithOffset
    | AfterWithoutId
    | AfterWithoutSort

  /** The sum is Go's int addition, which wraps around. */
  function Validate(q: Commons): Option<Refusal> {
    if q.offset < 0 then Some(NegativeOffset)
    else if q.limit < 0 then Some(NegativeLimit)
    else if Wrap(q.limit + q.offset) > 10000 then Some(PastWindow)
    else if q.after.Some? then
      if q.sortBy != "id" && q.sortBy != "resource" then Some(AfterNeedsIdSort)
      else if q.offset != 0 then Some(AfterWithOffset)
      else if q.after.value == "" then Some(AfterWithoutId)
      else if q.sortBy == "" then Some(AfterWithoutSort)
      else None
    else None
  }

  /** The window check does its work exactly when the sum of limit and offset fits a Go int: a
      larger sum wraps around to a negative number and passes. */
  lemma WindowCheckExactly(q: Commons)
    requires q.offset >= 0 && q.limit >= 0
    ensures ((Validate(q) == Some(PastWindow)) <==> q.limit + q.offset > 10000) <==> q.limit + q.offset <= MAX_INT
  {
    var sum := q.limit + q.offset;
    if sum <= MAX_INT {
      assert Wrap(sum) == sum;
    } else {
      assert Wrap(sum) == sum - 0x1_0000_0000_0000_0000;
    }
  }

  /** What passes the checks: nothing negative, a sum that does not go past 10000 as Go adds it, and with
      `after` an id, the sort by the resource id and no offset. */
  lemma ValidExactly(q: Commons)
    ensures Validate(q) == None <==>
      && q.offset >= 0 && q.limit >= 0 && Wrap(q.limit + q.offset) <= 10000
      && (q.after.Some? ==> q.after.value != "" && q.offset == 0 && (q.sortBy == "id" || q.sortBy == "resource"))
    ensures Validate(q) == Some(NegativeOffset) <==> q.offset < 0
    ensures Validate(q) == Some(NegativeLimit) <==> q.offset >= 0 && q.limit < 0
  {}

  datatype Mode = TextSearch | BySelection | ByIds | Plain

  /** The modes the options ask for. */
  ghost function AskedModes(o: Options): set<Mode> {
    (if o.textSearch != "" then {TextSearch} else {}) +
    (if o.selection.Some? then {BySelection} else {}) +
    (if o.listIds != [] then {ByIds} else {})
  }

  /** A mode comes back exactly when no two are asked for, and it is the asked one. */
  method ModeOf(o: Options) returns (mode: Option<Mode>)
    ensures mode.Some? <==> |AskedModes(o)| <= 1
    ensures mode.Some? ==> AskedModes(o) == if mode.value == Plain then {} else {mode.value}
    ensures mode == Some(TextSearch) <==> o.textSearch != "" && o.selection.None? && o.listIds == []
    ensures mode == Some(BySelection) <==> o.textSearch == "" && o.selection.Some? && o.listIds == []
    ensures mode == Some(ByIds) <==> o.textSearch == "" && o.selection.None? && o.listIds != []
    ensures mode == Some(Plain) <==> o.textSearch == "" && o.selection.None? && o.listIds == []
  {
    mode := None;
    ghost var asked := AskedModes(o);
    if o.textSearch != "" {
      mode := Some(TextSearch);
    }
    if o.selection.Some? {
      if mode.Some? {
        TwoAsked(asked, TextSearch, BySelection);
        return None;
      }
      mode := Some(BySelection);
    }
    if o.listIds != [] {
      if mode.Some? {
        TwoAsked(asked, mode.value, ByIds);
        return None;
      }
      mode := Some(ByIds);
    }
    if mode.None? {
      mode := Some(Plain);
    }
    assert asked == if mode.value == Plain then {} else {mode.value};
  }

  lemma TwoAsked(asked: set<Mode>, a: Mode, b: Mode)
    requires a in asked && b in asked && a != b
    ensures |asked| > 1
  {
    assert |asked - {a} - {b}| == |asked| - 2;
  }

  // ----- printing -----

  datatype Name = Limit | Offset | Sort | RightsName | AfterId | AddIdModifier | Ids | SearchName | Filter

  function Literal(n: Name): string {
    match n
    case Limit => "limit"
    case Offset => "offset"
    case Sort => "sort"
    case RightsName => "rights"
    case AfterId => "after.id"
    case AddIdModifier => "add_id_modifier"
    case Ids => "ids"
    case SearchName => "search"
    case Filter => "filter"
  }

  lemma LiteralShape(n: Name)
    ensures |Literal(n)| ==
      match n case Ids => 3 case Sort => 4 case Limit => 5 case AfterId => 8 case AddIdModifier => 15 case _ => 6
    ensures Literal(n)[0] ==
      match n case Ids => 'i' case Sort => 's' case Limit => 'l' case AfterId => 'a' case AddIdModifier => 'a'
      case Offset => 'o' case RightsName => 'r' case SearchName => 's' case Filter => 'f'
    ensures IsBytes(Literal(n))
  {}

  lemma LiteralsDiffer()
    ensures forall a, b | Literal(a) == Literal(b) :: a == b
  {
    forall a, b | Literal(a) == Literal(b) ensures a == b {
      LiteralShape(a);
      LiteralShape(b);
    }
  }

  function SortText(q: Commons): string {
    q.sortBy + if q.sortDesc then ".desc" else ""
  }

  /** What is printed under each name, if anything; `extra` is the encoded id modifier. */
  function Printed(o: Options, extra: string, n: Name): Option<string> {
    var q := o.commons;
    match n
    case Limit => if q.limit > 0 then Some(Itoa(q.limit)) else None
    case Offset => if q.offset > 0 then Some(Itoa(q.offset)) else None
    case Sort => if q.sortBy != "" then Some(SortText(q)) else None
    case RightsName => if q.rights != "" then Some(q.rights) else None
    case AfterId => if q.after.Some? && q.after.value != "" then q.after else None
    case AddIdModifier => if q.addIdModifier != map[] then Some(extra) else None
    case Ids => if o.listIds != [] then Some(Join(o.listIds, ',')) else None
    case SearchName => if o.textSearch != "" then Some(o.textSearch) else None
    case Filter => match o.selection case Some(s) => Some(s.feature + [':'] + s.value) case None => None
  }

  /** url.Values as the options fill it, by parameter name. */
  type Values = map<Name, seq<string>>

  ghost function ValuesOf(o: Options, extra: string, names: set<Name>): Values {
    map n | n in names && Printed(o, extra, n).Some? :: [Printed(o, extra, n).value]
  }

  lemma NextValue(o: Options, extra: string, names: set<Name>, n: Name)
    requires n !in names
    ensures ValuesOf(o, extra, names + {n}) ==
            match Printed(o, extra, n) case Some(s) => ValuesOf(o, extra, names)[n := [s]] case None => ValuesOf(o, extra, names)
  {}

  /** QueryListCommons.QueryValues */
  method CommonValues(o: Options, extra: string) returns (result: Values)
    ensures result == ValuesOf(o, extra, {Limit, Offset, Sort, RightsName, AfterId, AddIdModifier})
  {
    var q := o.commons;
    result := map[];
    ghost var names: set<Name> := {};
    NextValue(o, extra, names, Limit);
    if q.limit > 0 {
      result := result[Limit := [Itoa(q.limit)]];
    }
    names := names + {Limit};
    assert result == ValuesOf(o, extra, names);
    NextValue(o, extra, names, Offset);
    if q.offset > 0 {
      result := result[Offset := [Itoa(q.offset)]];
    }
    names := names + {Offset};
    assert result == ValuesOf(o, extra, names);
    NextValue(o, extra, names, Sort);
    if q.sortBy != "" {
      var sort := q.sortBy;
      if q.sortDesc {
        sort := sort + ".desc";
      }
      assert sort == SortText(q);
      result := result[Sort := [sort]];
    }
    names := names + {Sort};
    assert names == {Limit, Offset, Sort};
    result := MoreValues(o, extra, result);
  }

  /** The second half of QueryListCommons.QueryValues. */
  method MoreValues(o: Options, extra: string, printed: Values) returns (result: Values)
    requires printed == ValuesOf(o, extra, {Limit, Offset, Sort})
    ensures result == ValuesOf(o, extra, {Limit, Offset, Sort, RightsName, AfterId, AddIdModifier})
  {
    var q := o.commons;
    result := printed;
    ghost var names: set<Name> := {Limit, Offset, Sort};
    NextValue(o, extra, names, RightsName);
    if q.rights != "" {
      result := result[RightsName := [q.rights]];
    }
    names := names + {RightsName};
    assert result == ValuesOf(o, extra, names);
    NextValue(o, extra, names, AfterId);
    if q.after.Some? && q.after.value != "" {
      result := result[AfterId := [q.after.value]];
    }
    names := names + {AfterId};
    assert result == ValuesOf(o, extra, names);
    NextValue(o, extra, names, AddIdModifier);
    if q.addIdModifier != map[] {
      result := result[AddIdModifier := [extra]];
    }
    names := names + {AddIdModifier};
    assert names == {Limit, Offset, Sort, RightsName, AfterId, AddIdModifier};
  }

  const ALL_NAMES := {Limit, Offset, Sort, RightsName, AfterId, AddIdModifier, Ids, SearchName, Filter}

  /** ListOptions.QueryValues */
  method QueryValues(o: Options) returns (result: Values)
    ensures result == ValuesOf(o, Encode(o.commons.addIdModifier), ALL_NAMES)
  {
    var extra := Encode(o.commons.addIdModifier);
    result := AllValues(o, extra);
  }

  method AllValues(o: Options, extra: string) returns (result: Values)
    ensures result == ValuesOf(o, extra, ALL_NAMES)
  {
    result := CommonValues(o, extra);
    if |o.listIds| > 0 {
      result := result[Ids := [Join(o.listIds, ',')]];
    }
    if |o.textSearch| > 0 {
      result := result[SearchName := [o.textSearch]];
    }
    if o.selection.Some? {
      result := result[Filter := [o.selection.value.feature + [':'] + o.selection.value.value]];
    }
  }

  /** The values under their literal names, as they go into the URL. */
  ghost function Named(m: Values): Params {
    LiteralsDiffer();
    map n | n in m :: Literal(n) := m[n]
  }

  /** The URL carries the printed values unchanged. */
  lemma UrlCarriesValues(m: Values)
    requires forall n | n in m :: m[n] != [] && forall v | v in m[n] :: IsBytes(v)
    ensures ParseQuery(Encode(Named(m))) == Some(Named(m))
  {
    NamedIsParsed(m);
    CleanedIsSame(Named(m));
    ParseUndoesEncode(Named(m));
  }

  lemma CleanedIsSame(m: Params)
    requires Parsed(m)
    ensures Cleaned(m) == m
  {}

  lemma NamedIsParsed(m: Values)
    requires forall n | n in m :: m[n] != [] && forall v | v in m[n] :: IsBytes(v)
    ensures Parsed(Named(m))
  {
    var texts := Named(m);
    forall k | k in texts ensures IsBytes(k) && texts[k] != [] && forall v | v in texts[k] :: IsBytes(v) {
      var n :| n in m && k == Literal(n);
      LiteralShape(n);
      NamedAt(m, n);
    }
  }

  lemma NamedAt(m: Values, n: Name)
    requires n in m
    ensures Literal(n) in Named(m) && Named(m)[Literal(n)] == m[n]
  {
    LiteralsDiffer();
  }

  // ----- parsing -----

  /** url.Values.Get */
  function Get(m: Values, n: Name): string {
    if n in m && m[n] != [] then m[n][0] else ""
  }

  function OrElse(s: string, default: string): string {
    if s == "" then default else s
  }

  function ReadExtra(text: string): Option<Params> {
    if text == "" then Some(map[]) else ParseQuery(text)
  }

  function SortField(sort: string): string {
    TrimSuffix(TrimSuffix(sort, ".desc"), ".asc")
  }

  /** GetQueryListCommonsFromUrlQuery */
  function ParseCommons(m: Values): Option<Commons> {
    var sort := Get(m, Sort);
    Assemble(
      Atoi(OrElse(Get(m, Limit), "100")), Atoi(OrElse(Get(m, Offset), "0")), ReadExtra(Get(m, AddIdModifier)),
      Get(m, AfterId), OrElse(Get(m, RightsName), "r"), SortField(sort), HasSuffix(sort, ".desc"))
  }

  function Assemble(limit: Option<goint>, offset: Option<goint>, extra: Option<Params>,
                    after: string, rights: string, sortBy: string, sortDesc: bool): Option<Commons>
  {
    if limit.None? || offset.None? || extra.None? then None
    else
      var after := if after != "" then Some(after) else None;
      var q := Commons(limit.value, offset.value, after, rights, sortBy, sortDesc, extra.value, false);
      if Validate(q) == None then Some(q) else None
  }

  function ParseSelection(filter: string): Option<Selection> {
    var parts := Split(filter, ':');
    if |parts| < 2 then None else Some(Selection(parts[0], Join(parts[1..], ':')))
  }

  /** The list endpoint; None where it answers that the request is bad. */
  function ParseOptions(m: Values): Option<Options> {
    match ParseCommons(m)
    case None => None
    case Some(q) =>
      var ids := ReadIds(Get(m, Ids));
      if Get(m, Filter) == "" then Some(Options(q, ids, Get(m, SearchName), None))
      else
        match ParseSelection(Get(m, Filter))
        case None => None
        case Some(s) => Some(Options(q, ids, Get(m, SearchName), Some(s)))
  }

  function ReadIds(text: string): seq<string> {
    if text != "" then Split(text, ',') else []
  }

  // ----- parsing what was printed -----

  /** The options a printed request stands for. */
  function NormalCommons(q: Commons): Commons {
    Commons(
      if q.limit > 0 then q.limit else 100,
      if q.offset > 0 then q.offset else 0,
      if q.after == Some("") then None else q.after,
      OrElse(q.rights, "r"),
      q.sortBy,
      q.sortBy != "" && q.sortDesc,
      Cleaned(q.addIdModifier),
      false)
  }

  function Normal(o: Options): Options {
    o.(commons := NormalCommons(o.commons))
  }

  /** No value is mistaken for a separator or a sort direction. */
  predicate SortTravels(q: Commons) {
    !HasSuffix(q.sortBy, ".asc") && (HasSuffix(q.sortBy, ".desc") ==> q.sortDesc)
  }

  predicate IdsTravel(ids: seq<string>) {
    ids != [""] && forall i | 0 <= i < |ids| :: ',' !in ids[i]
  }

  predicate SelectionTravels(s: Option<Selection>) {
    s.Some? ==> ':' !in s.value.feature
  }

  lemma SortReadsBack(q: Commons)
    ensures var s := if q.sortBy != "" then SortText(q) else "";
      SortField(s) == q.sortBy && HasSuffix(s, ".desc") == (q.sortBy != "" && q.sortDesc) <==> SortTravels(q)
  {
    var s := SortText(q);
    if q.sortBy != "" {
      if q.sortDesc {
        assert s[|s| - 5..] == ".desc" && s[..|s| - 5] == q.sortBy;
      } else {
        assert s == q.sortBy;
      }
    }
  }

  lemma IdsReadBack(ids: seq<string>)
    ensures ReadIds(Join(ids, ',')) == ids <==> IdsTravel(ids)
  {
    if ids != [] {
      SplitUndoesJoin(ids, ',');
      if Join(ids, ',') == "" {
        assert |ids| == 1 && ids[0] == "";
      }
    }
  }

  lemma SelectionReadsBack(s: Selection)
    ensures ParseSelection(s.feature + [':'] + s.value) == Some(s) <==> ':' !in s.feature
  {
    var text := s.feature + [':'] + s.value;
    assert text[|s.feature|] == ':';
    if ':' !in s.feature {
      CutAt(s.feature, ':', s.value);
      JoinUndoesSplit(s.value, ':');
      assert Split(text, ':') == [s.feature] + Split(s.value, ':');
      assert Split(text, ':')[1..] == Split(s.value, ':');
    }
  }

  lemma Defaults()
    ensures Atoi("100") == Some(100) && Atoi("0") == Some(0)
  {
    assert DigitsValue("1") == Some(1) by { assert "1"[..0] == ""; }
    assert DigitsValue("10") == Some(10) by { assert "10"[..1] == "1"; }
    assert DigitsValue("100") == Some(100) by { assert "100"[..2] == "10"; }
    assert DigitsValue("0") == Some(0) by { assert "0"[..0] == ""; }
  }

  lemma NumberReadsBack(n: goint, default: string, d: goint)
    requires default != "" && Atoi(default) == Some(d)
    ensures Atoi(OrElse(if n > 0 then Itoa(n) else "", default)) == Some(if n > 0 then n else d)
  {
    if n > 0 { AtoiUndoesItoa(n); }
  }

  lemma ExtraReadsBack(m: StrParams)
    ensures ReadExtra(Encode(m)) == Some(Cleaned(m))
  {
    ParseUndoesEncode(m);
  }

  /** The printed commons parse to their normal form, up to how the sort field is read. */
  lemma CommonsReadBack(o: Options, extra: string, m: Values)
    requires ReadExtra(extra) == Some(Cleaned(o.commons.addIdModifier)) && m == ValuesOf(o, extra, ALL_NAMES)
    ensures ParseCommons(m) == Checked(NormalCommons(o.commons).(
      sortBy := SortField(Get(m, Sort)), sortDesc := HasSuffix(Get(m, Sort), ".desc")))
  {
    var q := o.commons;
    NumbersReadBack(o, extra, m);
    ExtraReadBack(o, extra, m);
    GetOne(o, extra, m, RightsName);
    GetOne(o, extra, m, AfterId);
    AssembleNormal(q, Get(m, AfterId), SortField(Get(m, Sort)), HasSuffix(Get(m, Sort), ".desc"));
  }

  lemma NumbersReadBack(o: Options, extra: string, m: Values)
    requires m == ValuesOf(o, extra, ALL_NAMES)
    ensures Atoi(OrElse(Get(m, Limit), "100")) == Some(NormalCommons(o.commons).limit)
    ensures Atoi(OrElse(Get(m, Offset), "0")) == Some(NormalCommons(o.commons).offset)
  {
    GetOne(o, extra, m, Limit);
    GetOne(o, extra, m, Offset);
    Defaults();
    NumberReadsBack(o.commons.limit, "100", 100);
    NumberReadsBack(o.commons.offset, "0", 0);
  }

  lemma ExtraReadBack(o: Options, extra: string, m: Values)
    requires ReadExtra(extra) == Some(Cleaned(o.commons.addIdModifier)) && m == ValuesOf(o, extra, ALL_NAMES)
    ensures ReadExtra(Get(m, AddIdModifier)) == Some(NormalCommons(o.commons).addIdModifier)
  {
    GetOne(o, extra, m, AddIdModifier);
    CleanedNothing();
    ReadWhenPrinted(o.commons.addIdModifier != map[], extra, Get(m, AddIdModifier), Cleaned(o.commons.addIdModifier));
  }

  lemma CleanedNothing()
    ensures Cleaned(map[]) == map[]
  {}

  lemma ReadWhenPrinted(printed: bool, extra: string, text: string, read: Params)
    requires ReadExtra(extra) == Some(read) && text == if printed then extra else ""
    requires !printed ==> read == map[]
    ensures ReadExtra(text) == Some(read)
  {}

  /** A request without parameters asks for the first hundred readable documents by resource id. */
  lemma DefaultsTaken()
    ensures ParseCommons(map[]) == Some(Commons(100, 0, None, "r", "", false, map[], false))
    ensures ParseOptions(map[]) == Some(Options(Commons(100, 0, None, "r", "", false, map[], false), [], "", None))
  {
    Defaults();
    assert !HasSuffix("", ".desc") && !HasSuffix("", ".asc");
    assert Validate(Commons(100, 0, None, "r", "", false, map[], false)) == None;
  }

  function Checked(q: Commons): Option<Commons> {
    if Validate(q) == None then Some(q) else None
  }

  lemma AssembleNormal(q: Commons, after: string, sortBy: string, sortDesc: bool)
    requires after == if q.after.Some? && q.after.value != "" then q.after.value else ""
    ensures var n := NormalCommons(q);
      Assemble(Some(n.limit), Some(n.offset), Some(n.addIdModifier), after, n.rights, sortBy, sortDesc) ==
      Checked(n.(sortBy := sortBy, sortDesc := sortDesc))
  {}

  lemma GetOne(o: Options, extra: string, m: Values, n: Name)
    requires m == ValuesOf(o, extra, ALL_NAMES)
    ensures Get(m, n) == match Printed(o, extra, n) case Some(s) => s case None => ""
  {
    match n {
      case Limit => case Offset => case Sort => case RightsName => case AfterId =>
      case AddIdModifier => case Ids => case SearchName => case Filter =>
    }
  }

  /** Parsing printed list options gives their normal form exactly when the sort field, the ids and
      the filter feature keep clear of the separators and the normal form passes the checks. */
  lemma ParseUndoesPrint(o: Options)
    requires AllBytes(o.commons.addIdModifier)
    ensures ParseOptions(ValuesOf(o, Encode(o.commons.addIdModifier), ALL_NAMES)) == Some(Normal(o))
       <==> && SortTravels(o.commons) && IdsTravel(o.listIds) && SelectionTravels(o.selection)
            && Validate(NormalCommons(o.commons)) == None
  {
    ExtraReadsBack(o.commons.addIdModifier);
    ParsesToNormal(o, Encode(o.commons.addIdModifier));
  }

  lemma ParsesToNormal(o: Options, extra: string)
    requires ReadExtra(extra) == Some(Cleaned(o.commons.addIdModifier))
    ensures ParseOptions(ValuesOf(o, extra, ALL_NAMES)) == Some(Normal(o))
       <==> && SortTravels(o.commons) && IdsTravel(o.listIds) && SelectionTravels(o.selection)
            && Validate(NormalCommons(o.commons)) == None
  {
    var m := ValuesOf(o, extra, ALL_NAMES);
    CommonsReadBack(o, extra, m);
    PiecesReadBack(o, extra, m);
    if o.selection.Some? {
      SelectionReadsBack(o.selection.value);
      assert Get(m, Filter) != "" by { assert Get(m, Filter)[|o.selection.value.feature|] == ':'; }
    }
  }

  lemma PiecesReadBack(o: Options, extra: string, m: Values)
    requires m == ValuesOf(o, extra, ALL_NAMES)
    ensures var q := NormalCommons(o.commons);
      SortField(Get(m, Sort)) == q.sortBy && HasSuffix(Get(m, Sort), ".desc") == q.sortDesc <==> SortTravels(o.commons)
    ensures ReadIds(Get(m, Ids)) == o.listIds <==> IdsTravel(o.listIds)
    ensures Get(m, SearchName) == o.textSearch
    ensures Get(m, Filter) == match o.selection case Some(s) => s.feature + [':'] + s.value case None => ""
  {
    GetOne(o, extra, m, Sort);
    GetOne(o, extra, m, Ids);
    GetOne(o, extra, m, SearchName);
    GetOne(o, extra, m, Filter);
    SortReadsBack(o.commons);
    IdsReadBack(o.listIds);
  }
}
