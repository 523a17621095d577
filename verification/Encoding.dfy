/** The parameter codec and the ids that carry result modifiers (lib/query/modifier/encoding.go).

    Parameters are printed as application/x-www-form-urlencoded (WHATWG URL Standard, section 5):
    keys in sorted order, bytes escaped as in section 2.1 of RFC 3986 with '+' for a space.  Parsing
    is Go's: pieces between '&' that are empty are skipped, a ';' or a bad escape is an error. */
module Encoding {
  import opened GoStrings

  type Params = map<string, seq<string>>

  predicate AllBytes(m: Params) {
    forall k | k in m :: IsBytes(k) && forall v | v in m[k] :: IsBytes(v)
  }

  /** Parameters as Go has them: all keys and values are byte strings. */
  type StrParams = m: Params | AllBytes(m)

  // ----- escaping -----

  predicate Unreserved(c: char) {
    'a' <= c <= 'z' || 'A' <= c <= 'Z' || '0' <= c <= '9' || c == '-' || c == '_' || c == '.' || c == '~'
  }

  function HexDigit(n: nat): char
    requires n < 16
  {
    if n < 10 then ('0' as int + n) as char else ('A' as int + n - 10) as char
  }

  function HexValue(c: char): Option<nat> {
    if '0' <= c <= '9' then Some(c as int - '0' as int)
    else if 'a' <= c <= 'f' then Some(c as int - 'a' as int + 10)
    else if 'A' <= c <= 'F' then Some(c as int - 'A' as int + 10)
    else None
  }

  function EscapeByte(c: char): string {
    if Unreserved(c) then [c]
    else if c == ' ' then "+"
    else ['%', HexDigit(c as int / 16 % 16), HexDigit(c as int % 16)]
  }

  /** url.QueryEscape */
  function Escape(s: string): string {
    if s == "" then "" else EscapeByte(s[0]) + Escape(s[1..])
  }

  /** url.QueryUnescape */
  function Unescape(s: string): Option<string> {
    if s == "" then Some("")
    else if s[0] == '%' then
      if |s| < 3 || HexValue(s[1]).None? || HexValue(s[2]).None? then None
      else
        match Unescape(s[3..])
        case None => None
        case Some(rest) => Some([(16 * HexValue(s[1]).value + HexValue(s[2]).value) as char] + rest)
    else
      match Unescape(s[1..])
      case None => None
      case Some(rest) => Some([if s[0] == '+' then ' ' else s[0]] + rest)
  }

  lemma HexReadsBack(n: nat)
    requires n < 16
    ensures HexValue(HexDigit(n)) == Some(n)
  {}

  lemma UnescapeByte(c: char, rest: string)
    requires c as int < 256
    ensures Unescape(EscapeByte(c) + rest) ==
            match Unescape(rest) case None => None case Some(r) => Some([c] + r)
  {
    var s := EscapeByte(c) + rest;
    if Unreserved(c) || c == ' ' {
      assert s[1..] == rest;
    } else {
      var n := c as int;
      HexReadsBack(n / 16 % 16);
      HexReadsBack(n % 16);
      assert 16 * (n / 16 % 16) + n % 16 == n;
      assert s[0] == '%' && s[1] == HexDigit(n / 16 % 16) && s[2] == HexDigit(n % 16) && s[3..] == rest;
    }
  }

  lemma {:induction false} UnescapeUndoesEscape(s: Str)
    ensures Unescape(Escape(s)) == Some(s)
  {
    if s != "" {
      UnescapeUndoesEscape(s[1..]);
      UnescapeByte(s[0], Escape(s[1..]));
      assert s == [s[0]] + s[1..];
    }
  }

  /** Escaped text holds none of the characters the formats give a meaning. */
  lemma {:induction false} EscapeIsPlain(s: string)
    ensures forall c | c in Escape(s) :: Unreserved(c) || c == '+' || c == '%'
  {
    if s != "" {
      EscapeIsPlain(s[1..]);
    }
  }

  lemma {:induction false} UnescapeGivesBytes(s: string)
    requires IsBytes(s) && Unescape(s).Some?
    ensures IsBytes(Unescape(s).value)
  {
    if s != "" {
      UnescapeGivesBytes(if s[0] == '%' then s[3..] else s[1..]);
    }
  }

  // ----- printing -----

  datatype Pair = Pair(key: string, value: string)

  function PairsOf(key: string, values: seq<string>): seq<Pair> {
    if values == [] then [] else [Pair(key, values[0])] + PairsOf(key, values[1..])
  }

  function Flatten(m: Params, keys: seq<string>): seq<Pair>
    requires forall k | k in keys :: k in m
  {
    if keys == [] then [] else PairsOf(keys[0], m[keys[0]]) + Flatten(m, keys[1..])
  }

  function Segment(p: Pair): string {
    Escape(p.key) + ['='] + Escape(p.value)
  }

  function Print(ps: seq<Pair>): string {
    if |ps| == 0 then ""
    else if |ps| == 1 then Segment(ps[0])
    else Segment(ps[0]) + ['&'] + Print(ps[1..])
  }

  /** url.Values.Encode */
  function Encode(m: Params): string {
    Print(Flatten(m, SortedKeys(m.Keys)))
  }

  // ----- parsing -----

  function Add(m: Params, key: string, value: string): Params {
    m[key := (if key in m then m[key] else []) + [value]]
  }

  /** The loop of url.ParseQuery; None when it met any error. */
  function ParseInto(m: Params, s: string): Option<Params>
    decreases |s|
  {
    if s == "" then Some(m)
    else
      var p := Cut(s, '&');
      if ';' in p.before then None
      else if p.before == "" then ParseInto(m, p.after)
      else
        var kv := Cut(p.before, '=');
        match (Unescape(kv.before), Unescape(kv.after))
        case (Some(key), Some(value)) => ParseInto(Add(m, key, value), p.after)
        case _ => None
  }

  /** url.ParseQuery */
  function ParseQuery(s: string): Option<Params> {
    ParseInto(map[], s)
  }

  function AddAll(m: Params, ps: seq<Pair>): Params
    decreases |ps|
  {
    if ps == [] then m else AddAll(Add(m, ps[0].key, ps[0].value), ps[1..])
  }

  predicate PairsAreBytes(ps: seq<Pair>) {
    forall i | 0 <= i < |ps| :: IsBytes(ps[i].key) && IsBytes(ps[i].value)
  }

  lemma SegmentShape(p: Pair)
    ensures Segment(p) != "" && '&' !in Segment(p) && ';' !in Segment(p)
    ensures Cut(Segment(p), '=') == Pieces(Escape(p.key), Escape(p.value), true)
  {
    var k, v := Escape(p.key), Escape(p.value);
    EscapeIsPlain(p.key);
    EscapeIsPlain(p.value);
    assert '&' !in k && ';' !in k && '=' !in k;
    assert '&' !in v && ';' !in v;
    CutAt(k, '=', v);
  }

  lemma {:induction false} ParseUndoesPrint(m: Params, ps: seq<Pair>)
    requires PairsAreBytes(ps)
    ensures ParseInto(m, Print(ps)) == Some(AddAll(m, ps))
    decreases |ps|
  {
    if ps != [] {
      SegmentShape(ps[0]);
      UnescapeUndoesEscape(ps[0].key);
      UnescapeUndoesEscape(ps[0].value);
      var next := Add(m, ps[0].key, ps[0].value);
      if |ps| == 1 {
        assert ps[1..] == [];
        assert ParseInto(next, "") == Some(next);
      } else {
        CutAt(Segment(ps[0]), '&', Print(ps[1..]));
        ParseUndoesPrint(next, ps[1..]);
      }
    }
  }

  /** The parameters without the keys that have no values. */
  function Cleaned(m: Params): Params {
    map k | k in m && m[k] != [] :: m[k]
  }

  lemma {:induction false} AddAllSplit(m: Params, a: seq<Pair>, b: seq<Pair>)
    ensures AddAll(m, a + b) == AddAll(AddAll(m, a), b)
    decreases |a|
  {
    if a == [] {
      assert a + b == b;
    } else {
      assert (a + b)[1..] == a[1..] + b;
      AddAllSplit(Add(m, a[0].key, a[0].value), a[1..], b);
    }
  }

  lemma {:induction false} AddPairs(m: Params, key: string, values: seq<string>)
    requires values != []
    ensures AddAll(m, PairsOf(key, values)) == m[key := (if key in m then m[key] else []) + values]
    decreases |values|
  {
    var ps, had := PairsOf(key, values), if key in m then m[key] else [];
    assert ps[1..] == PairsOf(key, values[1..]);
    if |values| == 1 {
      assert values == [values[0]];
      assert AddAll(m, ps) == AddAll(Add(m, key, values[0]), []);
    } else {
      AddPairs(Add(m, key, values[0]), key, values[1..]);
      assert had + [values[0]] + values[1..] == had + values;
    }
  }

  /** What adding all pairs of a key does to parameters that do not have the key. */
  function WithKey(m: Params, key: string, values: seq<string>): Params {
    if values == [] then m else m[key := values]
  }

  lemma AddKey(acc: Params, key: string, values: seq<string>)
    requires key !in acc
    ensures AddAll(acc, PairsOf(key, values)) == WithKey(acc, key, values)
  {
    if values != [] {
      AddPairs(acc, key, values);
      assert [] + values == values;
    }
  }

  /** The keys' part of the parameters, less the keys without values. */
  ghost function Part(m: Params, keys: seq<string>): Params
    requires forall k | k in keys :: k in m
  {
    map k | k in keys && m[k] != [] :: m[k]
  }

  lemma PartStep(acc: Params, m: Params, keys: seq<string>)
    requires keys != [] && forall k | k in keys :: k in m
    requires keys[0] !in keys[1..]
    ensures WithKey(acc, keys[0], m[keys[0]]) + Part(m, keys[1..]) == acc + Part(m, keys)
  {
    assert forall k :: k in keys <==> k == keys[0] || k in keys[1..];
  }

  lemma {:induction false} AddFlattened(acc: Params, m: Params, keys: seq<string>)
    requires forall k | k in keys :: k in m && k !in acc
    requires forall i, j | 0 <= i < j < |keys| :: keys[i] != keys[j]
    ensures AddAll(acc, Flatten(m, keys)) == acc + Part(m, keys)
    decreases |keys|
  {
    if keys == [] {
      assert Part(m, keys) == map[];
    } else {
      var k, rest := keys[0], keys[1..];
      AddAllSplit(acc, PairsOf(k, m[k]), Flatten(m, rest));
      AddKey(acc, k, m[k]);
      AddFlattened(WithKey(acc, k, m[k]), m, rest);
      PartStep(acc, m, keys);
    }
  }

  lemma {:induction false} FlattenIsBytes(m: Params, keys: seq<string>)
    requires AllBytes(m) && forall k | k in keys :: k in m
    ensures PairsAreBytes(Flatten(m, keys))
  {
    if keys != [] {
      PairsOfAreBytes(keys[0], m[keys[0]]);
      FlattenIsBytes(m, keys[1..]);
    }
  }

  lemma {:induction false} PairsOfAreBytes(key: string, values: seq<string>)
    requires IsBytes(key) && forall v | v in values :: IsBytes(v)
    ensures PairsAreBytes(PairsOf(key, values))
  {
    if values != [] {
      PairsOfAreBytes(key, values[1..]);
    }
  }

  /** Whatever the order of the keys, parsing the printed pairs gives back the parameters, less the
      keys without values. */
  lemma PrintedReadsBack(m: StrParams, keys: seq<string>)
    requires forall k :: k in keys <==> k in m
    requires forall i, j | 0 <= i < j < |keys| :: keys[i] != keys[j]
    ensures ParseQuery(Print(Flatten(m, keys))) == Some(Cleaned(m))
  {
    FlattenIsBytes(m, keys);
    ParseUndoesPrint(map[], Flatten(m, keys));
    AddFlattened(map[], m, keys);
    assert map[] + Part(m, keys) == Cleaned(m);
  }

  lemma ParseUndoesEncode(m: StrParams)
    ensures ParseQuery(Encode(m)) == Some(Cleaned(m))
  {
    SortedKeysDiffer(m.Keys);
    PrintedReadsBack(m, SortedKeys(m.Keys));
  }

  /** Parameters as parsing yields them: no key without values, and only bytes. */
  ghost predicate Parsed(m: Params) {
    (forall k | k in m :: m[k] != []) && AllBytes(m)
  }

  lemma AddKeepsParsed(m: Params, key: string, value: string)
    requires Parsed(m) && IsBytes(key) && IsBytes(value)
    ensures Parsed(Add(m, key, value))
  {}

  lemma PartsAreBytes(before: string, c: char, after: string)
    requires IsBytes(before + [c] + after)
    ensures IsBytes(before) && IsBytes(after)
  {
    var s := before + [c] + after;
    assert forall i | 0 <= i < |before| :: before[i] == s[i];
    assert forall i | 0 <= i < |after| :: after[i] == s[|before| + 1 + i];
  }

  lemma CutGivesBytes(s: string, c: char)
    requires IsBytes(s)
    ensures IsBytes(Cut(s, c).before) && IsBytes(Cut(s, c).after)
  {
    var p := Cut(s, c);
    if p.found {
      PartsAreBytes(p.before, c, p.after);
    }
  }

  lemma {:induction false} ParsedIsClean(m: Params, s: string)
    requires Parsed(m) && IsBytes(s) && ParseInto(m, s).Some?
    ensures Parsed(ParseInto(m, s).value)
    decreases |s|
  {
    if s != "" {
      var p := Cut(s, '&');
      CutGivesBytes(s, '&');
      if p.before == "" {
        ParsedIsClean(m, p.after);
      } else {
        var kv := Cut(p.before, '=');
        CutGivesBytes(p.before, '=');
        UnescapeGivesBytes(kv.before);
        UnescapeGivesBytes(kv.after);
        var key, value := Unescape(kv.before).value, Unescape(kv.after).value;
        AddKeepsParsed(m, key, value);
        ParsedIsClean(Add(m, key, value), p.after);
      }
    }
  }

  // ----- ids with modifiers -----

  const SEPARATOR := '$'

  datatype Modified = Modified(pureId: string, modifiers: Option<Params>)

  function SplitModifier(id: string): Modified {
    var p := Cut(id, SEPARATOR);
    Modified(p.before, if p.found then ParseQuery(p.after) else None)
  }

  function JoinModifier(pureId: string, modifiers: Params): string {
    pureId + [SEPARATOR] + Encode(modifiers)
  }

  /** Splitting a joined id gives back both parts exactly when the pure id has no separator and
      every parameter has a value. */
  lemma SplitUndoesJoinExactly(pureId: Str, m: StrParams)
    ensures SplitModifier(JoinModifier(pureId, m)) == Modified(pureId, Some(m))
       <==> (SEPARATOR !in pureId && forall k | k in m :: m[k] != [])
  {
    if SEPARATOR !in pureId {
      JoinedSplits(pureId, m);
      assert Cleaned(m) == m <==> forall k | k in m :: m[k] != [] by {
        if k :| k in m && m[k] == [] { assert k !in Cleaned(m); }
      }
    }
  }

  lemma JoinedSplits(pureId: Str, m: StrParams)
    requires SEPARATOR !in pureId
    ensures SplitModifier(JoinModifier(pureId, m)) == Modified(pureId, Some(Cleaned(m)))
  {
    CutAt(pureId, SEPARATOR, Encode(m));
    ParseUndoesEncode(m);
  }

  // ----- how it looks -----

  /** A byte is itself, a plus for a space, or a percent sign and two hexadecimal digits. */
  lemma EscapedBytes(c: char)
    requires c as int < 256
    ensures c in "aZ0-_.~" ==> Escape([c]) == [c]
    ensures c == ' ' ==> Escape([c]) == "+"
    ensures c == '+' ==> Escape([c]) == "%2B"
    ensures c == '&' ==> Escape([c]) == "%26"
    ensures c == '=' ==> Escape([c]) == "%3D"
    ensures c == '%' ==> Escape([c]) == "%25"
    ensures c == '$' ==> Escape([c]) == "%24"
  {
    OneEscaped(c);
    if c in "+&=%$" {
      assert HexDigit(2) == '2' && HexDigit(5) == '5' && HexDigit(13) == 'D' && HexDigit(11) == 'B';
    }
  }

  lemma OneEscaped(c: char)
    ensures Escape([c]) == EscapeByte(c)
  {
    assert [c][1..] == "";
  }

  /** Texts are escaped byte by byte. */
  lemma {:induction false} EscapeJoined(s: string, t: string)
    ensures Escape(s + t) == Escape(s) + Escape(t)
    decreases |s|
  {
    if s == "" {
      assert s + t == t;
    } else {
      assert (s + t)[1..] == s[1..] + t;
      EscapeJoined(s[1..], t);
    }
  }

  /** Pairs are printed as "key=value" with "&" between them. */
  lemma PrintedPairs(p: Pair, q: Pair)
    ensures Print([]) == ""
    ensures Print([p]) == Escape(p.key) + "=" + Escape(p.value)
    ensures Print([p, q]) == Escape(p.key) + "=" + Escape(p.value) + "&" + Escape(q.key) + "=" + Escape(q.value)
  {
    assert [p, q][1..] == [q];
  }

  lemma {:induction false} FlattenJoined(m: Params, a: seq<string>, b: seq<string>)
    requires forall k | k in a + b :: k in m
    ensures Flatten(m, a + b) == Flatten(m, a) + Flatten(m, b)
    decreases |a|
  {
    if a == [] {
      assert a + b == b;
    } else {
      assert (a + b)[1..] == a[1..] + b;
      assert forall k | k in a[1..] + b :: k in a + b;
      FlattenJoined(m, a[1..], b);
    }
  }

  /** The pairs stand key by key in the order of the keys, and for each key value by value. */
  lemma EncodedInOrder(m: Params, keys: seq<string>, i: nat, v: nat)
    requires forall k | k in keys :: k in m
    requires i < |keys| && v < |m[keys[i]]|
    ensures var at := |Flatten(m, keys[..i])| + v;
      at < |Flatten(m, keys)| && Flatten(m, keys)[at] == Pair(keys[i], m[keys[i]][v])
  {
    assert keys == keys[..i] + keys[i..];
    FlattenJoined(m, keys[..i], keys[i..]);
    ValueInOrder(keys[i], m[keys[i]], v);
  }

  lemma {:induction false} ValueInOrder(key: string, values: seq<string>, v: nat)
    requires v < |values|
    ensures |PairsOf(key, values)| == |values| && PairsOf(key, values)[v] == Pair(key, values[v])
    decreases |values|
  {
    if v > 0 {
      ValueInOrder(key, values[1..], v - 1);
    } else if |values| > 1 {
      ValueInOrder(key, values[1..], 0);
    }
  }

  /** An id is taken apart at its first "$", and put together with one. */
  lemma SeparatedByDollar(pureId: string, more: string, m: Params)
    requires '$' !in pureId
    ensures SplitModifier(pureId) == Modified(pureId, None)
    ensures SplitModifier(pureId + "$" + more) == Modified(pureId, ParseQuery(more))
    ensures JoinModifier(pureId, m) == pureId + "$" + Encode(m)
  {
    CutAt(pureId, '$', more);
  }
}
