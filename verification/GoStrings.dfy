/** The parts of Go's `strings` and `strconv` packages that the repository leans on.

    A Go string is a sequence of bytes.  Here it is a sequence of characters, and `Str` is the
    type of those whose characters are bytes; only the percent-encoding needs the distinction. */
module GoStrings {

  datatype Option<+T> = None | Some(value: T)

  predicate IsBytes(s: string) {
    forall i | 0 <= i < |s| :: s[i] as int < 256
  }

  type Str = s: string | IsBytes(s)

  // ----- cutting, splitting and joining at a separator character -----

  datatype Pieces = Pieces(before: string, after: string, found: bool)

  /** strings.Cut for a one-character separator. */
  function Cut(s: string, c: char): (p: Pieces)
    ensures p.found <==> c in s
    ensures c !in p.before
    ensures s == if p.found then p.before + [c] + p.after else p.before
    ensures !p.found ==> p.after == ""
  {
    if s == "" then Pieces("", "", false)
    else if s[0] == c then Pieces("", s[1..], true)
    else
      var p := Cut(s[1..], c);
      Pieces([s[0]] + p.before, p.after, p.found)
  }

  /** The cut is determined by the separator's first occurrence. */
  lemma {:induction false} CutAt(a: string, c: char, b: string)
    requires c !in a
    ensures Cut(a + [c] + b, c) == Pieces(a, b, true)
  {
    var s := a + [c] + b;
    if a == "" {
      assert s[1..] == b;
    } else {
      assert s[1..] == a[1..] + [c] + b;
      CutAt(a[1..], c, b);
    }
  }

  /** strings.Split for a one-character separator. */
  function Split(s: string, c: char): (parts: seq<string>)
    ensures |parts| >= 1
    ensures parts[0] == Cut(s, c).before
    decreases |s|
  {
    var p := Cut(s, c);
    if p.found then [p.before] + Split(p.after, c) else [s]
  }

  /** strings.Join for a one-character separator. */
  function Join(parts: seq<string>, c: char): string {
    if |parts| == 0 then ""
    else if |parts| == 1 then parts[0]
    else parts[0] + [c] + Join(parts[1..], c)
  }

  /** Splitting undoes joining exactly when no part holds the separator. */
  lemma {:induction false} SplitUndoesJoin(parts: seq<string>, c: char)
    requires |parts| >= 1
    ensures Split(Join(parts, c), c) == parts <==> forall i | 0 <= i < |parts| :: c !in parts[i]
  {
    if forall i | 0 <= i < |parts| :: c !in parts[i] {
      SplitJoined(parts, c);
    } else {
      SplitPartsFree(Join(parts, c), c);
    }
  }

  lemma {:induction false} SplitJoined(parts: seq<string>, c: char)
    requires |parts| >= 1
    requires forall i | 0 <= i < |parts| :: c !in parts[i]
    ensures Split(Join(parts, c), c) == parts
  {
    if |parts| > 1 {
      CutAt(parts[0], c, Join(parts[1..], c));
      SplitJoined(parts[1..], c);
    }
  }

  lemma {:induction false} SplitPartsFree(s: string, c: char)
    ensures forall i | 0 <= i < |Split(s, c)| :: c !in Split(s, c)[i]
    decreases |s|
  {
    if Cut(s, c).found {
      SplitPartsFree(Cut(s, c).after, c);
    }
  }

  /** Joining undoes splitting, always. */
  lemma {:induction false} JoinUndoesSplit(s: string, c: char)
    ensures Join(Split(s, c), c) == s
    decreases |s|
  {
    if Cut(s, c).found {
      JoinUndoesSplit(Cut(s, c).after, c);
    }
  }

  // ----- suffixes -----

  predicate HasSuffix(s: string, t: string) {
    |s| >= |t| && s[|s| - |t|..] == t
  }

  function TrimSuffix(s: string, t: string): string {
    if HasSuffix(s, t) then s[..|s| - |t|] else s
  }

  predicate HasPrefix(s: string, t: string) {
    |s| >= |t| && s[..|t|] == t
  }

  // ----- replacing -----

  /** strings.ReplaceAll(s, t, "") for a non-empty `t`: scan from the left, drop each match. */
  function RemoveAll(s: string, t: string): string
    requires t != ""
    decreases |s|
  {
    if s == "" then ""
    else if HasPrefix(s, t) then RemoveAll(s[|t|..], t)
    else [s[0]] + RemoveAll(s[1..], t)
  }

  lemma {:induction false} RemoveAbsent(s: string, t: string)
    requires t != "" && exists c :: c in t && c !in s
    ensures RemoveAll(s, t) == s
  {
    var c :| c in t && c !in s;
    if s != "" {
      assert !HasPrefix(s, t);
      assert c !in s[1..];
      RemoveAbsent(s[1..], t);
    }
  }

  // ----- the order of strings (byte-wise, as OpenSearch sorts keywords and Go sorts keys) -----

  predicate Below(a: string, b: string) {
    b != "" && (a == "" || a[0] < b[0] || (a[0] == b[0] && Below(a[1..], b[1..])))
  }

  lemma {:induction false} BelowTotal(a: string, b: string)
    ensures a != b ==> Below(a, b) || Below(b, a)
    ensures !(Below(a, b) && Below(b, a))
    ensures !Below(a, a)
  {
    if a != "" {
      BelowTotal(a[1..], a[1..]);
      if b != "" && a[0] == b[0] {
        BelowTotal(a[1..], b[1..]);
        assert a == [a[0]] + a[1..] && b == [b[0]] + b[1..];
      }
    }
  }

  lemma {:induction false} BelowTransitive(a: string, b: string, c: string)
    requires Below(a, b) && Below(b, c)
    ensures Below(a, c)
  {
    if a != "" && a[0] == b[0] && b[0] == c[0] {
      BelowTransitive(a[1..], b[1..], c[1..]);
    }
  }

  /** The order is that of the first byte that differs, and a string comes before what it begins. */
  lemma {:induction false} BelowMeans(a: string, b: string)
    ensures Below(a, b) <==>
            || (|a| < |b| && a == b[..|a|])
            || exists i: nat :: FirstDifference(a, b, i) && a[i] < b[i]
  {
    if a != "" && b != "" && a[0] == b[0] {
      BelowMeans(a[1..], b[1..]);
      assert |a| < |b| ==> (a == b[..|a|] <==> a[1..] == b[1..][..|a| - 1]) by {
        if |a| < |b| {
          assert a == [a[0]] + a[1..] && b[..|a|] == [b[0]] + b[1..][..|a| - 1];
        }
      }
      forall i: nat ensures FirstDifference(a, b, i + 1) <==> FirstDifference(a[1..], b[1..], i) {
        DifferenceShifts(a, b, i);
      }
      if i: nat :| FirstDifference(a, b, i) && a[i] < b[i] {
        assert i > 0 && FirstDifference(a[1..], b[1..], i - 1);
      }
      if i: nat :| FirstDifference(a[1..], b[1..], i) && a[1..][i] < b[1..][i] {
        assert FirstDifference(a, b, i + 1);
      }
    } else if a != "" && b != "" {
      assert FirstDifference(a, b, 0);
      assert forall i: nat :: FirstDifference(a, b, i) ==> i == 0;
    }
  }

  predicate FirstDifference(a: string, b: string, i: nat) {
    i < |a| && i < |b| && a[..i] == b[..i] && a[i] != b[i]
  }

  lemma DifferenceShifts(a: string, b: string, i: nat)
    requires a != "" && b != "" && a[0] == b[0]
    ensures FirstDifference(a, b, i + 1) <==> FirstDifference(a[1..], b[1..], i)
  {
    if i + 1 < |a| && i + 1 < |b| {
      assert a[..i + 1] == [a[0]] + a[1..][..i] && b[..i + 1] == [b[0]] + b[1..][..i];
    }
  }

  predicate IsLeast(k: string, s: set<string>) {
    k in s && forall j | j in s :: j == k || Below(k, j)
  }

  lemma {:induction false} LeastExists(s: set<string>)
    requires s != {}
    ensures exists k :: IsLeast(k, s)
  {
    var x :| x in s;
    if s == {x} {
      assert IsLeast(x, s);
    } else {
      LeastExists(s - {x});
      var y :| IsLeast(y, s - {x});
      BelowTotal(x, y);
      if Below(y, x) {
        assert IsLeast(y, s);
      } else {
        forall j | j in s && j != x ensures Below(x, j) {
          if j != y { BelowTransitive(x, y, j); }
        }
        assert IsLeast(x, s);
      }
    }
  }

  lemma LeastUnique(s: set<string>)
    ensures forall k, j | IsLeast(k, s) && IsLeast(j, s) :: k == j
  {
    forall k, j | IsLeast(k, s) && IsLeast(j, s) ensures k == j {
      BelowTotal(k, j);
    }
  }

  /** The keys of a map in the order Go's sort.Strings gives them. */
  function SortedKeys(s: set<string>): (keys: seq<string>)
    ensures forall k :: k in keys <==> k in s
  {
    if s == {} then [] else
      LeastExists(s);
      LeastUnique(s);
      var k :| k in s && IsLeast(k, s);
      [k] + SortedKeys(s - {k})
  }

  /** They ascend. */
  lemma {:induction false} SortedKeysAscend(s: set<string>)
    ensures forall i, j | 0 <= i < j < |SortedKeys(s)| :: Below(SortedKeys(s)[i], SortedKeys(s)[j])
  {
    if s != {} {
      LeastExists(s);
      LeastUnique(s);
      var k :| k in s && IsLeast(k, s);
      SortedKeysAscend(s - {k});
      assert SortedKeys(s) == [k] + SortedKeys(s - {k});
      forall j | 0 < j < |SortedKeys(s)| ensures Below(k, SortedKeys(s)[j]) {
        assert SortedKeys(s)[j] == SortedKeys(s - {k})[j - 1];
        assert SortedKeys(s)[j] in SortedKeys(s - {k});
      }
    }
  }

  lemma SortedKeysDiffer(s: set<string>)
    ensures forall i, j | 0 <= i < j < |SortedKeys(s)| :: SortedKeys(s)[i] != SortedKeys(s)[j]
  {
    SortedKeysAscend(s);
    forall a, b | Below(a, b) ensures a != b {
      BelowTotal(a, b);
    }
  }

  // ----- decimal numbers -----

  const MAX_INT := 0x7fff_ffff_ffff_ffff
  const MIN_INT := -0x8000_0000_0000_0000

  /** Go's int on a 64-bit machine. */
  type goint = x: int | MIN_INT <= x <= MAX_INT

  /** Two's complement wrap-around of an int64 sum. */
  function Wrap(x: int): goint {
    (x - MIN_INT) % 0x1_0000_0000_0000_0000 + MIN_INT
  }

  function Digit(d: nat): char
    requires d < 10
  {
    ('0' as int + d) as char
  }

  predicate IsDigit(c: char) { '0' <= c <= '9' }

  function Digits(n: nat): (s: string)
    ensures |s| > 0 && forall i | 0 <= i < |s| :: IsDigit(s[i])
  {
    if n < 10 then [Digit(n)] else Digits(n / 10) + [Digit(n % 10)]
  }

  /** strconv.Itoa */
  function Itoa(n: int): string {
    if n < 0 then "-" + Digits(-n) else Digits(n)
  }

  function DigitsValue(s: string): Option<nat> {
    if s == "" then Some(0)
    else if !IsDigit(s[|s| - 1]) then None
    else
      match DigitsValue(s[..|s| - 1])
      case None => None
      case Some(n) => Some(10 * n + (s[|s| - 1] as int - '0' as int))
  }

  /** strconv.Atoi: an optional sign, at least one digit, and a value that fits. */
  function Atoi(s: string): Option<goint> {
    var negative := s != "" && s[0] == '-';
    var signed := negative || (s != "" && s[0] == '+');
    var digits := if signed then s[1..] else s;
    if digits == "" then None else
      match DigitsValue(digits)
      case None => None
      case Some(n) =>
        var v: int := if negative then -(n as int) else n;
        if MIN_INT <= v <= MAX_INT then Some(v) else None
  }

  lemma {:induction false} DigitsReadBack(n: nat)
    ensures DigitsValue(Digits(n)) == Some(n)
  {
    var s := Digits(n);
    if n < 10 {
      assert s[..|s| - 1] == "";
    } else {
      assert s[..|s| - 1] == Digits(n / 10);
      DigitsReadBack(n / 10);
    }
  }

  /** Decimal numbers read back, for every Go int. */
  lemma AtoiUndoesItoa(n: goint)
    ensures Atoi(Itoa(n)) == Some(n)
  {
    var m: int := n;
    if n < 0 {
      DigitsReadBack(-m);
      assert Itoa(n)[1..] == Digits(-m);
    } else {
      DigitsReadBack(n);
      assert IsDigit(Digits(n)[0]);
    }
  }
}
