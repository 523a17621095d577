/** The ids of a list taken apart, grouped by pure id: what each group holds, and that grouping
    neither loses nor doubles any of them. */
module Grouping {

  predicate Distinct<T(==)>(s: seq<T>) {
    forall i, j | 0 <= i < j < |s| :: s[i] != s[j]
  }

  lemma {:induction false} DistinctFits<T>(a: seq<T>, b: set<T>)
    requires Distinct(a) && forall x | x in a :: x in b
    ensures |a| <= |b|
  {
    if a != [] {
      forall x | x in a[1..] ensures x in b - {a[0]} {
        var i :| 0 <= i < |a[1..]| && a[1..][i] == x;
      }
      DistinctFits(a[1..], b - {a[0]});
    }
  }

  lemma {:induction false} ElementsFit<T>(b: seq<T>)
    ensures |set x | x in b| <= |b|
  {
    var elements := set x | x in b;
    if b == [] {
      assert elements == {};
    } else {
      ElementsFit(b[1..]);
      assert elements == (set x | x in b[1..]) + {b[0]};
    }
  }

  /** Distinct members of a list are no more than the list is long. */
  lemma DistinctFitsList<T>(a: seq<T>, b: seq<T>)
    requires Distinct(a) && forall x | x in a :: x in b
    ensures |a| <= |b|
  {
    DistinctFits(a, set x | x in b);
    ElementsFit(b);
  }

  lemma DistinctCount<T>(a: seq<T>)
    requires Distinct(a)
    ensures |a| == |set x | x in a|
  {
    DistinctFits(a, set x | x in a);
    ElementsFit(a);
  }

  /** A raw id taken apart (PreparedModifyInfo); no parameters and parameters that do not parse are alike. */
  datatype Info = Info(rawId: string, pureId: string, unmodified: bool, modifier: map<string, seq<string>>)

  /** The infos with the given pure id, in their order. */
  function Select(s: seq<Info>, p: string): (chosen: seq<Info>)
    ensures forall x :: x in chosen <==> x in s && x.pureId == p
  {
    if s == [] then []
    else
      var front, last := s[..|s| - 1], s[|s| - 1];
      assert s == front + [last];
      Select(front, p) + (if last.pureId == p then [last] else [])
  }

  lemma SelectNext(s: seq<Info>, x: Info, p: string)
    ensures Select(s + [x], p) == if x.pureId == p then Select(s, p) + [x] else Select(s, p)
  {
    assert (s + [x])[..|s|] == s;
  }

  lemma Associative(a: seq<Info>, b: seq<Info>, x: Info)
    ensures a + (b + [x]) == (a + b) + [x]
  {}

  lemma {:induction false} SelectAppend(a: seq<Info>, b: seq<Info>, p: string)
    ensures Select(a + b, p) == Select(a, p) + Select(b, p)
  {
    if b == [] {
      assert a + b == a;
    } else {
      var front, last := b[..|b| - 1], b[|b| - 1];
      SelectAppend(a, front, p);
      assert b == front + [last] && a + b == (a + front) + [last];
      SelectNext(a + front, last, p);
      SelectNext(front, last, p);
      Associative(Select(a, p), Select(front, p), last);
    }
  }

  lemma {:induction false} SelectAll(s: seq<Info>, p: string)
    requires forall x | x in s :: x.pureId == p
    ensures Select(s, p) == s
  {
    if s != [] {
      var front := s[..|s| - 1];
      assert s == front + [s[|s| - 1]];
      SelectAll(front, p);
    }
  }

  lemma SelectNone(s: seq<Info>, p: string)
    requires forall x | x in s :: x.pureId != p
    ensures Select(s, p) == []
  {
    var chosen := Select(s, p);
    assert forall i | 0 <= i < |chosen| :: chosen[i] in chosen;
  }

  /** The infos group by group, the groups in the order of the keys. */
  function Regrouped(keys: seq<string>, s: seq<Info>): (all: seq<Info>)
    ensures forall x :: x in all <==> x in s && x.pureId in keys
  {
    if keys == [] then []
    else
      var front, last := keys[..|keys| - 1], keys[|keys| - 1];
      assert keys == front + [last];
      Regrouped(front, s) + Select(s, last)
  }

  lemma MultisetOneMore(a: seq<Info>, b: seq<Info>, c: seq<Info>, m: multiset<Info>, x: Info)
    requires multiset(b) == multiset(a) + m
    ensures multiset(b + c) == multiset(a + c) + m
    ensures multiset(a + (c + [x])) == multiset(a + c) + multiset{x}
  {
    assert a + (c + [x]) == (a + c) + [x];
  }

  /** One more info appears once more if its pure id is asked for, and nothing else changes. */
  lemma {:induction false} RegroupOneMore(keys: seq<string>, s: seq<Info>, x: Info)
    requires Distinct(keys)
    ensures multiset(Regrouped(keys, s + [x])) ==
            multiset(Regrouped(keys, s)) + (if x.pureId in keys then multiset{x} else multiset{})
  {
    if keys != [] {
      var front, last := keys[..|keys| - 1], keys[|keys| - 1];
      assert keys == front + [last];
      var m := if x.pureId in front then multiset{x} else multiset{};
      RegroupOneMore(front, s, x);
      SelectNext(s, x, last);
      MultisetOneMore(Regrouped(front, s), Regrouped(front, s + [x]), Select(s, last), m, x);
      if x.pureId == last {
        assert x.pureId !in front;
        MultisetOneMore(Regrouped(front, s), Regrouped(front, s + [x]), Select(s, last) + [x], m, x);
      }
    }
  }

  lemma {:induction false} RegroupNothing(keys: seq<string>)
    ensures Regrouped(keys, []) == []
  {
    if keys != [] {
      RegroupNothing(keys[..|keys| - 1]);
    }
  }

  /** Grouping drops and doubles no info whose pure id is asked for. */
  lemma {:induction false} GroupingKeepsAll(keys: seq<string>, s: seq<Info>)
    requires Distinct(keys) && forall x | x in s :: x.pureId in keys
    ensures multiset(Regrouped(keys, s)) == multiset(s)
  {
    if s == [] {
      RegroupNothing(keys);
    } else {
      var front, last := s[..|s| - 1], s[|s| - 1];
      assert s == front + [last];
      GroupingKeepsAll(keys, front);
      RegroupOneMore(keys, front, last);
    }
  }

  /** Grouping what is grouped already gives the same groups. */
  lemma {:induction false} SelectRegrouped(keys: seq<string>, s: seq<Info>, p: string)
    requires Distinct(keys)
    ensures Select(Regrouped(keys, s), p) == if p in keys then Select(s, p) else []
  {
    if keys != [] {
      var front, last := keys[..|keys| - 1], keys[|keys| - 1];
      assert keys == front + [last];
      var group := Select(s, last);
      SelectRegrouped(front, s, p);
      SelectAppend(Regrouped(front, s), group, p);
      if p == last {
        SelectAll(group, p);
      } else {
        SelectNone(group, p);
      }
    }
  }
}
