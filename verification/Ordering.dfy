/** The order that `sort.Strings` and the SQL comparisons on identifiers use, and
    strictly ascending lists: the canonical form of a set of identifiers. */
module Ordering {

  /** Lexicographic order on strings. */
  predicate Less(a: string, b: string) {
    b != "" && (a == "" || a[0] < b[0] || (a[0] == b[0] && Less(a[1..], b[1..])))
  }

  /** The first position at which two strings differ decides; a string comes before those that continue it. */
  lemma {:induction false} LessAtFirstDifference(a: string, b: string, common: string)
    requires common <= a && common <= b && |common| < |b|
    requires |common| < |a| ==> a[|common|] != b[|common|]
    ensures Less(a, b) <==> |common| == |a| || a[|common|] < b[|common|]
  {
    if common != "" { LessAtFirstDifference(a[1..], b[1..], common[1..]); }
  }

  lemma {:induction false} LessTrichotomy(a: string, b: string)
    ensures Less(a, b) || a == b || Less(b, a)
    ensures !(Less(a, b) && Less(b, a))
    ensures a == b ==> !Less(a, b)
  {
    if a != "" && b != "" && a[0] == b[0] {
      LessTrichotomy(a[1..], b[1..]);
      assert a == [a[0]] + a[1..] && b == [b[0]] + b[1..];
    }
  }

  lemma {:induction false} LessTransitive(a: string, b: string, c: string)
    requires Less(a, b) && Less(b, c)
    ensures Less(a, c)
  {
    if a != "" && a[0] == b[0] && b[0] == c[0] {
      LessTransitive(a[1..], b[1..], c[1..]);
    }
  }

  predicate Ascending(s: seq<string>) {
    forall i, j :: 0 <= i < j < |s| ==> Less(s[i], s[j])
  }

  predicate NoRepeats(s: seq<string>) {
    forall i, j :: 0 <= i < j < |s| ==> s[i] != s[j]
  }

  function Elements(s: seq<string>): set<string> {
    set x | x in s
  }

  lemma PrependAscends(x: string, s: seq<string>)
    requires Ascending(s) && forall y :: y in s ==> Less(x, y)
    ensures Ascending([x] + s) && Elements([x] + s) == {x} + Elements(s)
  {
  }

  lemma BelowAll(x: string, s: seq<string>)
    requires Ascending(s) && s != [] && (x == s[0] || Less(x, s[0]))
    ensures forall y :: y in s[1..] ==> Less(x, y)
  {
    forall y | y in s[1..] ensures Less(x, y) {
      var j :| 0 <= j < |s| - 1 && s[1..][j] == y;
      assert Less(s[0], s[j + 1]);
      if x != s[0] { LessTransitive(x, s[0], y); }
    }
  }

  /** Puts `x` at its place in an ascending list; a list that has it already is kept. */
  function Insert(x: string, s: seq<string>): (r: seq<string>)
    requires Ascending(s)
    ensures Ascending(r) && Elements(r) == Elements(s) + {x}
  {
    if s == [] then [x]
    else
      assert s == [s[0]] + s[1..];
      if x == s[0] then s
      else if Less(x, s[0]) then
        BelowAll(x, s);
        PrependAscends(x, s);
        [x] + s
      else
        var rest := Insert(x, s[1..]);
        LessTrichotomy(x, s[0]);
        BelowAll(s[0], s);
        assert forall y :: y in rest ==> y in Elements(rest);
        PrependAscends(s[0], rest);
        [s[0]] + rest
  }

  /** Sorts a list and drops repetitions. */
  function Sorted(s: seq<string>): (r: seq<string>)
    ensures Ascending(r) && Elements(r) == Elements(s)
  {
    if s == [] then [] else
      assert s == [s[0]] + s[1..];
      Insert(s[0], Sorted(s[1..]))
  }

  lemma AscendingHead(s: seq<string>, x: string)
    requires Ascending(s) && x in s && forall y :: y in s ==> y == x || Less(x, y)
    ensures s[0] == x
  {
    var i :| 0 <= i < |s| && s[i] == x;
    LessTrichotomy(s[0], x);
    if i > 0 { assert Less(s[0], s[i]); }
  }

  /** A set has only one ascending list. */
  lemma {:induction false} AscendingUnique(s: seq<string>, t: seq<string>)
    requires Ascending(s) && Ascending(t) && Elements(s) == Elements(t)
    ensures s == t
  {
    NoElements(s);
    NoElements(t);
    if s != [] {
      forall y | y in t ensures y == s[0] || Less(s[0], y) { assert y in Elements(s); }
      assert s[0] in Elements(t);
      AscendingHead(t, s[0]);
      AscendingTail(s);
      AscendingTail(t);
      AscendingUnique(s[1..], t[1..]);
    }
  }

  lemma NoElements(s: seq<string>)
    ensures Elements(s) == {} <==> s == []
  {
    if s != [] { assert s[0] in Elements(s); }
  }

  lemma AscendingTail(s: seq<string>)
    requires Ascending(s) && s != []
    ensures Elements(s[1..]) == Elements(s) - {s[0]}
  {
    LessTrichotomy(s[0], s[0]);
    assert s == [s[0]] + s[1..];
    forall y | y in s[1..] ensures y != s[0] {
      var j :| 0 <= j < |s| - 1 && s[1..][j] == y;
      assert Less(s[0], s[j + 1]);
      LessTrichotomy(s[0], y);
    }
  }

  /** Every non-empty finite set of identifiers has a largest element. */
  lemma {:induction false} LargestExists(s: set<string>) returns (m: string)
    requires s != {}
    ensures m in s && forall x :: x in s ==> x == m || Less(x, m)
  {
    var e :| e in s;
    if s == {e} {
      m := e;
    } else {
      var m' := LargestExists(s - {e});
      LessTrichotomy(e, m');
      m := if Less(e, m') then m' else e;
      forall x | x in s ensures x == m || Less(x, m) {
        if x != e && m == e && x != m' { LessTransitive(x, m', e); }
      }
    }
  }

  ghost predicate IsLeast(m: string, s: set<string>) {
    m in s && forall x :: x in s ==> x == m || Less(m, x)
  }

  /** The ascending list of a set of identifiers. */
  ghost predicate Lists(ids: seq<string>, s: set<string>) {
    Ascending(ids) && Elements(ids) == s
  }

  lemma LeastIsUnique(m: string, n: string, s: set<string>)
    requires IsLeast(m, s) && IsLeast(n, s)
    ensures m == n
  {
    LessTrichotomy(m, n);
  }

  lemma {:induction false} LeastExists(s: set<string>)
    requires s != {}
    ensures exists m :: IsLeast(m, s)
  {
    var e :| e in s;
    if s == {e} {
      assert IsLeast(e, s);
    } else {
      LeastExists(s - {e});
      var m' :| IsLeast(m', s - {e});
      LessTrichotomy(e, m');
      var m := if Less(e, m') then e else m';
      forall x | x in s ensures x == m || Less(m, x) {
        if x != e && m == e && x != m' { LessTransitive(e, m', x); }
      }
      assert IsLeast(m, s);
    }
  }
}
