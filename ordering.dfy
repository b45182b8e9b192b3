/**
 * Python's ordering of `str` values (code point by code point, a proper
 * prefix first) and `sorted()` applied to a set of strings.
 */
module StringOrder {

  /** `a < b` on Python strings. */
  predicate Less(a: string, b: string)
    decreases |a|
  {
    if a == [] then b != []
    else if b == [] then false
    else if a[0] != b[0] then a[0] < b[0]
    else Less(a[1..], b[1..])
  }

  lemma {:induction false} LessIrreflexive(a: string)
    ensures !Less(a, a)
    decreases |a|
  {
    if a != [] {
      LessIrreflexive(a[1..]);
    }
  }

  lemma {:induction false} LessTransitive(a: string, b: string, c: string)
    requires Less(a, b) && Less(b, c)
    ensures Less(a, c)
    decreases |a|
  {
    if a != [] && b != [] && c != [] && a[0] == b[0] && b[0] == c[0] {
      LessTransitive(a[1..], b[1..], c[1..]);
    }
  }

  lemma {:induction false} LessTotal(a: string, b: string)
    ensures a == b || Less(a, b) || Less(b, a)
    decreases |a|
  {
    if a != [] && b != [] && a[0] == b[0] {
      LessTotal(a[1..], b[1..]);
      if a[1..] == b[1..] {
        assert a == [a[0]] + a[1..] && b == [b[0]] + b[1..];
      }
    }
  }

  lemma LessAsymmetric(a: string, b: string)
    ensures !(Less(a, b) && Less(b, a))
  {
    if Less(a, b) && Less(b, a) {
      LessTransitive(a, b, a);
      LessIrreflexive(a);
    }
  }

  /** Strictly increasing, hence free of repetitions. */
  ghost predicate Sorted(ls: seq<string>) {
    forall i, j :: 0 <= i < j < |ls| ==> Less(ls[i], ls[j])
  }

  function Elems(ls: seq<string>): set<string> {
    set x | x in ls
  }

  /** Inserts `x` at its place in a sorted list. */
  function Insert(ls: seq<string>, x: string): (r: seq<string>)
    requires Sorted(ls) && x !in ls
    ensures Sorted(r)
    ensures Elems(r) == Elems(ls) + {x}
    ensures |r| == |ls| + 1
  {
    if ls == [] then [x]
    else if Less(x, ls[0]) then
      forall j | 0 <= j < |ls| ensures Less(x, ls[j]) {
        if j > 0 { LessTransitive(x, ls[0], ls[j]); }
      }
      [x] + ls
    else
      LessTotal(x, ls[0]);
      var tail := Insert(ls[1..], x);
      assert Elems(ls) == {ls[0]} + Elems(ls[1..]);
      var r := [ls[0]] + tail;
      forall i, j | 0 <= i < j < |r| ensures Less(r[i], r[j]) {
        if i == 0 {
          assert r[j] in Elems(tail);
          if r[j] != x {
            var k :| 0 <= k < |ls[1..]| && ls[1..][k] == r[j];
            assert ls[k + 1] == r[j];
          }
        }
      }
      r
  }

  lemma {:induction false} SortedExists(S: set<string>)
    ensures exists ls :: Sorted(ls) && Elems(ls) == S
    decreases |S|
  {
    if S == {} {
      assert Sorted([]) && Elems([]) == S;
    } else {
      var x :| x in S;
      SortedExists(S - {x});
      var ls :| Sorted(ls) && Elems(ls) == S - {x};
      var r := Insert(ls, x);
      assert Sorted(r) && Elems(r) == S;
    }
  }

  /** Two sorted lists with the same elements are the same list. */
  lemma {:induction false} SortedUnique(a: seq<string>, b: seq<string>)
    requires Sorted(a) && Sorted(b) && Elems(a) == Elems(b)
    ensures a == b
    decreases |a|
  {
    if a == [] {
      assert forall k :: 0 <= k < |b| ==> b[k] in Elems(b);
    } else {
      assert a[0] in Elems(b);
      assert b != [];
      assert b[0] in Elems(a);
      if a[0] != b[0] {
        var i :| 0 <= i < |b| && b[i] == a[0];
        var j :| 0 <= j < |a| && a[j] == b[0];
        assert Less(b[0], a[0]) && Less(a[0], b[0]);
        LessAsymmetric(a[0], b[0]);
      }
      forall y ensures y in Elems(a[1..]) <==> y in Elems(b[1..]) {
        if y in Elems(a[1..]) {
          var i :| 1 <= i < |a| && a[i] == y;
          LessIrreflexive(a[0]);
          assert y in Elems(b) && y != b[0];
        }
        if y in Elems(b[1..]) {
          var i :| 1 <= i < |b| && b[i] == y;
          LessIrreflexive(b[0]);
          assert y in Elems(a) && y != a[0];
        }
      }
      SortedUnique(a[1..], b[1..]);
      assert a == [a[0]] + a[1..] && b == [b[0]] + b[1..];
    }
  }

  /** `sorted(S)` for a set of strings: the one sorted list holding exactly `S`. */
  ghost function SortedList(S: set<string>): (ls: seq<string>)
    ensures Sorted(ls) && Elems(ls) == S
  {
    SortedExists(S);
    var ls :| Sorted(ls) && Elems(ls) == S;
    ls
  }

  /** `sorted(S)` computed by repeated insertion. */
  method SortSet(S: set<string>) returns (ls: seq<string>)
    ensures ls == SortedList(S)
  {
    ls := [];
    var rest := S;
    while rest != {}
      invariant Sorted(ls)
      invariant Elems(ls) + rest == S && Elems(ls) !! rest
      decreases |rest|
    {
      var x :| x in rest;
      ls := Insert(ls, x);
      rest := rest - {x};
    }
    SortedUnique(ls, SortedList(S));
  }

  /** The empty string, when present, is the first element of `sorted(S)`. */
  lemma EmptyFirst(S: set<string>)
    requires "" in S
    ensures SortedList(S) == [""] + SortedList(S - {""})
  {
    var rest := SortedList(S - {""});
    var ls := [""] + rest;
    forall i, j | 0 <= i < j < |ls| ensures Less(ls[i], ls[j]) {
      if i == 0 {
        assert ls[j] == rest[j - 1] && rest[j - 1] in Elems(rest);
      } else {
        assert ls[i] == rest[i - 1] && ls[j] == rest[j - 1];
      }
    }
    assert Elems(ls) == {""} + Elems(rest) == S by {
      assert forall x :: x in ls <==> x == "" || x in rest;
    }
    SortedUnique(ls, SortedList(S));
  }
}
