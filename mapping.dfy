/**
 * A Python `dict` filled by a loop of `d[key] = value` assignments: a later
 * assignment to the same key replaces the earlier one.
 */
module Mapping {

  /** The dictionary left after assigning the pairs of `ps` in order. */
  function FromPairs(ps: seq<(string, string)>): map<string, string> {
    if ps == [] then map[]
    else
      var n := |ps| - 1;
      FromPairs(ps[..n])[ps[n].0 := ps[n].1]
  }

  /** The keys of the dictionary are the keys assigned. */
  lemma {:induction false} KeysFromPairs(ps: seq<(string, string)>)
    ensures FromPairs(ps).Keys == set p | p in ps :: p.0
    decreases |ps|
  {
    if ps != [] {
      var n := |ps| - 1;
      KeysFromPairs(ps[..n]);
      assert forall p :: p in ps <==> p in ps[..n] || p == ps[n];
    }
  }

  /** One more assignment updates the dictionary at its key and nowhere else. */
  lemma AssignLast(ps: seq<(string, string)>, p: (string, string))
    ensures FromPairs(ps + [p]) == FromPairs(ps)[p.0 := p.1]
  {
    assert (ps + [p])[..|ps|] == ps;
  }

  /** Every value of the dictionary is the value of one of the assignments. */
  lemma {:induction false} ValuesFromPairs(ps: seq<(string, string)>)
    ensures forall k :: k in FromPairs(ps) ==> (k, FromPairs(ps)[k]) in ps
    decreases |ps|
  {
    if ps != [] {
      var n := |ps| - 1;
      ValuesFromPairs(ps[..n]);
      assert forall p :: p in ps[..n] ==> p in ps;
    }
  }

  /** Index `i` holds the last assignment to its key. */
  ghost predicate IsLastFor(ps: seq<(string, string)>, i: nat) {
    i < |ps| && forall j :: i < j < |ps| ==> ps[j].0 != ps[i].0
  }

  /** The value kept for a key is the one of its last assignment. */
  lemma {:induction false} LastAssignmentWins(ps: seq<(string, string)>, i: nat)
    requires IsLastFor(ps, i)
    ensures ps[i].0 in FromPairs(ps) && FromPairs(ps)[ps[i].0] == ps[i].1
    decreases |ps|
  {
    var n := |ps| - 1;
    if i < n {
      assert IsLastFor(ps[..n], i);
      LastAssignmentWins(ps[..n], i);
    }
  }

  /** No key is assigned twice. */
  ghost predicate DistinctKeys(ps: seq<(string, string)>) {
    forall i, j :: 0 <= i < j < |ps| ==> ps[i].0 != ps[j].0
  }

  /** With every key assigned once, the order of the assignments does not matter. */
  lemma OrderIrrelevant(ps: seq<(string, string)>, qs: seq<(string, string)>)
    requires DistinctKeys(ps) && DistinctKeys(qs)
    requires forall p :: p in ps <==> p in qs
    ensures FromPairs(ps) == FromPairs(qs)
  {
    var a, b := FromPairs(ps), FromPairs(qs);
    KeysFromPairs(ps);
    KeysFromPairs(qs);
    assert a.Keys == b.Keys;
    forall k | k in a ensures a[k] == b[k] {
      var i :| 0 <= i < |ps| && ps[i].0 == k;
      var j :| 0 <= j < |qs| && qs[j] == ps[i];
      assert IsLastFor(ps, i) && IsLastFor(qs, j);
      LastAssignmentWins(ps, i);
      LastAssignmentWins(qs, j);
    }
  }
}
