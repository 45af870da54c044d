/** Dates as day numbers (ordinals are never negative), finite sets of them, and their ascending
    enumeration. */
module Dates {

  type Date = nat

  function Elements(s: seq<Date>): set<Date> {
    set c | c in s
  }

  predicate Ascending(s: seq<Date>) {
    forall i :: 0 < i < |s| ==> s[i - 1] < s[i]
  }

  lemma {:induction false} AscendingAt(s: seq<Date>, i: nat, j: nat)
    requires Ascending(s) && i < j < |s|
    ensures s[i] < s[j]
  {
    if i + 1 < j {
      AscendingAt(s, i, j - 1);
    }
  }

  ghost predicate IsLeast(m: Date, s: set<Date>) {
    m in s && forall c :: c in s ==> m <= c
  }

  lemma {:induction false} LeastExists(s: set<Date>)
    requires s != {}
    ensures exists m :: IsLeast(m, s)
    decreases |s|
  {
    var x :| x in s;
    var rest := s - {x};
    if rest == {} {
      assert forall c :: c in s ==> c == x || c in rest;
      assert IsLeast(x, s);
    } else {
      LeastExists(rest);
      var m :| IsLeast(m, rest);
      assert forall c :: c in s ==> c == x || c in rest;
      assert IsLeast(if x < m then x else m, s);
    }
  }

  /** sorted(s) for a set */
  method SortedSet(s: set<Date>) returns (r: seq<Date>)
    ensures Ascending(r) && Elements(r) == s
  {
    r := [];
    var rest := s;
    while rest != {}
      invariant rest <= s && Ascending(r)
      invariant forall c :: c in r <==> c in s && c !in rest
      invariant forall i, c :: 0 <= i < |r| && c in rest ==> r[i] < c
      decreases rest
    {
      LeastExists(rest);
      var least :| least in rest && forall c :: c in rest ==> least <= c;
      r := r + [least];
      rest := rest - {least};
    }
  }
}
