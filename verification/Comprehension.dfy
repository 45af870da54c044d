/** Filtering comprehensions [g(x) for x in xs if p(x)], and how they react to reordering and to
    pointwise changes of their source. */
module Comprehension {

  datatype Option<+T> = None | Some(value: T)

  datatype Result<+T, +E> = Ok(value: T) | Err(error: E)

  function Gather<A, B>(s: seq<A>, f: A -> Option<B>): seq<B> {
    if s == [] then []
    else (if f(s[0]).Some? then [f(s[0]).value] else []) + Gather(s[1..], f)
  }

  lemma Associative<T>(a: seq<T>, b: seq<T>, c: seq<T>)
    ensures (a + b) + c == a + (b + c)
  {
  }

  lemma {:induction false} GatherSplit<A, B>(s: seq<A>, t: seq<A>, f: A -> Option<B>)
    ensures Gather(s + t, f) == Gather(s, f) + Gather(t, f)
  {
    if s == [] {
      assert s + t == t;
    } else {
      var head := if f(s[0]).Some? then [f(s[0]).value] else [];
      assert (s + t)[0] == s[0] && (s + t)[1..] == s[1..] + t;
      GatherSplit(s[1..], t, f);
      Associative(head, Gather(s[1..], f), Gather(t, f));
    }
  }

  lemma GatherSnoc<A, B>(s: seq<A>, k: nat, f: A -> Option<B>)
    requires k < |s|
    ensures Gather(s[..k + 1], f) == Gather(s[..k], f) + if f(s[k]).Some? then [f(s[k]).value] else []
  {
    assert s[..k + 1] == s[..k] + [s[k]];
    GatherSplit(s[..k], [s[k]], f);
  }

  lemma GatherMove<A, B>(front: seq<A>, x: A, back: seq<A>, f: A -> Option<B>)
    ensures multiset(Gather(front + [x] + back, f)) == multiset(Gather([x], f)) + multiset(Gather(front + back, f))
  {
    GatherSplit(front + [x], back, f);
    GatherSplit(front, [x], f);
    GatherSplit(front, back, f);
    var a, b, c := Gather(front, f), Gather([x], f), Gather(back, f);
    assert Gather(front + [x] + back, f) == a + b + c;
    assert multiset(a + b + c) == multiset(a) + multiset(b) + multiset(c);
    assert multiset(a + c) == multiset(a) + multiset(c);
    assert multiset(a) + multiset(b) + multiset(c) == multiset(b) + (multiset(a) + multiset(c));
  }

  lemma RemoveAt<A>(t: seq<A>, k: nat)
    requires k < |t|
    ensures t == t[..k] + [t[k]] + t[k + 1..]
    ensures multiset(t[..k] + t[k + 1..]) == multiset(t) - multiset{t[k]}
  {
    var front, back := t[..k], t[k + 1..];
    assert t == front + [t[k]] + back;
    assert multiset(t) == multiset(front) + multiset{t[k]} + multiset(back);
  }

  lemma TakeOut<A>(s: seq<A>, t: seq<A>) returns (k: nat)
    requires s != [] && multiset(s) == multiset(t)
    ensures k < |t| && t[k] == s[0] && t == t[..k] + [s[0]] + t[k + 1..]
    ensures multiset(s[1..]) == multiset(t[..k] + t[k + 1..])
  {
    assert s[0] in multiset(t);
    k :| 0 <= k < |t| && t[k] == s[0];
    RemoveAt(t, k);
    RemoveAt(s, 0);
    assert s[..0] + s[1..] == s[1..];
  }

  /** Reordering the source only reorders the result. */
  lemma {:induction false} GatherPermutes<A, B>(s: seq<A>, t: seq<A>, f: A -> Option<B>)
    requires multiset(s) == multiset(t)
    ensures multiset(Gather(s, f)) == multiset(Gather(t, f))
  {
    if s == [] {
      assert |t| == |multiset(t)|;
    } else {
      var k := TakeOut(s, t);
      GatherPermutes(s[1..], t[..k] + t[k + 1..], f);
      GatherMove(t[..k], s[0], t[k + 1..], f);
      GatherMove([], s[0], s[1..], f);
      assert [] + [s[0]] + s[1..] == s && [] + s[1..] == s[1..];
    }
  }

  /** Only the values of f on the source matter. */
  lemma {:induction false} GatherCongruence<A, B>(s: seq<A>, f: A -> Option<B>, g: A -> Option<B>)
    requires forall x :: x in s ==> f(x) == g(x)
    ensures Gather(s, f) == Gather(s, g)
  {
    if s != [] {
      GatherCongruence(s[1..], f, g);
    }
  }

  /** Reordered source, pointwise equal functions. */
  lemma GatherAlike<A, B>(s: seq<A>, f: A -> Option<B>, t: seq<A>, g: A -> Option<B>)
    requires multiset(s) == multiset(t)
    requires forall x :: x in t ==> f(x) == g(x)
    ensures multiset(Gather(s, f)) == multiset(Gather(t, g))
  {
    GatherPermutes(s, t, f);
    GatherCongruence(t, f, g);
  }

  /** Filtering in two passes is filtering once. */
  lemma {:induction false} GatherCompose<A, B, C>(s: seq<A>, f: A -> Option<B>, g: B -> Option<C>, h: A -> Option<C>)
    requires forall x :: x in s ==> h(x) == if f(x).Some? then g(f(x).value) else None
    ensures Gather(Gather(s, f), g) == Gather(s, h)
  {
    if s != [] {
      GatherCompose(s[1..], f, g, h);
      GatherSplit(if f(s[0]).Some? then [f(s[0]).value] else [], Gather(s[1..], f), g);
    }
  }

  lemma {:induction false} GatherNothing<A, B>(s: seq<A>, f: A -> Option<B>)
    requires forall i :: 0 <= i < |s| ==> f(s[i]) == None
    ensures Gather(s, f) == []
  {
    if s != [] {
      GatherNothing(s[1..], f);
    }
  }

  /** Exactly one position qualifies. */
  lemma GatherSingle<A, B>(s: seq<A>, f: A -> Option<B>, k: nat, y: B)
    requires k < |s| && f(s[k]) == Some(y)
    requires forall i :: 0 <= i < |s| && i != k ==> f(s[i]) == None
    ensures Gather(s, f) == [y]
  {
    var front, back := s[..k], s[k + 1..];
    assert s == front + ([s[k]] + back);
    GatherNothing(front, f);
    GatherNothing(back, f);
    GatherSplit(front, [s[k]] + back, f);
    GatherSplit([s[k]], back, f);
    assert Gather([s[k]], f) == [y];
  }

  lemma {:induction false} GatherMembers<A, B>(s: seq<A>, f: A -> Option<B>, y: B)
    ensures y in Gather(s, f) <==> exists i :: 0 <= i < |s| && f(s[i]) == Some(y)
  {
    if s != [] {
      GatherMembers(s[1..], f, y);
      if exists i :: 0 <= i < |s| && f(s[i]) == Some(y) {
        var i :| 0 <= i < |s| && f(s[i]) == Some(y);
        assert i == 0 || s[1..][i - 1] == s[i];
      }
      if j :| 0 <= j < |s[1..]| && f(s[1..][j]) == Some(y) {
        assert s[j + 1] == s[1..][j];
      }
    }
  }

  /** Two sources that keep the same positions, with related kept values, give related results. */
  lemma {:induction false} GatherRelated<A, B, C>(
    s: seq<A>, f: A -> Option<B>, t: seq<A>, g: A -> Option<C>, related: (B, C) -> bool)
    requires |s| == |t|
    requires forall i :: 0 <= i < |s| ==> f(s[i]).Some? == g(t[i]).Some?
    requires forall i :: 0 <= i < |s| && f(s[i]).Some? ==> related(f(s[i]).value, g(t[i]).value)
    ensures |Gather(s, f)| == |Gather(t, g)|
    ensures forall i :: 0 <= i < |Gather(s, f)| ==> related(Gather(s, f)[i], Gather(t, g)[i])
  {
    if s != [] {
      GatherRelated(s[1..], f, t[1..], g, related);
    }
  }

  lemma SameMap<V>(a: map<nat, V>, b: map<nat, V>)
    requires forall k :: k in a <==> k in b
    requires forall k :: k in a ==> a[k] == b[k]
    ensures a == b
  {
  }

  /** Members of a list that is built up piece by piece are members of some piece. */
  lemma {:induction false} ChainMembers<T>(whole: nat -> seq<T>, piece: nat -> seq<T>, n: nat, x: T)
    requires whole(0) == [] && forall k: nat :: k < n ==> whole(k + 1) == whole(k) + piece(k)
    ensures x in whole(n) <==> exists k: nat :: k < n && x in piece(k)
  {
    if n > 0 {
      var m := n - 1;
      ChainMembers(whole, piece, m, x);
      assert whole(m + 1) == whole(m) + piece(m);
      assert x in whole(n) <==> x in whole(m) || x in piece(m);
    }
  }
}
