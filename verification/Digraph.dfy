/** Finite directed graphs given by successor lists, as dependency and inheritance graphs are. */
module Digraph {
  type Graph<T(==)> = map<T, seq<T>>

  function Succ<T>(g: Graph<T>, x: T): seq<T> {
    if x in g then g[x] else []
  }

  ghost predicate IsPath<T>(g: Graph<T>, p: seq<T>) {
    forall i, j :: 0 <= i < j < |p| && j == i + 1 ==> p[j] in Succ(g, p[i])
  }

  /** A path of one or more edges leads from `a` to `b`. */
  ghost predicate Leads<T(!new)>(g: Graph<T>, a: T, b: T) {
    exists p :: |p| >= 2 && p[0] == a && p[|p| - 1] == b && IsPath(g, p)
  }

  ghost predicate Reaches<T(!new)>(g: Graph<T>, a: T, b: T) {
    a == b || Leads(g, a, b)
  }

  lemma EdgeLeads<T(!new)>(g: Graph<T>, a: T, b: T)
    requires b in Succ(g, a)
    ensures Leads(g, a, b)
  {
    var p := [a, b];
    assert IsPath(g, p) && p[0] == a && p[|p| - 1] == b;
  }

  lemma {:induction false} LeadsTransitively<T(!new)>(g: Graph<T>, a: T, b: T, c: T)
    requires Leads(g, a, b) && Leads(g, b, c)
    ensures Leads(g, a, c)
  {
    var p :| |p| >= 2 && p[0] == a && p[|p| - 1] == b && IsPath(g, p);
    var q :| |q| >= 2 && q[0] == b && q[|q| - 1] == c && IsPath(g, q);
    var r := p + q[1..];
    forall i | 0 < i < |r|
      ensures r[i] in Succ(g, r[i - 1])
    {
      if i >= |p| {
        assert r[i] == q[i - |p| + 1] && r[i - 1] == q[i - |p|];
      }
    }
    assert IsPath(g, r);
  }

  lemma {:induction false} ReachesTransitively<T(!new)>(g: Graph<T>, a: T, b: T, c: T)
    requires Reaches(g, a, b) && Reaches(g, b, c)
    ensures Reaches(g, a, c)
  {
    if a != b && b != c {
      LeadsTransitively(g, a, b, c);
    }
  }

  /** Every element of the list comes after all its successors. */
  ghost predicate Topological<T>(g: Graph<T>, ks: seq<T>) {
    forall i, d :: 0 <= i < |ks| && d in Succ(g, ks[i]) ==> d in ks[..i]
  }

  lemma {:induction false} PathRunsBackwards<T>(g: Graph<T>, ks: seq<T>, i: nat, p: seq<T>, j: nat)
    requires Topological(g, ks) && i < |ks| && IsPath(g, p) && 0 < j < |p| && p[0] == ks[i]
    ensures p[j] in ks[..i]
    decreases j
  {
    if j > 1 {
      PathRunsBackwards(g, ks, i, p, j - 1);
      var h :| 0 <= h < i && ks[h] == p[j - 1];
      assert p[j] in ks[..h];
    } else {
      assert p[1] in Succ(g, ks[i]);
    }
  }

  /** In a topological list, whatever an element leads to occurs strictly before it. */
  lemma {:induction false} LeadsBackwards<T(!new)>(g: Graph<T>, ks: seq<T>, i: nat, b: T)
    requires Topological(g, ks) && i < |ks| && Leads(g, ks[i], b)
    ensures b in ks[..i]
  {
    var p :| |p| >= 2 && p[0] == ks[i] && p[|p| - 1] == b && IsPath(g, p);
    PathRunsBackwards(g, ks, i, p, |p| - 1);
  }

  lemma {:induction false} FirstIndex<T>(ks: seq<T>, a: T, c: nat) returns (i: nat)
    requires c < |ks| && ks[c] == a
    ensures i <= c && ks[i] == a && a !in ks[..i]
    decreases c
  {
    i := c;
    if a in ks[..c] {
      var j :| 0 <= j < c && ks[j] == a;
      i := FirstIndex(ks, a, j);
    }
  }

  /** Nothing in a topological list leads to itself, and all it leads to is in the list. */
  lemma {:induction false} TopologicalClosure<T(!new)>(g: Graph<T>, ks: seq<T>, a: T, b: T)
    requires Topological(g, ks) && a in ks && Reaches(g, a, b)
    ensures b in ks && !Leads(g, b, b)
  {
    var c :| 0 <= c < |ks| && ks[c] == a;
    if a != b {
      LeadsBackwards(g, ks, c, b);
    }
    var d :| 0 <= d < |ks| && ks[d] == b;
    var i := FirstIndex(ks, b, d);
    if Leads(g, b, b) {
      LeadsBackwards(g, ks, i, b);
    }
  }
}
