/**
 The wait-for graph of the materialization protocol.

 Every thread publishes at most one outgoing wait edge, so the graph is a
 partial function on thread tokens: a waiting thread points to the owner of the
 key it waits for.
 */
module WaitGraph {
  import opened Common

  type Token = nat

  // kNoMaterializationThreadToken
  const NO_TOKEN: Token := 0

  datatype Key = Key(desc: nat, scope: Option<nat>)
  datatype Entry = Entry(key: Key, owner: Token)
  datatype Wait = Wait(key: Key, active: bool)

  type Graph = map<Token, Token>

  /** The node reached from `t` after `n` edges, if the path is that long. */
  function Follow(g: Graph, t: Token, n: nat): Option<Token>
    decreases n
  {
    if n == 0 then Some(t)
    else if t in g then Follow(g, g[t], n - 1)
    else None
  }

  ghost predicate Reaches(g: Graph, a: Token, b: Token) {
    exists n: nat :: Follow(g, a, n) == Some(b)
  }

  /** The path that starts at `t` leaves the graph after at most `n` edges. */
  predicate Ends(g: Graph, t: Token, n: nat)
    decreases n
  {
    t !in g || (n > 0 && Ends(g, g[t], n - 1))
  }

  ghost predicate Drains(g: Graph, t: Token) {
    exists n: nat :: Ends(g, t, n)
  }

  ghost predicate Acyclic(g: Graph) {
    forall t: Token :: Drains(g, t)
  }

  lemma {:induction false} FollowAdd(g: Graph, t: Token, m: nat, n: nat)
    requires Follow(g, t, m).Some?
    ensures Follow(g, t, m + n) == Follow(g, Follow(g, t, m).value, n)
    decreases m
  {
    if m > 0 {
      FollowAdd(g, g[t], m - 1, n);
    }
  }

  lemma {:induction false} EndsMono(g: Graph, t: Token, m: nat, n: nat)
    requires Ends(g, t, m) && m <= n
    ensures Ends(g, t, n)
    decreases m
  {
    if t in g {
      EndsMono(g, g[t], m - 1, n - 1);
    }
  }

  lemma {:induction false} EndsNoFollow(g: Graph, t: Token, m: nat, n: nat)
    requires Ends(g, t, m) && m < n
    ensures Follow(g, t, n) == None
    decreases m
  {
    if t in g {
      EndsNoFollow(g, g[t], m - 1, n - 1);
    }
  }

  lemma {:induction false} FollowLoop(g: Graph, t: Token, p: nat, i: nat)
    requires p > 0 && Follow(g, t, p) == Some(t)
    ensures Follow(g, t, i * p) == Some(t)
    decreases i
  {
    if i > 0 {
      FollowLoop(g, t, p, i - 1);
      FollowAdd(g, t, (i - 1) * p, p);
      assert (i - 1) * p + p == i * p;
    }
  }

  /** In an acyclic graph no path returns to its start. */
  lemma {:induction false} NoLoop(g: Graph, t: Token, p: nat)
    requires Acyclic(g) && p > 0
    ensures Follow(g, t, p) != Some(t)
  {
    if Follow(g, t, p) == Some(t) {
      assert Drains(g, t);
      var n: nat :| Ends(g, t, n);
      FollowLoop(g, t, p, n + 1);
      assert (n + 1) * p > n by {
        assert (n + 1) * p >= (n + 1) * 1;
      }
      EndsNoFollow(g, t, n, (n + 1) * p);
    }
  }

  /** Publishing a wait edge whose target does not lead back keeps the graph acyclic. */
  lemma {:induction false} AddEdgeKeepsAcyclic(g: Graph, t: Token, o: Token)
    requires Acyclic(g) && t !in g && !Reaches(g, o, t)
    ensures Acyclic(g[t := o])
  {
    var h := g[t := o];
    forall u: Token
      ensures Drains(h, u)
    {
      assert Drains(g, u) && Drains(g, o);
      var n: nat :| Ends(g, u, n);
      var k: nat :| Ends(g, o, k);
      AvoidingEnds(g, t, o, o, k, 0);
      AddEdgeEnds(g, t, o, u, n, k);
    }
  }

  lemma {:induction false} AvoidingEnds(g: Graph, t: Token, o: Token, u: Token, k: nat, i: nat)
    requires !Reaches(g, o, t) && Follow(g, o, i) == Some(u) && Ends(g, u, k)
    ensures Ends(g[t := o], u, k)
    decreases k
  {
    assert u != t;
    if u in g {
      FollowAdd(g, o, i, 1);
      assert Follow(g, u, 1) == Follow(g, g[u], 0);
      AvoidingEnds(g, t, o, g[u], k - 1, i + 1);
    }
  }

  lemma {:induction false} AddEdgeEnds(g: Graph, t: Token, o: Token, u: Token, n: nat, k: nat)
    requires t !in g && Ends(g, u, n) && Ends(g[t := o], o, k)
    ensures Ends(g[t := o], u, n + k + 1)
    decreases n
  {
    if u == t {
      EndsMono(g[t := o], o, k, n + k);
    } else if u in g {
      AddEdgeEnds(g, t, o, g[u], n - 1, k);
    }
  }

  /** Publishing a wait edge whose target leads back closes a cycle. */
  lemma {:induction false} AddEdgeClosesCycle(g: Graph, t: Token, o: Token)
    requires t !in g && Reaches(g, o, t)
    ensures !Acyclic(g[t := o])
  {
    var h := g[t := o];
    var n: nat :| Follow(g, o, n) == Some(t);
    FollowInLarger(g, h, o, n);
    assert Follow(h, t, n + 1) == Follow(h, o, n) == Some(t);
    if Acyclic(h) {
      NoLoop(h, t, n + 1);
    }
  }

  lemma {:induction false} FollowInLarger(g: Graph, h: Graph, u: Token, n: nat)
    requires Follow(g, u, n).Some? && forall v :: v in g ==> v in h && h[v] == g[v]
    ensures Follow(h, u, n) == Follow(g, u, n)
    decreases n
  {
    if n > 0 {
      FollowInLarger(g, h, g[u], n - 1);
    }
  }

  /** Dropping edges, and adding edges that end in a thread without an edge, keeps the graph acyclic. */
  lemma {:induction false} SinkEdgesKeepAcyclic(g: Graph, h: Graph, sink: Token)
    requires Acyclic(g) && sink !in h
    requires forall v :: v in h ==> (v in g && h[v] == g[v]) || h[v] == sink
    ensures Acyclic(h)
  {
    forall u: Token
      ensures Drains(h, u)
    {
      assert Drains(g, u);
      var n: nat :| Ends(g, u, n);
      SinkEdgesEnds(g, h, sink, u, n);
    }
  }

  lemma {:induction false} SinkEdgesEnds(g: Graph, h: Graph, sink: Token, u: Token, n: nat)
    requires Ends(g, u, n) && sink !in h
    requires forall v :: v in h ==> (v in g && h[v] == g[v]) || h[v] == sink
    ensures Ends(h, u, n + 1)
    decreases n
  {
    if u in h && h[u] != sink {
      SinkEdgesEnds(g, h, sink, g[u], n - 1);
    }
  }

  /** The last node of the path from `t` in an acyclic graph. */
  lemma {:induction false} PathEnd(g: Graph, t: Token, n: nat) returns (u: Token, i: nat)
    requires Ends(g, t, n)
    ensures Follow(g, t, i) == Some(u) && u !in g
    decreases n
  {
    if t !in g {
      u, i := t, 0;
    } else {
      u, i := PathEnd(g, g[t], n - 1);
      i := i + 1;
    }
  }

  // --- The bounded walk -----------------------------------------------------

  /** The first in-flight entry for `k`, as std::find_if returns it. */
  function OwnerOf(m: seq<Entry>, k: Key): Option<Token> {
    if m == [] then None
    else if m[0].key == k then Some(m[0].owner)
    else OwnerOf(m[1..], k)
  }

  lemma {:induction false} OwnerIsListed(m: seq<Entry>, k: Key)
    ensures OwnerOf(m, k).Some? ==> Entry(k, OwnerOf(m, k).value) in m
    ensures OwnerOf(m, k).None? ==> forall e :: e in m ==> e.key != k
  {
    if m != [] {
      OwnerIsListed(m[1..], k);
      if OwnerOf(m, k).Some? && m[0].key == k {
        assert m[0] == Entry(k, OwnerOf(m, k).value);
      }
    }
  }

  function Owners(m: seq<Entry>): set<Token> {
    set e | e in m :: e.owner
  }

  lemma {:induction false} OwnersBound(m: seq<Entry>)
    ensures |Owners(m)| <= |m|
  {
    if m == [] {
      assert Owners(m) == {};
    } else {
      OwnersBound(m[1..]);
      assert m == [m[0]] + m[1..];
      assert Owners(m) == Owners(m[1..]) + {m[0].owner};
    }
  }

  function Edges(m: seq<Entry>, waits: map<Token, Wait>): Graph {
    map t | t in waits && t != NO_TOKEN && waits[t].active && OwnerOf(m, waits[t].key).Some?
      :: OwnerOf(m, waits[t].key).value
  }

  /** A node on the path from an owner is itself the owner of an in-flight entry. */
  lemma {:induction false} PathStaysInOwners(m: seq<Entry>, waits: map<Token, Wait>, o: Token, n: nat)
    requires o in Owners(m) && Follow(Edges(m, waits), o, n).Some?
    ensures Follow(Edges(m, waits), o, n).value in Owners(m)
    decreases n
  {
    if n > 0 {
      OwnerIsListed(m, waits[o].key);
      PathStaysInOwners(m, waits, Edges(m, waits)[o], n - 1);
    }
  }

  ghost predicate FirstVisit(g: Graph, o: Token, c: Token, n: nat) {
    Follow(g, o, n) == Some(c) && forall i: nat :: i < n ==> Follow(g, o, i) != Some(c)
  }

  /** Cutting a repeated node out of a path: a shortest path has distinct nodes. */
  lemma {:induction false} ShortestPathDistinct(g: Graph, o: Token, c: Token, n: nat, i: nat, j: nat)
    requires FirstVisit(g, o, c, n) && i < j <= n
    requires Follow(g, o, i).Some? && Follow(g, o, j).Some?
    ensures Follow(g, o, j) != Follow(g, o, i)
  {
    FollowAdd(g, o, i, n - j);
    FollowAdd(g, o, j, n - j);
    assert Follow(g, o, i + (n - j)) != Some(c);
  }

  ghost function Prefix(g: Graph, o: Token, n: nat): set<Token> {
    if n == 0 then {} else
      Prefix(g, o, n - 1) + (if Follow(g, o, n - 1).Some? then {Follow(g, o, n - 1).value} else {})
  }

  lemma {:induction false} PrefixIndex(g: Graph, o: Token, n: nat, u: Token) returns (i: nat)
    requires u in Prefix(g, o, n)
    ensures i < n && Follow(g, o, i) == Some(u)
  {
    if u in Prefix(g, o, n - 1) {
      i := PrefixIndex(g, o, n - 1, u);
    } else {
      i := n - 1;
    }
  }

  lemma {:induction false} FollowPrefixDefined(g: Graph, o: Token, n: nat, i: nat)
    requires Follow(g, o, n).Some? && i <= n
    ensures Follow(g, o, i).Some?
    decreases n
  {
    if i > 0 {
      FollowPrefixDefined(g, g[o], n - 1, i - 1);
    }
  }

  lemma {:induction false} NodeIsNew(g: Graph, o: Token, c: Token, n: nat, k: nat)
    requires FirstVisit(g, o, c, n) && k <= n && Follow(g, o, k).Some?
    ensures Follow(g, o, k).value !in Prefix(g, o, k)
  {
    var u := Follow(g, o, k).value;
    if u in Prefix(g, o, k) {
      var i := PrefixIndex(g, o, k, u);
      ShortestPathDistinct(g, o, c, n, i, k);
    }
  }

  /** The path nodes before the first visit of `c` are pairwise distinct. */
  lemma {:induction false} PrefixSize(g: Graph, o: Token, c: Token, n: nat, k: nat)
    requires FirstVisit(g, o, c, n) && k <= n + 1
    ensures |Prefix(g, o, k)| == k
    decreases k
  {
    if k > 0 {
      PrefixSize(g, o, c, n, k - 1);
      FollowPrefixDefined(g, o, n, k - 1);
      NodeIsNew(g, o, c, n, k - 1);
      assert Prefix(g, o, k) == Prefix(g, o, k - 1) + {Follow(g, o, k - 1).value};
    }
  }

  lemma {:induction false} PrefixInOwners(m: seq<Entry>, waits: map<Token, Wait>, o: Token, k: nat)
    requires o in Owners(m)
    ensures Prefix(Edges(m, waits), o, k) <= Owners(m)
  {
    if k > 0 {
      PrefixInOwners(m, waits, o, k - 1);
      if Follow(Edges(m, waits), o, k - 1).Some? {
        PathStaysInOwners(m, waits, o, k - 1);
      }
    }
  }

  lemma {:induction false} LeastStep(g: Graph, o: Token, c: Token, n: nat) returns (l: nat)
    requires Follow(g, o, n) == Some(c)
    ensures FirstVisit(g, o, c, l)
    decreases n
  {
    l := n;
    if !FirstVisit(g, o, c, n) {
      var i: nat :| i < n && Follow(g, o, i) == Some(c);
      l := LeastStep(g, o, c, i);
    }
  }

  /** Pigeonhole on distinct owners: a wait path to `c` shows within as many steps as there are entries. */
  lemma {:induction false} WalkBoundSuffices(m: seq<Entry>, waits: map<Token, Wait>, o: Token, c: Token)
    returns (l: nat)
    requires o in Owners(m) && Reaches(Edges(m, waits), o, c)
    ensures l < |m| && FirstVisit(Edges(m, waits), o, c, l)
  {
    var g := Edges(m, waits);
    var n: nat :| Follow(g, o, n) == Some(c);
    l := LeastStep(g, o, c, n);
    PrefixSize(g, o, c, l, l + 1);
    PrefixInOwners(m, waits, o, l + 1);
    SubsetSize(Prefix(g, o, l + 1), Owners(m));
    OwnersBound(m);
  }

  lemma {:induction false} SubsetSize(a: set<Token>, b: set<Token>)
    requires a <= b
    ensures |a| <= |b|
  {
    if a != {} {
      var x :| x in a;
      SubsetSize(a - {x}, b - {x});
    }
  }
}
