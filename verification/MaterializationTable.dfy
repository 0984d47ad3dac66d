/**
 The in-flight list and the segmented wait slots of the registry, with the
 bounded cycle walk that a thread runs before it blocks.
 */
module MaterializationTable {
  import opened Common
  import opened WaitGraph

  const CHUNK_SIZE: nat := 256

  // MaterializationWait{}
  const NO_WAIT := Wait(Key(0, None), false)

  predicate UniqueKeys(m: seq<Entry>) {
    forall i, j :: 0 <= i < j < |m| ==> m[i].key != m[j].key
  }

  function IndexOf(m: seq<Entry>, k: Key): (i: nat)
    ensures i <= |m|
    ensures i < |m| ==> m[i].key == k
    ensures forall j :: 0 <= j < i ==> m[j].key != k
  {
    if m == [] || m[0].key == k then 0 else 1 + IndexOf(m[1..], k)
  }

  lemma {:induction false} OwnerAtIndex(m: seq<Entry>, k: Key)
    ensures OwnerOf(m, k) == if IndexOf(m, k) < |m| then Some(m[IndexOf(m, k)].owner) else None
  {
    if m != [] && m[0].key != k {
      OwnerAtIndex(m[1..], k);
    }
  }

  /** Removal by overwriting the entry with the last one, which changes the order of the list. */
  function SwapRemove(m: seq<Entry>, k: Key): seq<Entry> {
    var i := IndexOf(m, k);
    if i == |m| then m else m[i := m[|m| - 1]][..|m| - 1]
  }

  lemma {:induction false} UniqueOwner(m: seq<Entry>, i: nat)
    requires UniqueKeys(m) && i < |m|
    ensures OwnerOf(m, m[i].key) == Some(m[i].owner)
  {
    OwnerAtIndex(m, m[i].key);
  }

  lemma {:induction false} SwapRemoveOwners(m: seq<Entry>, k: Key, x: Key)
    requires UniqueKeys(m)
    ensures UniqueKeys(SwapRemove(m, k))
    ensures OwnerOf(SwapRemove(m, k), x) == if x == k then None else OwnerOf(m, x)
  {
    var i, n := IndexOf(m, k), SwapRemove(m, k);
    OwnerAtIndex(m, x);
    OwnerAtIndex(n, x);
    if i < |m| {
      assert forall j :: 0 <= j < |n| ==> n[j] == m[if j == i then |m| - 1 else j];
      var p := IndexOf(m, x);
      if x != k && p < |m| {
        var q := if p == |m| - 1 then i else p;
        assert n[q] == m[p];
        UniqueOwner(n, q);
      }
    }
  }

  lemma {:induction false} PushOwners(m: seq<Entry>, e: Entry, x: Key)
    requires UniqueKeys(m) && OwnerOf(m, e.key).None?
    ensures UniqueKeys(m + [e])
    ensures OwnerOf(m + [e], x) == if x == e.key then Some(e.owner) else OwnerOf(m, x)
  {
    var n := m + [e];
    OwnerAtIndex(m, e.key);
    OwnerAtIndex(m, x);
    OwnerAtIndex(n, x);
    assert UniqueKeys(n);
    var p := IndexOf(m, x);
    if x == e.key {
      UniqueOwner(n, |m|);
    } else if p < |m| {
      assert n[p] == m[p];
      UniqueOwner(n, p);
    }
  }

  lemma FirstIndex(m: seq<Entry>, k: Key, i: nat)
    requires i <= |m| && (i < |m| ==> m[i].key == k)
    requires forall j :: 0 <= j < i ==> m[j].key != k
    ensures i == IndexOf(m, k)
  {
  }

  lemma NoFurther(g: Graph, owner: Token, step: nat, token: Token, current: Token)
    requires Follow(g, owner, step) == Some(token) && token !in g && token != current
    requires forall i: nat :: i < step ==> Follow(g, owner, i) != Some(current)
    ensures !Reaches(g, owner, current)
  {
    forall n: nat
      ensures Follow(g, owner, n) != Some(current)
    {
      if n > step {
        FollowAdd(g, owner, step, n - step);
      }
    }
  }

  datatype Outcome = Found | Claimed | CycleOnThread | CycleAcrossThreads | MustWait

  /** What one pass through the claim loop decides for thread `t` and key `k`. */
  ghost function OutcomeOf(
    m: seq<Entry>, waits: map<Token, Wait>, t: Token, k: Key, stored: bool, onStack: bool, building: bool): Outcome
  {
    var owner := OwnerOf(m, k);
    if stored then Found
    else if owner.None? then
      if onStack then CycleOnThread else Claimed
    else if owner.value == t then CycleOnThread
    else if building && Reaches(Edges(m, waits), owner.value, t) then CycleAcrossThreads
    else MustWait
  }

  class Table {
    var materializing: seq<Entry>
    var chunks: seq<array<Wait>>
    var capacity: nat

    ghost predicate Valid()
      reads this
    {
      && capacity == |chunks| * CHUNK_SIZE
      && (forall i :: 0 <= i < |chunks| ==> chunks[i].Length == CHUNK_SIZE)
      && (forall i, j :: 0 <= i < j < |chunks| ==> chunks[i] != chunks[j])
    }

    /** The wait slots as one table indexed by thread token. */
    ghost function Waits(): map<Token, Wait>
      requires Valid()
      reads this, chunks
    {
      map t: Token | t < capacity :: chunks[t / CHUNK_SIZE][t % CHUNK_SIZE]
    }

    constructor ()
      ensures Valid() && materializing == [] && Waits() == map[]
    {
      materializing, chunks, capacity := [], [], 0;
    }

    /**
     Grows the slot table in whole chunks until `token` has a slot. Existing
     slots keep their address and value; new ones are inactive.
     */
    method EnsureWaitSlot(token: Token)
      requires Valid()
      modifies this`chunks, this`capacity
      ensures Valid() && token in Waits()
      ensures old(chunks) <= chunks && fresh(chunks[|old(chunks)|..])
      ensures forall t :: t in Waits() ==> Waits()[t] == if t in old(Waits()) then old(Waits())[t] else NO_WAIT
      ensures token in old(Waits()) ==> chunks == old(chunks)
    {
      var required := token + 1;
      if required <= capacity {
        return;
      }
      var requiredChunks := (required + CHUNK_SIZE - 1) / CHUNK_SIZE;
      var grown := chunks;
      while |grown| < requiredChunks
        invariant |chunks| <= |grown| && chunks <= grown
        invariant fresh(grown[|chunks|..])
        invariant forall i :: 0 <= i < |grown| ==> grown[i].Length == CHUNK_SIZE
        invariant forall i, j :: 0 <= i < j < |grown| ==> grown[i] != grown[j]
        invariant forall i, k :: |chunks| <= i < |grown| && 0 <= k < CHUNK_SIZE ==> grown[i][k] == NO_WAIT
        invariant unchanged(this) && forall i :: 0 <= i < |chunks| ==> unchanged(chunks[i])
      {
        var chunk := new Wait[CHUNK_SIZE](_ => NO_WAIT);
        assert (grown + [chunk])[|chunks|..] == grown[|chunks|..] + [chunk];
        grown := grown + [chunk];
      }
      chunks := grown;
      capacity := |grown| * CHUNK_SIZE;
      assert old(capacity) == |old(chunks)| * CHUNK_SIZE;
      assert forall t: Token | t < capacity :: (t < old(capacity) <==> t / CHUNK_SIZE < |old(chunks)|);
    }

    method SetWaitSlot(token: Token, wait: Wait)
      requires Valid() && token < capacity
      modifies chunks
      ensures Valid() && Waits() == old(Waits())[token := wait]
    {
      chunks[token / CHUNK_SIZE][token % CHUNK_SIZE] := wait;
      forall t: Token | t < capacity && t != token
        ensures chunks[t / CHUNK_SIZE][t % CHUNK_SIZE] == old(chunks[t / CHUNK_SIZE][t % CHUNK_SIZE])
      {
        assert t / CHUNK_SIZE == token / CHUNK_SIZE ==> t % CHUNK_SIZE != token % CHUNK_SIZE;
      }
    }

    method FindOwner(k: Key) returns (i: nat)
      ensures i == IndexOf(materializing, k)
    {
      i := 0;
      while i < |materializing| && materializing[i].key != k
        invariant i <= |materializing|
        invariant forall j :: 0 <= j < i ==> materializing[j].key != k
      {
        i := i + 1;
      }
      FirstIndex(materializing, k, i);
    }

    method Erase(k: Key)
      modifies this`materializing
      ensures materializing == SwapRemove(old(materializing), k)
    {
      var i := FindOwner(k);
      if i < |materializing| {
        materializing := materializing[i := materializing[|materializing| - 1]];
        materializing := materializing[..|materializing| - 1];
      }
    }

    /**
     The walk is exact: it answers true if and only if a wait path leads from
     the owner to the current thread, although it takes at most one step per
     in-flight entry. Nothing is assumed about the shape of the graph.
     */
    method WaitCycleDetected(current: Token, owner: Token) returns (detected: bool)
      requires Valid() && owner in Owners(materializing)
      ensures detected <==> Reaches(Edges(materializing, Waits()), owner, current)
    {
      ghost var g := Edges(materializing, Waits());
      var token := owner;
      var limit := |materializing|;
      var step := 0;
      while step < limit
        invariant step <= limit
        invariant Follow(g, owner, step) == Some(token)
        invariant forall i: nat :: i < step ==> Follow(g, owner, i) != Some(current)
      {
        if token == current {
          return true;
        }
        if token == NO_TOKEN || token >= capacity {
          NoFurther(g, owner, step, token, current);
          return false;
        }
        var wait := chunks[token / CHUNK_SIZE][token % CHUNK_SIZE];
        assert Waits()[token] == wait;
        if !wait.active {
          NoFurther(g, owner, step, token, current);
          return false;
        }
        var it := FindOwner(wait.key);
        OwnerAtIndex(materializing, wait.key);
        if it == |materializing| {
          NoFurther(g, owner, step, token, current);
          return false;
        }
        FollowAdd(g, owner, step, 1);
        assert Follow(g, token, 1) == Follow(g, g[token], 0);
        token := materializing[it].owner;
        step := step + 1;
      }
      if Reaches(g, owner, current) {
        var l := WalkBoundSuffices(materializing, Waits(), owner, current);
        assert false;
      }
      return false;
    }

    /**
     One pass through the claim loop, with the registry lock held and the own
     wait slot cleared. `stack` holds the descriptors this thread is building.
     */
    method ClaimPass(current: Token, k: Key, stored: bool, stack: seq<nat>)
      returns (outcome: Outcome, stack': seq<nat>)
      requires Valid() && current < capacity
      modifies this`materializing, chunks
      ensures Valid() && chunks == old(chunks)
      ensures outcome == OutcomeOf(old(materializing), old(Waits()), current, k, stored, k.desc in stack, stack != [])
      ensures materializing == old(materializing) + (if outcome.Claimed? then [Entry(k, current)] else [])
      ensures stack' == stack + (if outcome.Claimed? then [k.desc] else [])
      ensures Waits() == if outcome.MustWait? then old(Waits())[current := Wait(k, true)] else old(Waits())
    {
      stack' := stack;
      if stored {
        return Found, stack';
      }
      var it := FindOwner(k);
      OwnerAtIndex(materializing, k);
      if it == |materializing| {
        if k.desc in stack {
          return CycleOnThread, stack';
        }
        materializing := materializing + [Entry(k, current)];
        return Claimed, stack + [k.desc];
      }
      var owner := materializing[it].owner;
      if owner == current {
        return CycleOnThread, stack';
      }
      assert materializing[it] in materializing;
      outcome := RefuseOrWait(current, k, owner, stack != []);
    }

    /** The key is in flight on another thread: waiting is refused when it would close a cycle. */
    method RefuseOrWait(current: Token, k: Key, owner: Token, building: bool) returns (outcome: Outcome)
      requires Valid() && current < capacity && owner in Owners(materializing)
      modifies chunks
      ensures Valid()
      ensures outcome == if building && Reaches(Edges(materializing, old(Waits())), owner, current)
                         then CycleAcrossThreads else MustWait
      ensures Waits() == if outcome.MustWait? then old(Waits())[current := Wait(k, true)] else old(Waits())
    {
      if building {
        var detected := WaitCycleDetected(current, owner);
        if detected {
          return CycleAcrossThreads;
        }
      }
      SetWaitSlot(current, Wait(k, true));
      outcome := MustWait;
    }
  }
}
