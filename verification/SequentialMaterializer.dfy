/**
 Materialization on one thread over an arbitrary finite descriptor graph:
 recursive resolution of constructor dependencies, with the thread's
 materialization stack and the in-flight list changed in place.
 */
module SequentialMaterializer {
  import opened Common
  import D = Digraph

  /**
   The descriptor table. A primary leads to the descriptors its constructor
   resolves, an exposed alias to its primary. Prototypes are the descriptors
   that are not singletons; `throwers` are those whose constructor throws.
   */
  datatype Beans = Beans(graph: D.Graph<nat>, singletons: set<nat>, aliases: set<nat>, throwers: set<nat>)

  datatype Error = CycleError | ConstructorError
  datatype Result = Ok(obj: nat) | Err(error: Error)

  /** What start() guarantees: known descriptors only, and aliases linked to a primary of the same lifetime. */
  ghost predicate WellFormed(b: Beans) {
    && (forall d, i :: d in b.graph && 0 <= i < |b.graph[d]| ==> b.graph[d][i] in b.graph)
    && (forall d {:trigger b.graph[d]} :: d in b.aliases ==> d in b.graph && d !in b.throwers && |b.graph[d]| == 1 && PrimaryOk(b, d, b.graph[d][0]))
  }

  predicate PrimaryOk(b: Beans, alias: nat, primary: nat) {
    primary !in b.aliases && (primary in b.singletons <==> alias in b.singletons)
  }

  /** The bean is on, or leads to, a dependency cycle. */
  ghost predicate CycleReachable(b: Beans, d: nat) {
    exists x: nat :: D.Reaches(b.graph, d, x) && D.Leads(b.graph, x, x)
  }

  /** The constructor of the bean, or of one it needs, throws. */
  ghost predicate ThrowerReachable(b: Beans, d: nat) {
    exists x: nat :: D.Reaches(b.graph, d, x) && x in b.throwers
  }

  predicate Stored(b: Beans, d: nat) {
    d in b.singletons && d !in b.aliases
  }

  /** The part of a list that lives in the singleton store. */
  function StoredOnly(b: Beans, ks: seq<nat>): seq<nat> {
    if ks == [] then []
    else if Stored(b, ks[|ks| - 1]) then StoredOnly(b, ks[..|ks| - 1]) + [ks[|ks| - 1]]
    else StoredOnly(b, ks[..|ks| - 1])
  }

  lemma {:induction false} StoredOnlyMembers(b: Beans, ks: seq<nat>, k: nat)
    ensures k in StoredOnly(b, ks) <==> k in ks && Stored(b, k)
  {
    if ks != [] {
      StoredOnlyMembers(b, ks[..|ks| - 1], k);
      assert ks == ks[..|ks| - 1] + [ks[|ks| - 1]];
    }
  }

  /** Distinct primaries, each needed by the one below it. */
  ghost predicate StackOk(b: Beans, stack: seq<nat>) {
    && NoDuplicates(stack)
    && (forall i :: 0 <= i < |stack| ==> stack[i] in b.graph)
    && (forall i, j :: 0 <= i < j < |stack| && j == i + 1 ==> D.Leads(b.graph, stack[i], stack[j]))
  }

  ghost predicate NeededByTop(b: Beans, stack: seq<nat>, d: nat) {
    stack != [] ==> D.Leads(b.graph, stack[|stack| - 1], d)
  }

  /** Only fully built singletons are stored, each after everything it needs. */
  ghost predicate StoreOk(b: Beans, built: seq<nat>, order: seq<nat>, instances: map<nat, nat>) {
    && D.Topological(b.graph, built)
    && (forall k :: k in built ==> k !in b.throwers)
    && order == StoredOnly(b, built)
    && NoDuplicates(order)
    && (forall k :: k in order <==> k in instances)
  }

  ghost predicate InFlightUnstored(b: Beans, stack: seq<nat>, instances: map<nat, nat>) {
    forall i :: 0 <= i < |stack| && Stored(b, stack[i]) ==> stack[i] !in instances
  }

  /** A finished bean has neither a cycle nor a throwing constructor below it. */
  lemma {:induction false} BuiltIsClean(b: Beans, built: seq<nat>, d: nat)
    requires D.Topological(b.graph, built) && d in built
    requires forall k :: k in built ==> k !in b.throwers
    ensures !CycleReachable(b, d) && !ThrowerReachable(b, d)
  {
    forall x: nat | D.Reaches(b.graph, d, x)
      ensures x in built && !D.Leads(b.graph, x, x)
    {
      D.TopologicalClosure(b.graph, built, d, x);
    }
  }

  lemma {:induction false} StackBound(b: Beans, stack: seq<nat>, rest: set<nat>)
    requires NoDuplicates(stack) && forall i :: 0 <= i < |stack| ==> stack[i] in rest
    ensures |stack| <= |rest|
  {
    if stack != [] {
      var n := |stack| - 1;
      StackBound(b, stack[..n], rest - {stack[n]});
    }
  }

  lemma {:induction false} StackLeads(b: Beans, stack: seq<nat>, i: nat, d: nat)
    requires StackOk(b, stack) && i < |stack| && NeededByTop(b, stack, d)
    ensures D.Leads(b.graph, stack[i], d)
    decreases |stack| - i
  {
    if i < |stack| - 1 {
      StackLeads(b, stack, i + 1, d);
      D.LeadsTransitively(b.graph, stack[i], stack[i + 1], d);
    }
  }

  /** A bean that is requested while it is on the stack depends on itself. */
  lemma {:induction false} OnStackIsCycle(b: Beans, stack: seq<nat>, d: nat)
    requires StackOk(b, stack) && d in stack && NeededByTop(b, stack, d)
    ensures CycleReachable(b, d)
  {
    var i :| 0 <= i < |stack| && stack[i] == d;
    StackLeads(b, stack, i, d);
    assert D.Reaches(b.graph, d, d);
  }

  /** An error has its cause below the bean. */
  ghost predicate Justified(b: Beans, r: Result, d: nat) {
    && (r == Err(CycleError) ==> CycleReachable(b, d))
    && (r == Err(ConstructorError) ==> ThrowerReachable(b, d))
  }

  lemma {:induction false} JustifiedBelow(b: Beans, r: Result, d: nat, p: nat)
    requires D.Leads(b.graph, d, p) && Justified(b, r, p)
    ensures Justified(b, r, d)
  {
    if x: nat :| D.Reaches(b.graph, p, x) && D.Leads(b.graph, x, x) {
      D.ReachesTransitively(b.graph, d, p, x);
    }
    if x: nat :| D.Reaches(b.graph, p, x) && x in b.throwers {
      D.ReachesTransitively(b.graph, d, p, x);
    }
  }

  lemma {:induction false} PushOk(b: Beans, stack: seq<nat>, d: nat)
    requires StackOk(b, stack) && d in b.graph && d !in stack && NeededByTop(b, stack, d)
    ensures StackOk(b, stack + [d])
    ensures StoredOnly(b, stack + [d]) == StoredOnly(b, stack) + (if Stored(b, d) then [d] else [])
  {
    assert (stack + [d])[..|stack|] == stack;
  }

  lemma {:induction false} PopOk(b: Beans, stack: seq<nat>)
    requires StackOk(b, stack) && stack != []
    ensures var d := stack[|stack| - 1];
      && StackOk(b, stack[..|stack| - 1])
      && StoredOnly(b, stack) == StoredOnly(b, stack[..|stack| - 1]) + (if Stored(b, d) then [d] else [])
  {
  }

  /** Everything added to the list is needed by `d`. */
  ghost predicate AddedFor(b: Beans, before: seq<nat>, after: seq<nat>, d: nat) {
    && before <= after
    && forall i {:trigger D.Reaches(b.graph, d, after[i])} :: |before| <= i < |after| ==> D.Reaches(b.graph, d, after[i])
  }

  lemma {:induction false} AddedForNeeded(b: Beans, s0: seq<nat>, s1: seq<nat>, s2: seq<nat>, d: nat, p: nat)
    requires AddedFor(b, s0, s1, d) && AddedFor(b, s1, s2, p) && D.Leads(b.graph, d, p)
    ensures AddedFor(b, s0, s2, d)
  {
    forall i | |s0| <= i < |s2|
      ensures D.Reaches(b.graph, d, s2[i])
    {
      if i < |s1| {
        assert s2[i] == s1[i];
      } else {
        D.ReachesTransitively(b.graph, d, p, s2[i]);
      }
    }
  }

  ghost predicate Extends(m: map<nat, nat>, m': map<nat, nat>) {
    forall k :: k in m ==> k in m' && m'[k] == m[k]
  }

  lemma {:induction false} AddedLast(b: Beans, s0: seq<nat>, s1: seq<nat>, d: nat)
    requires AddedFor(b, s0, s1, d)
    ensures AddedFor(b, s0, s1 + [d], d)
  {
    forall i | |s0| <= i < |s1|
      ensures D.Reaches(b.graph, d, (s1 + [d])[i])
    {
      assert (s1 + [d])[i] == s1[i];
    }
  }

  lemma {:induction false} AddedTogether(
    b: Beans, s0: seq<nat>, s1: seq<nat>, s2: seq<nat>, d: nat, m0: map<nat, nat>, m1: map<nat, nat>, m2: map<nat, nat>)
    requires AddedFor(b, s0, s1, d) && AddedFor(b, s1, s2, d) && Extends(m0, m1) && Extends(m1, m2)
    ensures AddedFor(b, s0, s2, d) && Extends(m0, m2)
    ensures forall k :: k in s1 ==> k in s2
  {
    forall i | |s0| <= i < |s2|
      ensures D.Reaches(b.graph, d, s2[i])
    {
      if i < |s1| {
        assert s2[i] == s1[i];
      }
    }
  }

  lemma {:induction false} RecordBuilt(
    b: Beans, built: seq<nat>, order: seq<nat>, instances: map<nat, nat>, d: nat, v: nat)
    requires StoreOk(b, built, order, instances)
    requires d !in b.throwers && forall i :: 0 <= i < |D.Succ(b.graph, d)| ==> D.Succ(b.graph, d)[i] in built
    requires Stored(b, d) ==> d !in instances
    ensures Stored(b, d) ==> StoreOk(b, built + [d], order + [d], instances[d := v])
    ensures !Stored(b, d) ==> StoreOk(b, built + [d], order, instances)
  {
    var ks := built + [d];
    forall i, x | 0 <= i < |ks| && x in D.Succ(b.graph, ks[i])
      ensures x in ks[..i]
    {
      if i < |built| {
        assert ks[..i] == built[..i];
      } else {
        assert ks[..i] == built;
      }
    }
    assert ks[..|ks| - 1] == built;
  }

  /** Stored objects are in use, under one key each, and the next object is not. */
  ghost predicate ObjectsOk(instances: map<nat, nat>, inUse: set<nat>, next: nat) {
    && (forall k :: k in instances ==> instances[k] in inUse)
    && (forall k, l :: k in instances && l in instances && instances[k] == instances[l] ==> k == l)
    && (forall v :: v in inUse ==> v < next)
  }

  /**
   What a call that succeeds returns: for a singleton the stored instance, for
   an alias of one the instance of its primary, and for a prototype or an alias
   of one an object that is not stored and that no earlier call returned.
   */
  ghost predicate RightObject(b: Beans, d: nat, obj: nat, instances: map<nat, nat>, before: set<nat>) {
    if d in b.singletons && d in b.aliases && d in b.graph && b.graph[d] != [] then
      b.graph[d][0] in instances && instances[b.graph[d][0]] == obj
    else if d in b.singletons then d in instances && instances[d] == obj
    else obj !in before && forall k :: k in instances ==> instances[k] != obj
  }

  class Materializer {
    const beans: Beans
    var instances: map<nat, nat>
    var order: seq<nat>
    var materializing: seq<nat>
    var stack: seq<nat>
    var nextObject: nat
    /** Every completed resolution, of singletons, prototypes and aliases alike. */
    ghost var built: seq<nat>
    /** Every object that was ever stored or returned. */
    ghost var inUse: set<nat>

    ghost predicate Valid()
      reads this
    {
      && WellFormed(beans)
      && StackOk(beans, stack)
      && materializing == StoredOnly(beans, stack)
      && StoreOk(beans, built, order, instances)
      && InFlightUnstored(beans, stack, instances)
      && ObjectsOk(instances, inUse, nextObject)
    }

    constructor (beans: Beans)
      requires WellFormed(beans)
      ensures Valid() && this.beans == beans && stack == [] && order == [] && built == []
    {
      this.beans := beans;
      instances, order, materializing, stack, nextObject, built, inUse := map[], [], [], [], 0, [], {};
    }

    /**
     Resolves `d` for the constructor of the innermost bean on the stack, or
     for the application when the stack is empty. On both exits the stack and
     the in-flight list are as before, and the store has only grown, by beans
     that `d` needs. The recursion ends because the stack has no duplicates.
     */
    method Materialize(d: nat) returns (r: Result)
      requires Valid() && d in beans.graph && NeededByTop(beans, stack, d)
      modifies this
      ensures Valid() && stack == old(stack) && materializing == old(materializing)
      ensures AddedFor(beans, old(built), built, d) && Extends(old(instances), instances) && old(inUse) <= inUse
      ensures r.Ok? ==> d in built
      ensures r.Ok? ==> RightObject(beans, d, r.obj, instances, old(inUse)) && r.obj in inUse
      ensures Justified(beans, r, d)
      decreases |beans.graph.Keys| - |stack|, if d in beans.aliases then 3 else 1
    {
      if Stored(beans, d) && d in instances {
        StoredOnlyMembers(beans, built, d);
        return Ok(instances[d]);
      }
      if d in beans.aliases {
        r := FollowAlias(d);
        return;
      }
      if d in stack {
        OnStackIsCycle(beans, stack, d);
        return Err(CycleError);
      }
      StackBound(beans, stack + [d], beans.graph.Keys);
      r := Construct(d);
    }

    /** An alias is what its primary is. */
    method FollowAlias(d: nat) returns (r: Result)
      requires Valid() && d in beans.graph && NeededByTop(beans, stack, d) && d in beans.aliases
      modifies this
      ensures Valid() && stack == old(stack) && materializing == old(materializing)
      ensures AddedFor(beans, old(built), built, d) && Extends(old(instances), instances) && old(inUse) <= inUse
      ensures r.Ok? ==> d in built
      ensures r.Ok? ==> RightObject(beans, d, r.obj, instances, old(inUse)) && r.obj in inUse
      ensures Justified(beans, r, d)
      decreases |beans.graph.Keys| - |stack|, 2
    {
      var primary := beans.graph[d][0];
      D.EdgeLeads(beans.graph, d, primary);
      if stack != [] {
        D.LeadsTransitively(beans.graph, stack[|stack| - 1], d, primary);
      }
      r := Materialize(primary);
      AddedForNeeded(beans, old(built), old(built), built, d, primary);
      JustifiedBelow(beans, r, d, primary);
      AddedLast(beans, old(built), built, d);
      if r.Ok? {
        RecordAlias(d);
      }
    }

    ghost method RecordAlias(d: nat)
      requires Valid() && d in beans.graph && d in beans.aliases && beans.graph[d][0] in built
      modifies this`built
      ensures Valid() && built == old(built) + [d]
    {
      RecordBuilt(beans, built, order, instances, d, 0);
      built := built + [d];
    }

    /** Claims or guards `d`, resolves its dependencies in order, and stores the finished bean. */
    method Construct(d: nat) returns (r: Result)
      requires Valid() && d in beans.graph && NeededByTop(beans, stack, d)
      requires d !in beans.aliases && d !in stack && |stack| < |beans.graph.Keys|
      requires Stored(beans, d) ==> d !in instances
      modifies this
      ensures Valid() && stack == old(stack) && materializing == old(materializing)
      ensures AddedFor(beans, old(built), built, d) && Extends(old(instances), instances) && old(inUse) <= inUse
      ensures r.Ok? ==> d in built
      ensures r.Ok? ==> RightObject(beans, d, r.obj, instances, old(inUse)) && r.obj in inUse
      ensures Justified(beans, r, d)
      decreases |beans.graph.Keys| - |stack|, 0
    {
      Claim(d);
      r := ResolveAll(d);
      assert stack[..|stack| - 1] == old(stack);
      AddedLast(beans, old(built), built, d);
      r := Conclude(d, r);
    }

    /** The claimed bean is stored, or its claim is given back. */
    method Conclude(d: nat, outcome: Result) returns (r: Result)
      requires Valid() && stack != [] && stack[|stack| - 1] == d
      requires outcome.Ok? ==>
        d !in beans.throwers && forall i :: 0 <= i < |D.Succ(beans.graph, d)| ==> D.Succ(beans.graph, d)[i] in built
      modifies this
      ensures Valid() && stack == old(stack)[..|old(stack)| - 1]
      ensures old(materializing) == materializing + (if Stored(beans, d) then [d] else [])
      ensures built == old(built) + (if r.Ok? then [d] else [])
      ensures Extends(old(instances), instances) && old(inUse) <= inUse
      ensures r.Ok? <==> outcome.Ok?
      ensures r.Ok? && d !in beans.aliases ==> RightObject(beans, d, r.obj, instances, old(inUse)) && r.obj in inUse
      ensures r.Err? ==> r == outcome
    {
      if outcome.Ok? {
        var obj := Store(d);
        r := Ok(obj);
      } else {
        Release(d);
        r := outcome;
      }
    }

    method Claim(d: nat)
      requires Valid() && d in beans.graph && NeededByTop(beans, stack, d) && d !in stack
      requires Stored(beans, d) ==> d !in instances
      modifies this`stack, this`materializing
      ensures Valid() && stack == old(stack) + [d]
      ensures materializing == old(materializing) + (if Stored(beans, d) then [d] else [])
    {
      PushOk(beans, stack, d);
      stack := stack + [d];
      if Stored(beans, d) {
        materializing := materializing + [d];
      }
    }

    /** The claim of the innermost bean leaves the in-flight list together with its stack entry. */
    method Release(d: nat)
      requires Valid() && stack != [] && stack[|stack| - 1] == d
      modifies this`stack, this`materializing
      ensures Valid() && stack == old(stack)[..|old(stack)| - 1]
      ensures old(materializing) == materializing + (if Stored(beans, d) then [d] else [])
    {
      PopOk(beans, stack);
      if Stored(beans, d) {
        materializing := materializing[..|materializing| - 1];
      }
      stack := stack[..|stack| - 1];
    }

    method Store(d: nat) returns (obj: nat)
      requires Valid() && stack != [] && stack[|stack| - 1] == d
      requires d !in beans.throwers && forall i :: 0 <= i < |D.Succ(beans.graph, d)| ==> D.Succ(beans.graph, d)[i] in built
      modifies this
      ensures Valid() && stack == old(stack)[..|old(stack)| - 1]
      ensures old(materializing) == materializing + (if Stored(beans, d) then [d] else [])
      ensures built == old(built) + [d]
      ensures Stored(beans, d) ==> d !in old(instances)
      ensures instances == if Stored(beans, d) then old(instances)[d := obj] else old(instances)
      ensures order == old(order) + (if Stored(beans, d) then [d] else [])
      ensures obj !in old(inUse) && inUse == old(inUse) + {obj}
    {
      obj := nextObject;
      Release(d);
      RecordBuilt(beans, built, order, instances, d, obj);
      Put(d, obj);
    }

    method Put(d: nat, obj: nat)
      requires obj == nextObject
      modifies this`nextObject, this`inUse, this`built, this`instances, this`order
      ensures nextObject == old(nextObject) + 1 && inUse == old(inUse) + {obj} && built == old(built) + [d]
      ensures instances == if Stored(beans, d) then old(instances)[d := obj] else old(instances)
      ensures order == old(order) + (if Stored(beans, d) then [d] else [])
    {
      nextObject := nextObject + 1;
      inUse, built := inUse + {obj}, built + [d];
      if Stored(beans, d) {
        instances := instances[d := obj];
        order := order + [d];
      }
    }

    /** The constructor of `d`: its parameters are resolved, then its body runs. */
    method ResolveAll(d: nat) returns (r: Result)
      requires Valid() && d in beans.graph && d !in beans.aliases
      requires stack != [] && stack[|stack| - 1] == d
      modifies this
      ensures Valid() && stack == old(stack) && materializing == old(materializing)
      ensures AddedFor(beans, old(built), built, d) && Extends(old(instances), instances) && old(inUse) <= inUse
      ensures r.Ok? ==> d !in beans.throwers && forall i :: 0 <= i < |beans.graph[d]| ==> beans.graph[d][i] in built
      ensures Justified(beans, r, d)
      decreases |beans.graph.Keys| - |stack|, 6
    {
      r := ResolveDependencies(d);
      if r.Ok? && d in beans.throwers {
        assert D.Reaches(beans.graph, d, d);
        r := Err(ConstructorError);
      }
    }

    /** From left to right, until one throws. */
    method ResolveDependencies(d: nat) returns (r: Result)
      requires Valid() && d in beans.graph && d !in beans.aliases
      requires stack != [] && stack[|stack| - 1] == d
      modifies this
      ensures Valid() && stack == old(stack) && materializing == old(materializing)
      ensures AddedFor(beans, old(built), built, d) && Extends(old(instances), instances) && old(inUse) <= inUse
      ensures r.Ok? ==> forall i :: 0 <= i < |beans.graph[d]| ==> beans.graph[d][i] in built
      ensures Justified(beans, r, d)
      decreases |beans.graph.Keys| - |stack|, 5
    {
      var deps := beans.graph[d];
      var i := 0;
      r := Ok(0);
      while i < |deps| && r.Ok?
        invariant 0 <= i <= |deps|
        invariant Valid() && stack == old(stack) && materializing == old(materializing)
        invariant AddedFor(beans, old(built), built, d) && Extends(old(instances), instances) && old(inUse) <= inUse
        invariant r.Ok? ==> forall j :: 0 <= j < i ==> deps[j] in built
        invariant Justified(beans, r, d)
      {
        ghost var mid, midway := built, instances;
        r := ResolveDependency(d, deps[i]);
        AddedTogether(beans, old(built), mid, built, d, old(instances), midway, instances);
        i := i + 1;
      }
    }

    method ResolveDependency(d: nat, p: nat) returns (r: Result)
      requires Valid() && d in beans.graph && stack != [] && stack[|stack| - 1] == d && p in D.Succ(beans.graph, d)
      modifies this
      ensures Valid() && stack == old(stack) && materializing == old(materializing)
      ensures AddedFor(beans, old(built), built, d) && Extends(old(instances), instances) && old(inUse) <= inUse
      ensures r.Ok? ==> p in built
      ensures Justified(beans, r, d)
      decreases |beans.graph.Keys| - |stack|, 4
    {
      D.EdgeLeads(beans.graph, d, p);
      r := Materialize(p);
      AddedForNeeded(beans, old(built), old(built), built, d, p);
      JustifiedBelow(beans, r, d, p);
    }

    /**
     The outermost call fails if and only if a cycle or a throwing constructor
     is within reach; otherwise it returns the object of the bean.
     */
    method Resolve(d: nat) returns (r: Result)
      requires Valid() && d in beans.graph && stack == []
      modifies this
      ensures Valid() && stack == [] && materializing == []
      ensures AddedFor(beans, old(built), built, d) && Extends(old(instances), instances) && old(inUse) <= inUse
      ensures r.Ok? <==> !CycleReachable(beans, d) && !ThrowerReachable(beans, d)
      ensures r == Err(CycleError) ==> CycleReachable(beans, d)
      ensures beans.throwers == {} ==> (r == Err(CycleError) <==> CycleReachable(beans, d))
      ensures r.Ok? && d in beans.singletons && d !in beans.aliases ==> d in instances && instances[d] == r.obj
      ensures r.Ok? && d in beans.singletons && d in beans.aliases ==>
        |beans.graph[d]| == 1 && beans.graph[d][0] in instances && instances[beans.graph[d][0]] == r.obj
      ensures r.Ok? && d !in beans.singletons ==>
        r.obj !in old(inUse) && forall k :: k in instances ==> instances[k] != r.obj
      ensures r.Ok? ==> r.obj in inUse
      ensures forall k, l :: k in instances && l in instances && k != l ==> instances[k] != instances[l]
    {
      r := Materialize(d);
      match r
      case Ok(_) => BuiltIsClean(beans, built, d);
      case Err(CycleError) => assert CycleReachable(beans, d);
      case Err(ConstructorError) => assert ThrowerReachable(beans, d);
    }
  }
}
