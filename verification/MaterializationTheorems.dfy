/** What the materialization protocol guarantees over every run of any number of threads. */
module MaterializationTheorems {
  import opened Common
  import opened WaitGraph
  import opened MaterializationTable
  import opened MaterializationProtocol
  import Digraph

  // --- Runs -----------------------------------------------------------------------

  /**
   A started registry: the implicit context bean is stored first, then the
   instances bound before start; no bean is in flight and every thread is idle.
   */
  ghost predicate Init(g: Beans, s: State, context: Key) {
    && s.materializing == [] && s.waits == map[] && NO_TOKEN !in s.threads
    && s.order != [] && s.order[0] == context && s.completed == s.order && NoDuplicates(s.order)
    && (forall k :: k in s.order <==> k in s.instances)
    && (forall k :: k in s.order ==> k in g.shared && Deps(g, k) == [])
    && (forall k :: k in s.instances ==> s.instances[k] < s.nextObject)
    && (forall k, l :: k in s.instances && l in s.instances && s.instances[k] == s.instances[l] ==> k == l)
    && (forall t :: t in s.threads ==> s.threads[t] == Thread([], Running, []))
  }

  ghost predicate Run(g: Beans, states: seq<State>, steps: seq<(Token, Action)>) {
    && |states| == |steps| + 1
    && forall i :: 0 <= i < |steps| ==>
         Enabled(g, states[i], steps[i].0, steps[i].1)
         && states[i + 1] == Apply(g, states[i], steps[i].0, steps[i].1)
  }

  lemma {:induction false} AllShared(g: Beans, ks: seq<Key>)
    requires forall k :: k in ks ==> k in g.shared
    ensures SharedOnly(g, ks) == ks
  {
    if ks != [] {
      AllShared(g, ks[..|ks| - 1]);
    }
  }

  lemma {:induction false} InitOk(g: Beans, s: State, context: Key)
    requires Init(g, s, context)
    ensures Inv(g, s)
  {
    AllShared(g, s.order);
    forall i | 0 <= i < |s.order|
      ensures Digraph.Succ(g.deps, s.order[i]) == []
    {
      assert Deps(g, s.order[i]) == [];
    }
    assert Edges(s.materializing, s.waits) == map[];
    forall t: Token
      ensures Drains(Edges(s.materializing, s.waits), t)
    {
      assert Ends(Edges(s.materializing, s.waits), t, 0);
    }
    forall t, k
      ensures Owns(s.materializing, t, k) <==> Constructs(g, s, t, k)
    {
    }
  }

  lemma {:induction false} RunKeeps(g: Beans, states: seq<State>, steps: seq<(Token, Action)>, context: Key, i: nat)
    requires Run(g, states, steps) && Init(g, states[0], context) && i <= |steps|
    ensures Inv(g, states[i])
    decreases i
  {
    if i == 0 {
      InitOk(g, states[0], context);
    } else {
      RunKeeps(g, states, steps, context, i - 1);
      StepKeeps(g, states[i - 1], steps[i - 1].0, steps[i - 1].1);
    }
  }

  /** The last state of some run from a started registry. */
  ghost predicate Reachable(g: Beans, s: State) {
    exists states, steps, context ::
      Run(g, states, steps) && Init(g, states[0], context) && states[|steps|] == s
  }

  lemma {:induction false} ReachableOk(g: Beans, s: State)
    requires Reachable(g, s)
    ensures Inv(g, s)
  {
    var states, steps, context :| Run(g, states, steps) && Init(g, states[0], context) && states[|steps|] == s;
    RunKeeps(g, states, steps, context, |steps|);
  }

  // --- At most once -----------------------------------------------------------------

  /** The insertion order only grew, and what was stored is still stored. */
  ghost predicate Grew(s: State, s': State) {
    s.order <= s'.order &&
    forall k :: k in s.instances ==> k in s'.instances && s'.instances[k] == s.instances[k]
  }

  lemma {:induction false} GrewTransitively(s: State, s': State, s'': State)
    requires Grew(s, s') && Grew(s', s'')
    ensures Grew(s, s'')
  {
  }

  lemma {:induction false} StepGrows(g: Beans, s: State, t: Token, a: Action)
    requires Enabled(g, s, t, a)
    requires a == AComplete && TopKey(s, t) in g.shared ==> TopKey(s, t) !in s.instances
    ensures Grew(s, Apply(g, s, t, a))
  {
  }

  lemma {:induction false} StepStores(g: Beans, s: State, t: Token, a: Action)
    requires Inv(g, s) && Enabled(g, s, t, a)
    ensures Grew(s, Apply(g, s, t, a))
  {
    assert a == AComplete && TopKey(s, t) in g.shared ==> TopKey(s, t) !in s.instances by {
      if a == AComplete && TopKey(s, t) in g.shared {
        CompleteSharedOrderOk(g, s, t);
      }
    }
    StepGrows(g, s, t, a);
  }

  lemma {:induction false} RunStepStores(g: Beans, states: seq<State>, steps: seq<(Token, Action)>, context: Key, i: nat)
    requires Run(g, states, steps) && Init(g, states[0], context) && i < |steps|
    ensures Grew(states[i], states[i + 1])
  {
    RunKeeps(g, states, steps, context, i);
    StepStores(g, states[i], steps[i].0, steps[i].1);
  }

  lemma {:induction false} GrewAlong(states: seq<State>, i: nat, j: nat)
    requires i <= j < |states| && forall h :: 0 <= h < |states| - 1 ==> Grew(states[h], states[h + 1])
    ensures Grew(states[i], states[j])
    decreases j
  {
    if i < j {
      GrewAlong(states, i, j - 1);
      GrewTransitively(states[i], states[j - 1], states[j - 1 + 1]);
    }
  }

  /** Over a whole run, an instance that has been stored stays the instance of its key. */
  lemma {:induction false} StoredForGood(
    g: Beans, states: seq<State>, steps: seq<(Token, Action)>, context: Key, i: nat, j: nat)
    requires Run(g, states, steps) && Init(g, states[0], context) && i <= j <= |steps|
    ensures Grew(states[i], states[j])
  {
    forall h | 0 <= h < |states| - 1
      ensures Grew(states[h], states[h + 1])
    {
      RunStepStores(g, states, steps, context, h);
    }
    GrewAlong(states, i, j);
  }

  /** No key is ever stored twice. */
  lemma {:induction false} StoredOnce(
    g: Beans, states: seq<State>, steps: seq<(Token, Action)>, context: Key, i: nat)
    requires Run(g, states, steps) && Init(g, states[0], context) && i <= |steps|
    ensures NoDuplicates(states[i].order)
    ensures forall k :: k in states[i].order <==> k in states[i].instances
  {
    RunKeeps(g, states, steps, context, i);
  }

  /** A thread holds `v` as what it got for `k`: as the answer to a request, or injected into a bean it is building. */
  ghost predicate Holds(g: Beans, s: State, t: Token, k: Key, v: nat) {
    t in s.threads &&
    var th := s.threads[t];
    || (exists p :: 0 <= p < |th.results| && th.results[p] == (k, v))
    || (exists f, n :: 0 <= f < |th.stack| && InjectedAt(g, th.stack[f], n, k, v))
  }

  predicate InjectedAt(g: Beans, f: Frame, n: nat, k: Key, v: nat) {
    n < |f.args| && n < |Deps(g, f.key)| && Deps(g, f.key)[n] == k && f.args[n] == v
  }

  lemma {:induction false} HeldIsBuilt(g: Beans, s: State, t: Token, k: Key, v: nat)
    requires Inv(g, s) && Holds(g, s, t, k, v)
    ensures Built(g, s, k, v)
  {
    var th := s.threads[t];
    assert ThreadOk(g, s, t, th);
    if f, n :| 0 <= f < |th.stack| && InjectedAt(g, th.stack[f], n, k, v) {
      assert FrameOk(g, s, th.stack[f]);
    }
  }

  /**
   A shared bean is one object: whatever any two threads were given for its key
   at any two moments of the run, as an answer or as a constructor argument, is
   the same, and it is the stored instance.
   */
  lemma {:induction false} OneObjectPerKey(
    g: Beans, states: seq<State>, steps: seq<(Token, Action)>, context: Key,
    i: nat, j: nat, t: Token, u: Token, k: Key, v: nat, w: nat)
    requires Run(g, states, steps) && Init(g, states[0], context) && i <= j <= |steps| && k in g.shared
    requires Holds(g, states[i], t, k, v) && Holds(g, states[j], u, k, w)
    ensures v == w && k in states[j].instances && states[j].instances[k] == v
  {
    RunKeeps(g, states, steps, context, i);
    RunKeeps(g, states, steps, context, j);
    StoredForGood(g, states, steps, context, i, j);
    HeldIsBuilt(g, states[i], t, k, v);
    HeldIsBuilt(g, states[j], u, k, w);
  }

  /** In flight means: one entry, nothing stored, and exactly one thread with the bean on its stack. */
  lemma {:induction false} InFlightIsExclusive(g: Beans, s: State, i: nat)
    requires Reachable(g, s) && i < |s.materializing|
    ensures s.materializing[i].key !in s.instances
    ensures forall j: nat :: j < |s.materializing| && j != i ==> s.materializing[j].key != s.materializing[i].key
    ensures forall t :: t in s.threads ==>
              (HasFrame(s.threads[t].stack, s.materializing[i].key) <==> t == s.materializing[i].owner)
  {
    ReachableOk(g, s);
    var k := s.materializing[i].key;
    UniqueOwner(s.materializing, i);
    assert Owns(s.materializing, s.materializing[i].owner, k);
    assert Constructs(g, s, s.materializing[i].owner, k);
    forall t | t in s.threads
      ensures HasFrame(s.threads[t].stack, k) <==> t == s.materializing[i].owner
    {
      assert Owns(s.materializing, t, k) <==> Constructs(g, s, t, k);
    }
  }

  /** A constructor that throws gives its claim back: the next thread that asks gets the claim. */
  lemma {:induction false} FailureAllowsRetry(g: Beans, s: State, t: Token, u: Token)
    requires Reachable(g, s) && Enabled(g, s, t, AFail) && TopKey(s, t) in g.shared
    requires var s' := Fail(g, s, t); u in s'.threads && Enabled(g, s', u, AResolve(TopKey(s, t)))
    requires !OnStack(Fail(g, s, t).threads[u].stack, TopKey(s, t).desc)
    ensures var k, s'' := TopKey(s, t), Resolve(g, Fail(g, s, t), u, TopKey(s, t));
      OwnerOf(s''.materializing, k) == Some(u) && HasFrame(s''.threads[u].stack, k)
  {
    ReachableOk(g, s);
    FailureReleases(g, s, t);
    AskerGetsClaim(g, Fail(g, s, t), u, TopKey(s, t));
  }

  lemma {:induction false} AskerGetsClaim(g: Beans, s: State, u: Token, k: Key)
    requires u in s.threads && k in g.shared && !OnStack(s.threads[u].stack, k.desc)
    requires UniqueKeys(s.materializing) && OwnerOf(s.materializing, k).None? && k !in s.instances
    ensures var s' := Resolve(g, s, u, k); OwnerOf(s'.materializing, k) == Some(u) && HasFrame(s'.threads[u].stack, k)
  {
    ClaimIsOwned(Enter(s, u), u, k);
  }

  lemma {:induction false} FailureReleases(g: Beans, s: State, t: Token)
    requires Inv(g, s) && Enabled(g, s, t, AFail) && TopKey(s, t) in g.shared
    ensures var s', k := Fail(g, s, t), TopKey(s, t);
      UniqueKeys(s'.materializing) && OwnerOf(s'.materializing, k).None? && k !in s'.instances
  {
    var s', k := Fail(g, s, t), TopKey(s, t);
    assert ThreadOk(g, s, t, s.threads[t]);
    ReleaseClaimsOk(g, s, s', t);
    assert s.threads[t].stack[|s.threads[t].stack| - 1].key == k;
    assert Constructs(g, s, t, k);
    assert Owns(s.materializing, t, k);
  }

  lemma {:induction false} ClaimIsOwned(s: State, u: Token, k: Key)
    requires u in s.threads && UniqueKeys(s.materializing) && OwnerOf(s.materializing, k).None?
    ensures var s' := Claim(s, u, k); OwnerOf(s'.materializing, k) == Some(u) && HasFrame(s'.threads[u].stack, k)
  {
    PushOwners(s.materializing, Entry(k, u), k);
    var stack := Claim(s, u, k).threads[u].stack;
    assert stack[|stack| - 1].key == k;
  }

  // --- Deadlock freedom ---------------------------------------------------------------

  /** A step that is due: not a spurious wake-up, not a failure the bean has to choose, not a new request or binding. */
  predicate Due(g: Beans, s: State, t: Token, a: Action) {
    Enabled(g, s, t, a) &&
    match a
    case AResolve(_) => s.threads[t].stack != []
    case AFail => s.threads[t].phase.Unwinding?
    case AHookThrow => false
    case ABind(_) => false
    case AWake => s.threads[t].phase.notified
    case _ => true
  }

  lemma {:induction false} BusyThreadHasStep(g: Beans, s: State, t: Token) returns (a: Action)
    requires Inv(g, s) && t in s.threads && s.threads[t].stack != [] && !s.threads[t].phase.Waiting?
    ensures Due(g, s, t, a)
  {
    var th := s.threads[t];
    var f := Top(th.stack);
    assert ThreadOk(g, s, t, th);
    assert FrameOk(g, s, f);
    a := match th.phase
      case Running => if |f.args| < |Deps(g, f.key)| then AResolve(Deps(g, f.key)[|f.args|]) else AComplete
      case Notifying(_, _) => ANotify
      case Announcing(_, _) => AReturn
      case _ => AFail;
  }

  lemma {:induction false} PathEndOwns(g: Beans, s: State, t: Token, u: Token, i: nat)
    requires Inv(g, s) && i > 0 && Follow(Edges(s.materializing, s.waits), t, i) == Some(u)
    ensures u in s.threads && s.threads[u].stack != []
  {
    OwnerIsListed(s.materializing, s.waits[t].key);
    PathStaysInOwners(s.materializing, s.waits, Edges(s.materializing, s.waits)[t], i - 1);
    var p :| 0 <= p < |s.materializing| && s.materializing[p].owner == u;
    UniqueOwner(s.materializing, p);
    assert Owns(s.materializing, u, s.materializing[p].key);
  }

  lemma {:induction false} WaiterHasDueStep(g: Beans, s: State, t: Token) returns (v: Token, a: Action)
    requires Inv(g, s) && t in s.threads && s.threads[t].phase.Waiting?
    ensures Due(g, s, v, a)
  {
    var edges := Edges(s.materializing, s.waits);
    assert Drains(edges, t);
    var n: nat :| Ends(edges, t, n);
    var u, i := PathEnd(edges, t, n);
    if i > 0 {
      PathEndOwns(g, s, t, u, i);
    }
    assert ThreadOk(g, s, u, s.threads[u]);
    if s.threads[u].phase.Waiting? {
      if s.threads[u].phase.notified {
        v, a := u, AWake;
      } else {
        v :| v in s.threads && s.threads[v].phase.Notifying?;
        a := ANotify;
      }
    } else {
      v := u;
      a := BusyThreadHasStep(g, s, u);
    }
  }

  /**
   No reachable state is deadlocked: while a thread waits, a step is due in the
   thread at the end of its wait path or in a thread that has yet to notify.
   */
  lemma {:induction false} DeadlockFree(g: Beans, s: State, t: Token)
    requires Reachable(g, s) && t in s.threads && s.threads[t].phase.Waiting?
    ensures exists u, a :: Due(g, s, u, a)
  {
    ReachableOk(g, s);
    var u, a := WaiterHasDueStep(g, s, t);
  }

  lemma {:induction false} RefusalMatchesGraph(g: Beans, s: State, t: Token, k: Key)
    requires Inv(g, s) && t in s.threads && s.threads[t].phase.Running?
    requires k !in s.instances && OwnerOf(s.materializing, k).Some? && OwnerOf(s.materializing, k).value != t
    ensures Attempt(s, t, k).threads[t].phase.Unwinding?
            <==> !Acyclic(Edges(s.materializing, s.waits)[t := OwnerOf(s.materializing, k).value])
  {
    var edges, o := Edges(s.materializing, s.waits), OwnerOf(s.materializing, k).value;
    assert ThreadOk(g, s, t, s.threads[t]);
    if s.threads[t].stack == [] {
      IdleThreadUnreachable(g, s, t, k);
    }
    if Reaches(edges, o, t) {
      AddEdgeClosesCycle(edges, t, o);
    } else {
      AddEdgeKeepsAcyclic(edges, t, o);
    }
  }

  /** The refusal is exact: waiting is refused if and only if the new edge would close a cycle of waiting threads. */
  lemma {:induction false} RefusalIsExact(g: Beans, s: State, t: Token, k: Key)
    requires Reachable(g, s) && t in s.threads && s.threads[t].phase.Running?
    requires k !in s.instances && OwnerOf(s.materializing, k).Some? && OwnerOf(s.materializing, k).value != t
    ensures Attempt(s, t, k).threads[t].phase.Unwinding?
            <==> !Acyclic(Edges(s.materializing, s.waits)[t := OwnerOf(s.materializing, k).value])
  {
    ReachableOk(g, s);
    RefusalMatchesGraph(g, s, t, k);
  }

  // --- Cycle errors are real --------------------------------------------------------------

  /** `a` needs `b` through one or more constructor dependencies. */
  ghost predicate DependsOn(g: Beans, a: Key, b: Key) {
    Digraph.Leads(g.deps, a, b)
  }

  function StackKeys(stack: seq<Frame>, k: Key): seq<Key> {
    seq(|stack| + 1, i requires 0 <= i <= |stack| => if i < |stack| then stack[i].key else k)
  }

  /** Each frame is what the constructor of the frame below depends on. */
  lemma {:induction false} FrameNeeded(g: Beans, stack: seq<Frame>, j: nat, k: Key)
    requires StackOk(g, stack) && Requests(g, stack, k) && 0 < j <= |stack|
    ensures StackKeys(stack, k)[j] in Deps(g, StackKeys(stack, k)[j - 1])
  {
    if j < |stack| {
      assert Requests(g, stack[..j], stack[j].key);
    }
  }

  /** Every bean under construction on a thread depends on what the thread requests. */
  lemma {:induction false} StackDepends(g: Beans, stack: seq<Frame>, i: nat, k: Key)
    requires StackOk(g, stack) && i < |stack| && Requests(g, stack, k)
    ensures DependsOn(g, stack[i].key, k)
  {
    var p := StackKeys(stack, k)[i..];
    forall j | 0 < j < |p|
      ensures p[j] in Deps(g, p[j - 1])
    {
      FrameNeeded(g, stack, i + j, k);
    }
    assert Digraph.IsPath(g.deps, p) && |p| >= 2 && p[0] == stack[i].key && p[|p| - 1] == k;
  }

  lemma {:induction false} OwnerDependsOnWanted(g: Beans, s: State, k: Key, o: Token)
    requires Inv(g, s) && Owns(s.materializing, o, k) && o in s.waits && s.waits[o].active
    ensures DependsOn(g, k, s.waits[o].key)
  {
    assert Constructs(g, s, o, k);
    assert ThreadOk(g, s, o, s.threads[o]);
    var i :| 0 <= i < |s.threads[o].stack| && s.threads[o].stack[i].key == k;
    StackDepends(g, s.threads[o].stack, i, s.waits[o].key);
  }

  /** Along wait edges, a claimed key depends on some key the last thread has under construction. */
  lemma {:induction false} WaitPathDepends(
    g: Beans, m: seq<Entry>, waits: map<Token, Wait>, k: Key, o: Token, t: Token, n: nat) returns (y: Key)
    requires Owns(m, o, k) && Follow(Edges(m, waits), o, n) == Some(t)
    requires forall o, k :: Owns(m, o, k) && o in waits && waits[o].active ==> DependsOn(g, k, waits[o].key)
    ensures Owns(m, t, y) && (k == y || DependsOn(g, k, y))
    decreases n
  {
    y := k;
    if n > 0 {
      var wanted := waits[o].key;
      y := WaitPathDepends(g, m, waits, wanted, OwnerOf(m, wanted).value, t, n - 1);
      if wanted != y {
        Digraph.LeadsTransitively(g.deps, k, wanted, y);
      }
    }
  }

  /** The thread is already building the requested descriptor for another scope. */
  predicate OtherScopeOnStack(stack: seq<Frame>, k: Key) {
    exists i :: 0 <= i < |stack| && stack[i].key.desc == k.desc && stack[i].key != k
  }

  lemma {:induction false} OnStackIsCycle(g: Beans, stack: seq<Frame>, k: Key)
    requires StackOk(g, stack) && Requests(g, stack, k) && OnStack(stack, k.desc) && !OtherScopeOnStack(stack, k)
    ensures DependsOn(g, k, k)
  {
    var i :| 0 <= i < |stack| && stack[i].key.desc == k.desc;
    StackDepends(g, stack, i, k);
  }

  lemma {:induction false} RefusedWaitIsCycle(g: Beans, s: State, t: Token, k: Key)
    requires Inv(g, s) && t in s.threads && Requests(g, s.threads[t].stack, k)
    requires OwnerOf(s.materializing, k).Some?
    requires Reaches(Edges(s.materializing, s.waits), OwnerOf(s.materializing, k).value, t)
    ensures DependsOn(g, k, k)
  {
    var o := OwnerOf(s.materializing, k).value;
    var n: nat :| Follow(Edges(s.materializing, s.waits), o, n) == Some(t);
    forall o, k | Owns(s.materializing, o, k) && o in s.waits && s.waits[o].active
      ensures DependsOn(g, k, s.waits[o].key)
    {
      OwnerDependsOnWanted(g, s, k, o);
    }
    var y := WaitPathDepends(g, s.materializing, s.waits, k, o, t, n);
    assert Constructs(g, s, t, y);
    assert ThreadOk(g, s, t, s.threads[t]);
    var i :| 0 <= i < |s.threads[t].stack| && s.threads[t].stack[i].key == y;
    StackDepends(g, s.threads[t].stack, i, k);
    if k != y {
      Digraph.LeadsTransitively(g.deps, k, y, k);
    }
  }

  ghost predicate Refuses(g: Beans, s: State, t: Token, a: Action)
    requires Enabled(g, s, t, a)
  {
    (a.AResolve? || a.AWake?) && Apply(g, s, t, a).threads[t].phase.Unwinding?
  }

  function RequestOf(s: State, t: Token, a: Action): Key
    requires t in s.threads && (a.AResolve? || s.threads[t].phase.Waiting?)
  {
    if a.AResolve? then a.key else s.threads[t].phase.key
  }

  lemma {:induction false} AttemptRefusal(g: Beans, s: State, t: Token, k: Key)
    requires Inv(g, s) && t in s.threads && s.threads[t].phase.Running? && k in g.shared
    requires Requests(g, s.threads[t].stack, k) && !OnStack(s.threads[t].stack, k.desc)
    requires Attempt(s, t, k).threads[t].phase.Unwinding?
    ensures DependsOn(g, k, k)
  {
    assert !HasFrame(s.threads[t].stack, k);
    assert !Owns(s.materializing, t, k) by {
      assert Owns(s.materializing, t, k) <==> Constructs(g, s, t, k);
    }
    RefusedWaitIsCycle(g, s, t, k);
  }

  /**
   The cycle errors, of one thread or across threads, are never spurious: a
   request is refused only if the requested bean depends on itself, or if the
   thread is already building the same descriptor for another scope.
   */
  lemma {:induction false} RefusalMeansCycle(g: Beans, s: State, t: Token, a: Action)
    requires Reachable(g, s) && Enabled(g, s, t, a) && Refuses(g, s, t, a)
    ensures var k := RequestOf(s, t, a);
      DependsOn(g, k, k) || OtherScopeOnStack(s.threads[t].stack, k)
  {
    ReachableOk(g, s);
    var k := RequestOf(s, t, a);
    var stack := s.threads[t].stack;
    assert ThreadOk(g, s, t, s.threads[t]);
    if OnStack(stack, k.desc) {
      if !OtherScopeOnStack(stack, k) {
        OnStackIsCycle(g, stack, k);
      }
    } else {
      assert k in g.shared;
      EnterKeeps(g, s, t);
      AttemptRefusal(g, Enter(s, t), t, k);
    }
  }

  /** The stack compares descriptors only. */
  lemma {:induction false} OtherScopeIsRefused(g: Beans, s: State, t: Token, k: Key)
    requires Enabled(g, s, t, AResolve(k)) && OtherScopeOnStack(s.threads[t].stack, k)
    requires k !in s.instances || k !in g.shared
    ensures Refuses(g, s, t, AResolve(k))
  {
    assert OnStack(s.threads[t].stack, k.desc);
  }

  /**
   Exactly when a request without a dependency cycle is refused: if and only if
   the thread already builds the descriptor for another scope.
   */
  lemma {:induction false} AcyclicRequestRefusedIff(g: Beans, s: State, t: Token, k: Key)
    requires Reachable(g, s) && Enabled(g, s, t, AResolve(k)) && (k !in s.instances || k !in g.shared)
    requires !DependsOn(g, k, k)
    ensures Refuses(g, s, t, AResolve(k)) <==> OtherScopeOnStack(s.threads[t].stack, k)
  {
    if Refuses(g, s, t, AResolve(k)) {
      RefusalMeansCycle(g, s, t, AResolve(k));
    }
    if OtherScopeOnStack(s.threads[t].stack, k) {
      OtherScopeIsRefused(g, s, t, k);
    }
  }

  const CONTEXT := Key(0, None)
  const ONE := Key(1, Some(1))
  const TWO := Key(1, Some(2))

  /** The session bean 1 of scope 1 needs the one of scope 2, which needs nothing. */
  const TWO_SCOPES := Beans(map[ONE := [TWO]], {CONTEXT, ONE, TWO})

  const IDLE_START := State([], map[], map[CONTEXT := 0], [CONTEXT], [CONTEXT], 1, map[1 := Thread([], Running, [])])

  lemma {:induction false} TwoScopesPath(p: seq<Key>)
    requires |p| >= 2 && Digraph.IsPath(TWO_SCOPES.deps, p)
    ensures p[0] == ONE && p[|p| - 1] == TWO
  {
    assert p[1] in Digraph.Succ(TWO_SCOPES.deps, p[0]);
    assert p[|p| - 1] in Digraph.Succ(TWO_SCOPES.deps, p[|p| - 2]);
  }

  lemma {:induction false} TwoScopesAcyclic(k: Key)
    ensures !DependsOn(TWO_SCOPES, k, k)
  {
    if p :| |p| >= 2 && p[0] == k && p[|p| - 1] == k && Digraph.IsPath(TWO_SCOPES.deps, p) {
      TwoScopesPath(p);
    }
  }

  lemma {:induction false} FirstClaim(s: State)
    requires s == Apply(TWO_SCOPES, IDLE_START, 1, AResolve(ONE))
    ensures Reachable(TWO_SCOPES, s) && s.threads == map[1 := Thread([Frame(ONE, [])], Running, [])]
    ensures s.instances == map[CONTEXT := 0]
  {
    assert Enabled(TWO_SCOPES, IDLE_START, 1, AResolve(ONE));
    var states, steps := [IDLE_START, s], [(1, AResolve(ONE))];
    assert Run(TWO_SCOPES, states, steps) && Init(TWO_SCOPES, states[0], CONTEXT) && states[|steps|] == s;
    assert OwnerOf([], ONE) == None;
    assert [] + [Frame(ONE, [])] == [Frame(ONE, [])];
  }

  /** Such a refusal occurs: a reachable state, a dependency graph without any cycle, and a request that is refused. */
  lemma {:induction false} CrossScopeRefusal() returns (s: State)
    ensures Reachable(TWO_SCOPES, s) && forall k :: !DependsOn(TWO_SCOPES, k, k)
    ensures Enabled(TWO_SCOPES, s, 1, AResolve(TWO)) && Refuses(TWO_SCOPES, s, 1, AResolve(TWO))
  {
    s := Apply(TWO_SCOPES, IDLE_START, 1, AResolve(ONE));
    FirstClaim(s);
    forall k {
      TwoScopesAcyclic(k);
    }
    var stack := s.threads[1].stack;
    assert stack[0].key.desc == TWO.desc && stack[0].key != TWO;
    assert Deps(TWO_SCOPES, ONE) == [TWO];
    AcyclicRequestRefusedIff(TWO_SCOPES, s, 1, TWO);
  }

  // --- Insertion order and destruction order ------------------------------------------------

  lemma {:induction false} SharedOnlyPrefix(g: Beans, ks: seq<Key>, i: nat)
    requires i <= |ks|
    ensures SharedOnly(g, ks[..i]) <= SharedOnly(g, ks)
  {
    if i < |ks| {
      SharedOnlyPrefix(g, ks[..|ks| - 1], i);
      assert ks[..|ks| - 1][..i] == ks[..i];
    } else {
      assert ks[..i] == ks;
    }
  }

  lemma {:induction false} DependencyIndex(g: Beans, s: State, a: Key, b: Key) returns (i: nat, j: nat)
    requires Inv(g, s) && a in s.order && b in g.shared && DependsOn(g, a, b)
    ensures j < i < |s.order| && s.order[i] == a && s.order[j] == b
  {
    SharedOnlyMembers(g, s.completed, a);
    var c :| 0 <= c < |s.completed| && s.completed[c] == a;
    c := Digraph.FirstIndex(s.completed, a, c);
    Digraph.LeadsBackwards(g.deps, s.completed, c, b);
    SharedOnlyPrefix(g, s.completed, c);
    var before := SharedOnly(g, s.completed[..c]);
    SharedOnlyMembers(g, s.completed[..c], b);
    SharedOnlyMembers(g, s.completed[..c], a);
    j :| 0 <= j < |before| && before[j] == b;
    i :| 0 <= i < |s.order| && s.order[i] == a;
    assert s.order[j] == b;
    assert forall x :: 0 <= x < |before| ==> s.order[x] == before[x] && before[x] != a;
  }

  /**
   In every reachable state, whatever a stored bean depends on, directly or
   through other beans and prototypes, precedes it in insertion order.
   */
  lemma {:induction false} DependenciesPrecede(g: Beans, s: State, a: Key, b: Key)
    requires Reachable(g, s) && a in s.order && b in g.shared && DependsOn(g, a, b)
    ensures exists i, j :: 0 <= j < i < |s.order| && s.order[i] == a && s.order[j] == b
  {
    ReachableOk(g, s);
    var i, j := DependencyIndex(g, s, a, b);
  }

  lemma {:induction false} ReversedMembers(ks: seq<Key>, k: Key)
    ensures k in Reversed(ks) <==> k in ks
  {
    if k in ks {
      var i :| 0 <= i < |ks| && ks[i] == k;
      assert Reversed(ks)[|ks| - 1 - i] == k;
    }
  }

  ghost predicate Before(ks: seq<Key>, a: Key, b: Key) {
    exists i, j :: 0 <= i < j < |ks| && ks[i] == a && ks[j] == b
  }

  lemma {:induction false} DependentSweptFirst(g: Beans, s: State, a: Key, b: Key)
    requires Inv(g, s) && a in s.order && b in g.shared && DependsOn(g, a, b)
    ensures Before(Reversed(s.order), a, b)
  {
    var i, j := DependencyIndex(g, s, a, b);
    var n, sweep := |s.order|, Reversed(s.order);
    assert sweep[n - 1 - i] == a && sweep[n - 1 - j] == b;
  }

  /**
   The stop-time sweep walks the insertion order backwards: it visits every
   stored bean exactly once, dependents before what they depend on, and the
   context bean last.
   */
  lemma {:induction false} SweepOrder(
    g: Beans, states: seq<State>, steps: seq<(Token, Action)>, context: Key)
    requires Run(g, states, steps) && Init(g, states[0], context)
    ensures var s := states[|steps|];
      var sweep := Reversed(s.order);
      && NoDuplicates(sweep)
      && (forall k :: k in sweep <==> k in s.instances)
      && sweep != [] && sweep[|sweep| - 1] == context
      && (forall a, b :: a in sweep && b in g.shared && DependsOn(g, a, b) ==> Before(sweep, a, b))
  {
    var s := states[|steps|];
    assert NoDuplicates(s.order) && s.order != [] && s.order[0] == context by {
      StoredForGood(g, states, steps, context, 0, |steps|);
      StoredOnce(g, states, steps, context, |steps|);
    }
    RunKeeps(g, states, steps, context, |steps|);
    forall k
      ensures k in Reversed(s.order) <==> k in s.instances
    {
      ReversedMembers(s.order, k);
    }
    forall a, b | a in Reversed(s.order) && b in g.shared && DependsOn(g, a, b)
      ensures Before(Reversed(s.order), a, b)
    {
      ReversedMembers(s.order, a);
      DependentSweptFirst(g, s, a, b);
    }
  }
}
