/**
 Which object every construction yields and every request is answered with,
 over all runs of the protocol. An object is one construction, not an address.
 */
module MaterializationObjects {
  import opened Common
  import opened WaitGraph
  import opened MaterializationTable
  import opened MaterializationProtocol
  import opened MaterializationTheorems
  import opened MaterializationProgress

  // --- Objects in use ---------------------------------------------------------------

  /** The thread has the object: injected into a bean it is building, as an answer, or about to be announced. */
  predicate HasObject(th: Thread, v: nat) {
    || (exists f, p :: 0 <= f < |th.stack| && 0 <= p < |th.stack[f].args| && th.stack[f].args[p] == v)
    || (exists p :: 0 <= p < |th.results| && th.results[p].1 == v)
    || (th.phase.Notifying? && th.phase.outcome == Some(v))
    || (th.phase.Announcing? && th.phase.obj == v)
  }

  /** The object is stored, or some thread has it. */
  predicate InUse(s: State, v: nat) {
    (exists k :: k in s.instances && s.instances[k] == v) || (exists t :: t in s.threads && HasObject(s.threads[t], v))
  }

  predicate AllBelow(args: seq<nat>, n: nat) {
    forall p :: 0 <= p < |args| ==> args[p] < n
  }

  predicate ThreadBelow(th: Thread, n: nat) {
    && (forall f :: 0 <= f < |th.stack| ==> AllBelow(th.stack[f].args, n))
    && (forall p :: 0 <= p < |th.results| ==> th.results[p].1 < n)
    && (th.phase.Notifying? && th.phase.outcome.Some? ==> th.phase.outcome.value < n)
    && (th.phase.Announcing? ==> th.phase.obj < n)
  }

  predicate InstancesOk(instances: map<Key, nat>, n: nat) {
    && (forall k :: k in instances ==> instances[k] < n)
    && (forall k, l :: k in instances && l in instances && instances[k] == instances[l] ==> k == l)
  }

  /** Different keys have different objects, and the next object is a new one. */
  predicate ObjectsOk(s: State) {
    InstancesOk(s.instances, s.nextObject) && forall t :: t in s.threads ==> ThreadBelow(s.threads[t], s.nextObject)
  }

  lemma {:induction false} InUseIsBelow(s: State, v: nat)
    requires ObjectsOk(s) && InUse(s, v)
    ensures v < s.nextObject
  {
    if t :| t in s.threads && HasObject(s.threads[t], v) {
      assert ThreadBelow(s.threads[t], s.nextObject);
    }
  }

  // --- Every step ---------------------------------------------------------------------

  lemma {:induction false} MoreBelow(th: Thread, n: nat, m: nat)
    requires ThreadBelow(th, n) && n <= m
    ensures ThreadBelow(th, m)
  {
    forall f | 0 <= f < |th.stack|
      ensures AllBelow(th.stack[f].args, m)
    {
      assert AllBelow(th.stack[f].args, n);
    }
  }

  lemma {:induction false} DeliverBelow(s: State, t: Token, k: Key, v: nat)
    requires ObjectsOk(s) && t in s.threads && v < s.nextObject
    ensures ObjectsOk(Deliver(s, t, k, v))
  {
    var th, th' := s.threads[t], Deliver(s, t, k, v).threads[t];
    assert ThreadBelow(th, s.nextObject);
    forall f | 0 <= f < |th'.stack|
      ensures AllBelow(th'.stack[f].args, s.nextObject)
    {
      assert AllBelow(th.stack[f].args, s.nextObject);
    }
  }

  lemma {:induction false} SetBelow(s: State, t: Token, th: Thread)
    requires ObjectsOk(s) && t in s.threads && ThreadBelow(th, s.nextObject)
    ensures ObjectsOk(SetThread(s, t, th))
  {
  }

  lemma {:induction false} PushBelow(s: State, t: Token, k: Key)
    requires ObjectsOk(s) && t in s.threads
    ensures ObjectsOk(Push(s, t, k))
  {
    var th, th' := s.threads[t], Push(s, t, k).threads[t];
    forall f | 0 <= f < |th'.stack|
      ensures AllBelow(th'.stack[f].args, s.nextObject)
    {
      assert f < |th.stack| ==> AllBelow(th.stack[f].args, s.nextObject);
    }
  }

  lemma {:induction false} PopBelow(th: Thread, n: nat)
    requires ThreadBelow(th, n) && th.stack != []
    ensures ThreadBelow(th.(stack := Pop(th.stack)), n)
    ensures ThreadBelow(th.(stack := Pop(th.stack), phase := Unwinding), n)
  {
  }

  lemma {:induction false} AttemptBelow(s: State, t: Token, k: Key)
    requires ObjectsOk(s) && t in s.threads
    ensures ObjectsOk(Attempt(s, t, k)) && Attempt(s, t, k).nextObject == s.nextObject
  {
    var stack := s.threads[t].stack;
    match OutcomeOf(s.materializing, s.waits, t, k, k in s.instances, OnStack(stack, k.desc), stack != [])
    case Found => DeliverBelow(s, t, k, s.instances[k]);
    case Claimed => PushBelow(s.(materializing := s.materializing + [Entry(k, t)]), t, k);
    case _ =>
  }

  lemma {:induction false} ResolveBelow(g: Beans, s: State, t: Token, k: Key)
    requires ObjectsOk(s) && t in s.threads
    ensures ObjectsOk(Resolve(g, s, t, k)) && Resolve(g, s, t, k).nextObject == s.nextObject
  {
    if k in g.shared {
      if k in s.instances {
        DeliverBelow(s, t, k, s.instances[k]);
      } else {
        AttemptBelow(Enter(s, t), t, k);
      }
    } else {
      PushBelow(s, t, k);
    }
  }

  lemma {:induction false} RecordedBelow(s: State, k: Key)
    requires ObjectsOk(s)
    ensures ObjectsOk(Recorded(s, k)) && s.nextObject < Recorded(s, k).nextObject
    ensures InstancesOk(s.instances[k := s.nextObject], Recorded(s, k).nextObject)
  {
    forall t | t in s.threads
      ensures ThreadBelow(s.threads[t], Recorded(s, k).nextObject)
    {
      MoreBelow(s.threads[t], s.nextObject, Recorded(s, k).nextObject);
    }
  }

  lemma {:induction false} CompleteBelow(g: Beans, s: State, t: Token)
    requires ObjectsOk(s) && t in s.threads && s.threads[t].stack != []
    ensures ObjectsOk(Complete(g, s, t)) && s.nextObject <= Complete(g, s, t).nextObject
  {
    var k := TopKey(s, t);
    RecordedBelow(s, k);
    PopBelow(s.threads[t], Recorded(s, k).nextObject);
    if k !in g.shared {
      SetBelow(Recorded(s, k), t, s.threads[t].(stack := Pop(s.threads[t].stack)));
      DeliverBelow(PopFrame(Recorded(s, k), t), t, k, s.nextObject);
    }
  }

  lemma {:induction false} StepBelow(g: Beans, s: State, t: Token, a: Action)
    requires ObjectsOk(s) && Enabled(g, s, t, a)
    ensures ObjectsOk(Apply(g, s, t, a)) && s.nextObject <= Apply(g, s, t, a).nextObject
  {
    var th := s.threads[t];
    assert ThreadBelow(th, s.nextObject);
    match a
    case AResolve(k) => ResolveBelow(g, s, t, k);
    case AComplete => CompleteBelow(g, s, t);
    case AFail => PopBelow(th, s.nextObject);
    case AReturn => DeliverBelow(s, t, th.phase.key, th.phase.obj);
    case AWake => AttemptBelow(Enter(s, t), t, th.phase.key);
    case ABind(k) => RecordedBelow(s, k);
    case _ =>
  }

  lemma {:induction false} RunBelow(g: Beans, states: seq<State>, steps: seq<(Token, Action)>, context: Key, i: nat, j: nat)
    requires Run(g, states, steps) && Init(g, states[0], context) && i <= j <= |steps|
    ensures ObjectsOk(states[j]) && states[i].nextObject <= states[j].nextObject
    decreases j
  {
    if j > 0 {
      if i < j {
        RunBelow(g, states, steps, context, i, j - 1);
      } else {
        RunBelow(g, states, steps, context, 0, j - 1);
      }
      StepBelow(g, states[j - 1], steps[j - 1].0, steps[j - 1].1);
    }
  }

  // --- What the runs guarantee -----------------------------------------------------------

  /** At no moment of a run is one object stored under two keys. */
  lemma {:induction false} DistinctObjects(
    g: Beans, states: seq<State>, steps: seq<(Token, Action)>, context: Key, i: nat, k: Key, l: Key)
    requires Run(g, states, steps) && Init(g, states[0], context) && i <= |steps|
    requires k in states[i].instances && l in states[i].instances && k != l
    ensures states[i].instances[k] != states[i].instances[l]
  {
    RunBelow(g, states, steps, context, i, i);
  }

  /** At no moment up to the i-th was the object stored, injected, answered or announced. */
  predicate NeverUsed(states: seq<State>, i: nat, v: nat)
    requires i < |states|
  {
    forall j :: 0 <= j <= i ==> !InUse(states[j], v)
  }

  lemma {:induction false} NextIsUnused(
    g: Beans, states: seq<State>, steps: seq<(Token, Action)>, context: Key, i: nat)
    requires Run(g, states, steps) && Init(g, states[0], context) && i <= |steps|
    ensures NeverUsed(states, i, states[i].nextObject)
  {
    forall j | 0 <= j <= i
      ensures !InUse(states[j], states[i].nextObject)
    {
      RunBelow(g, states, steps, context, j, i);
      RunBelow(g, states, steps, context, j, j);
      if InUse(states[j], states[i].nextObject) {
        InUseIsBelow(states[j], states[i].nextObject);
      }
    }
  }

  lemma {:induction false} OnlyNewIsStored(g: Beans, s: State, t: Token, a: Action, k: Key)
    requires Enabled(g, s, t, a) && k !in s.instances && k in Apply(g, s, t, a).instances
    ensures Apply(g, s, t, a).instances[k] == s.nextObject
  {
  }

  /** The object that a step stores has been in use at no earlier moment of the run. */
  lemma {:induction false} StoredIsNew(
    g: Beans, states: seq<State>, steps: seq<(Token, Action)>, context: Key, i: nat, k: Key)
    requires Run(g, states, steps) && Init(g, states[0], context) && i < |steps|
    requires k !in states[i].instances && k in states[i + 1].instances
    ensures NeverUsed(states, i, states[i + 1].instances[k])
  {
    NextIsUnused(g, states, steps, context, i);
    OnlyNewIsStored(g, states[i], steps[i].0, steps[i].1, k);
  }

  /**
   The thread's innermost bean k is finished with object v: the constructor
   below it gets v as its next argument, or the application as one more answer.
   */
  predicate HandedOver(th: Thread, th': Thread, k: Key, v: nat) {
    var n := |th.stack| - 1;
    && n >= 0 && th'.phase.Running? && |th'.stack| == n
    && if n == 0 then th'.results == th.results + [(k, v)]
       else
         && th'.results == th.results && th'.stack[..n - 1] == th.stack[..n - 1]
         && th'.stack[n - 1] == Frame(th.stack[n - 1].key, th.stack[n - 1].args + [v])
  }

  /** A prototype is handed over as an object that has been in use at no earlier moment of the run. */
  lemma {:induction false} PrototypeIsNew(
    g: Beans, states: seq<State>, steps: seq<(Token, Action)>, context: Key, i: nat, t: Token) returns (v: nat)
    requires Run(g, states, steps) && Init(g, states[0], context) && i < |steps|
    requires steps[i] == (t, AComplete) && TopKey(states[i], t) !in g.shared
    ensures t in states[i + 1].threads
    ensures HandedOver(states[i].threads[t], states[i + 1].threads[t], TopKey(states[i], t), v)
    ensures NeverUsed(states, i, v)
  {
    v := states[i].nextObject;
    NextIsUnused(g, states, steps, context, i);
    assert Enabled(g, states[i], t, AComplete);
  }

  // --- Answers ----------------------------------------------------------------------------

  predicate IsIdle(th: Thread) {
    th.stack == [] && th.phase.Running?
  }

  /** The bean the application asks for: with the action that the thread takes next, or since an earlier one. */
  function Asking(th: Thread, a: Action): Option<Key> {
    if th.stack != [] then Some(th.stack[0].key)
    else
      match th.phase
      case Running => if a.AResolve? then Some(a.key) else None
      case Waiting(k, _) => Some(k)
      case Notifying(k, _) => Some(k)
      case Announcing(k, _) => Some(k)
      case Unwinding => None
  }

  /** The answer to a shared bean is the stored instance. */
  predicate RightAnswer(g: Beans, s: State, k: Key, v: nat) {
    k in g.shared ==> k in s.instances && s.instances[k] == v
  }

  predicate Answered(g: Beans, s: State, th: Thread, th': Thread, k: Key) {
    && |th'.results| == |th.results| + 1
    && th'.results[..|th.results|] == th.results
    && th'.results[|th.results|].0 == k && RightAnswer(g, s, k, th'.results[|th.results|].1)
  }

  /** What a step of the thread does to its answers. */
  predicate AnswersOk(g: Beans, s: State, th: Thread, a: Action, th': Thread) {
    if Asking(th, a).Some? && IsIdle(th') then Answered(g, s, th, th', Asking(th, a).value)
    else th'.results == th.results
  }

  /** A pass of the claim loop answers the application, or changes no answers. */
  predicate AnswersOnly(g: Beans, s: State, th: Thread, th': Thread, k: Key) {
    if IsIdle(th') then th.stack == [] && Answered(g, s, th, th', k) else th'.results == th.results
  }

  lemma {:induction false} AttemptAnswers(g: Beans, s: State, t: Token, k: Key)
    requires t in s.threads
    ensures AnswersOnly(g, Attempt(s, t, k), s.threads[t], Attempt(s, t, k).threads[t], k)
  {
  }

  lemma {:induction false} ResolveAnswers(g: Beans, s: State, t: Token, k: Key)
    requires t in s.threads && s.threads[t].phase.Running?
    ensures AnswersOnly(g, Resolve(g, s, t, k), s.threads[t], Resolve(g, s, t, k).threads[t], k)
  {
    AttemptAnswers(g, Enter(s, t), t, k);
  }

  lemma {:induction false} CompleteAnswers(g: Beans, s: State, t: Token)
    requires Enabled(g, s, t, AComplete)
    ensures AnswersOk(g, Complete(g, s, t), s.threads[t], AComplete, Complete(g, s, t).threads[t])
  {
  }

  lemma {:induction false} ReturnAnswers(g: Beans, s: State, t: Token)
    requires Enabled(g, s, t, AReturn) && Built(g, s, s.threads[t].phase.key, s.threads[t].phase.obj)
    ensures AnswersOk(g, Apply(g, s, t, AReturn), s.threads[t], AReturn, Apply(g, s, t, AReturn).threads[t])
  {
  }

  lemma {:induction false} WakeAnswers(g: Beans, s: State, t: Token)
    requires Enabled(g, s, t, AWake)
    ensures AnswersOk(g, Apply(g, s, t, AWake), s.threads[t], AWake, Apply(g, s, t, AWake).threads[t])
  {
    AttemptAnswers(g, Enter(s, t), t, s.threads[t].phase.key);
  }

  lemma {:induction false} OwnAnswers(g: Beans, s: State, t: Token, a: Action)
    requires Enabled(g, s, t, a) && PhaseOk(g, s, t, s.threads[t])
    ensures AnswersOk(g, Apply(g, s, t, a), s.threads[t], a, Apply(g, s, t, a).threads[t])
  {
    match a
    case AResolve(k) => ResolveAnswers(g, s, t, k);
    case AComplete => CompleteAnswers(g, s, t);
    case AReturn => ReturnAnswers(g, s, t);
    case AWake => WakeAnswers(g, s, t);
    case _ =>
  }

  lemma {:induction false} OtherAnswers(g: Beans, s: State, t: Token, a: Action, u: Token)
    requires Enabled(g, s, t, a) && u in s.threads && u != t
    ensures u in Apply(g, s, t, a).threads && Apply(g, s, t, a).threads[u].results == s.threads[u].results
  {
    OtherWork(g, s, t, a, u);
  }

  /**
   A step of a run that ends the request of the application for a bean, and no
   other step, gives one answer, to the requesting thread and under the key it
   asked for; for a shared bean it is the stored instance.
   */
  lemma {:induction false} AnsweredOnce(
    g: Beans, states: seq<State>, steps: seq<(Token, Action)>, context: Key, i: nat, u: Token)
    requires Run(g, states, steps) && Init(g, states[0], context) && i < |steps| && u in states[i].threads
    ensures u in states[i + 1].threads
    ensures var t, th, th' := steps[i].0, states[i].threads[u], states[i + 1].threads[u];
      if u == t then AnswersOk(g, states[i + 1], th, steps[i].1, th') else th'.results == th.results
  {
    var t, a := steps[i].0, steps[i].1;
    RunKeeps(g, states, steps, context, i);
    assert ThreadOk(g, states[i], t, states[i].threads[t]);
    assert Enabled(g, states[i], t, a) && states[i + 1] == Apply(g, states[i], t, a);
    if u == t {
      KeysKept(g, states[i], t, a);
      OwnAnswers(g, states[i], t, a);
    } else {
      OtherAnswers(g, states[i], t, a, u);
    }
  }

  /** An exception is on its way to the application, or a notification is due before it. */
  predicate IsFailing(th: Thread) {
    th.phase.Unwinding? || (th.phase.Notifying? && th.phase.outcome.None?)
  }

  lemma {:induction false} AttemptFails(s: State, t: Token, k: Key)
    requires t in s.threads
    ensures IsFailing(Attempt(s, t, k).threads[t]) ==> Attempt(s, t, k).threads[t].phase.Unwinding? || IsFailing(s.threads[t])
  {
  }

  /**
   A request fails only because a constructor or a hook throws, or because it
   is refused for a bean that depends on itself or that the thread builds for
   another scope.
   */
  lemma {:induction false} FailureHasCause(g: Beans, s: State, t: Token, a: Action)
    requires Reachable(g, s) && Enabled(g, s, t, a)
    requires !IsFailing(s.threads[t]) && t in Apply(g, s, t, a).threads && IsFailing(Apply(g, s, t, a).threads[t])
    ensures a.AFail? || a.AHookThrow? || a.AResolve? || a.AWake?
    ensures a.AResolve? || a.AWake? ==>
      var k := RequestOf(s, t, a); DependsOn(g, k, k) || OtherScopeOnStack(s.threads[t].stack, k)
  {
    match a
    case AResolve(k) =>
      AttemptFails(Enter(s, t), t, k);
      RefusalMeansCycle(g, s, t, a);
    case AWake =>
      AttemptFails(Enter(s, t), t, s.threads[t].phase.key);
      RefusalMeansCycle(g, s, t, a);
    case _ =>
  }
}
